// What the create functions make is what was asked for: when a block is made and when not, what it says, and what its
// acceptance does.
module Requests {
  import opened Basics
  import opened DagBlock
  import opened LedgerState
  import opened Nodes
  import opened Consistency
  import opened Health
  import opened Creators
  import opened RewardFigures

  // ----- When a block is made ------------------------------------------------------------------

  predicate Serves(s: Ledger, pub: Pub) {
    pub in s.providers && s.providers[pub].capacityGB != 0.0
  }

  predicate HasHead(s: Ledger, pub: Pub) {
    pub in s.chains && s.chains[pub] != []
  }

  function HeadBlock(s: Ledger, pub: Pub): Block
    requires HasHead(s, pub)
  {
    s.chains[pub][|s.chains[pub]| - 1]
  }

  // No reward block of the chain names the day.
  predicate NoRewardNamed(chain: seq<Block>, day: int) {
    forall i :: 0 <= i < |chain| && chain[i].kind.StorageReward? && chain[i].contractData.Some? && chain[i].contractData.value.Json? ==>
      chain[i].contractData.value.epochDay != Some(day)
  }

  // Exactly when each create function makes a block.
  predicate Permitted(s: Ledger, pub: Pub, r: Request, now: int) {
    match r
    case ToOpen(_, _) => true
    case ToSend(recipient, amount) =>
      recipient.Some? && recipient.value != "" && HasHead(s, pub) && 0 < amount <= HeadBlock(s, pub).balance
    case ToReceive(h) => h in s.unclaimed && s.unclaimed[h].toPub == pub && HasHead(s, pub)
    case ToDeploy(_) => HasHead(s, pub)
    case ToCall(_, _) => HasHead(s, pub)
    case ToUpdate(_) => HasHead(s, pub)
    case ToRegister(capacityGB, _) => HasHead(s, pub) && capacityGB > 0.0
    case ToDeregister => Serves(s, pub) && HasHead(s, pub)
    case ToHeartbeat(_, _, _) =>
      && Serves(s, pub) && HasHead(s, pub)
      && (s.providers[pub].lastHeartbeat <= 0 || now - s.providers[pub].lastHeartbeat >= 14_340_000)
    case ToReward =>
      var day := now / 86_400_000;
      && Serves(s, pub) && HasHead(s, pub) && s.providers[pub].lastRewardEpoch < day
      && NoRewardNamed(s.chains[pub], day) && CapacityAtEpochStart(s.chains[pub], day) != 0.0
      && HeartbeatsInEpoch(s, pub, day) > 0
      && Amount(EffectiveGB(s.chains[pub], day), HeartbeatsInEpoch(s, pub, day)) > 0
  }

  lemma HeadIs(s: Ledger, pub: Pub)
    ensures Head(s, pub) == if HasHead(s, pub) then Some(HeadBlock(s, pub)) else None
    ensures BalanceOf(s, pub) == if HasHead(s, pub) then HeadBlock(s, pub).balance else 0
  {
  }

  lemma MadeIffPermitted(env: Env, s: Ledger, pub: Pub, r: Request, keys: KeyPair, now: int)
    ensures Create(env, s, pub, r, keys, now).Made? <==> Permitted(s, pub, r, now)
  {
    HeadIs(s, pub);
    if r.ToReward? {
      RewardIffPermitted(env, s, pub, keys, now);
    }
  }

  lemma RewardIffPermitted(env: Env, s: Ledger, pub: Pub, keys: KeyPair, now: int)
    ensures Create(env, s, pub, ToReward, keys, now).Made? <==> Permitted(s, pub, ToReward, now)
  {
    var day := now / 86_400_000;
    HeadIs(s, pub);
    AmountIs(EffectiveGB(Chain(s, pub), day), HeartbeatsInEpoch(s, pub, day));
    NamedOrNot(Chain(s, pub), day);
    ShortOfChain(s, pub, day);
  }

  lemma NamedOrNot(chain: seq<Block>, day: int)
    ensures RewardInChain(chain, day) <==> !NoRewardNamed(chain, day)
  {
    if RewardInChain(chain, day) {
      var b :| b in chain && b.kind.StorageReward? && b.contractData.Some? && b.contractData.value.Json?
               && b.contractData.value.epochDay == Some(day);
      var i :| 0 <= i < |chain| && chain[i] == b;
    }
    if i :| 0 <= i < |chain| && chain[i].kind.StorageReward? && chain[i].contractData.Some? && chain[i].contractData.value.Json?
            && chain[i].contractData.value.epochDay == Some(day) {
      assert chain[i] in chain;
    }
  }

  lemma ShortOfChain(s: Ledger, pub: Pub, day: int)
    ensures !HasHead(s, pub) ==> CapacityAtEpochStart(Chain(s, pub), day) == 0.0
  {
  }

  // ----- What the block says -------------------------------------------------------------------

  // Every made block is the account's, dated now, hashed and signed, and comes next on the account's head.
  lemma MadeOnHead(env: Env, s: Ledger, pub: Pub, r: Request, keys: KeyPair, now: int)
    requires Create(env, s, pub, r, keys, now).Made?
    ensures var b := Create(env, s, pub, r, keys, now).block;
            && b.accountPub == pub && b.timestamp == now
            && b.hash == env.digest(HashInput(b)) && b.signature == keys.sign(b.hash)
            && b.pqSignature == (if keys.pqSign.Some? then Some(keys.pqSign.value(b.hash)) else None)
            && (r.ToOpen? ==> b.index == 0 && b.previousHash == ZERO_HASH)
            && (!r.ToOpen? ==> HasHead(s, pub) && b.index == HeadBlock(s, pub).index + 1 && b.previousHash == HeadBlock(s, pub).hash)
  {
    MadeIffPermitted(env, s, pub, r, keys, now);
    HeadIs(s, pub);
    var draft := Drafted(s, pub, r, now);
    assert HashInput(Sealed(env, draft, keys, now)) == HashInput(draft.(timestamp := now));
  }

  // What a block says, for each request.
  predicate AsAsked(s: Ledger, pub: Pub, r: Request, b: Block) {
    var before := BalanceOf(s, pub);
    match r
    case ToOpen(face, credentials) =>
      b.kind.Open? && b.balance == 1_000_000_000 && b.faceMapHash == Some(face) && b.relayCredentials == credentials
    case ToSend(recipient, amount) =>
      b.kind.Send? && b.recipient == recipient && b.amount == Some(amount) && b.balance == before - amount
    case ToReceive(h) =>
      && h in s.unclaimed && b.kind.Receive? && b.sendBlockHash == Some(h)
      && b.sendFrom == Some(s.unclaimed[h].fromPub) && b.receiveAmount == Some(s.unclaimed[h].amount)
      && b.balance == before + s.unclaimed[h].amount
    case ToDeploy(data) => b.kind.Deploy? && b.contractData == Some(data) && b.balance == before
    case ToCall(data, rest) => b.kind.Call? && b.contractData == Some(data) && b.rest == rest && b.balance == before
    case ToUpdate(changes) => b.kind.Update? && b.updateData == Some(changes) && b.balance == before
    case ToRegister(capacityGB, deviceId) =>
      && b.kind.StorageRegister? && b.balance == before && b.contractData.Some? && b.contractData.value.Json?
      && b.contractData.value.capacityGB == Some(capacityGB) && b.contractData.value.deviceId == deviceId
    case ToDeregister =>
      && b.kind.StorageDeregister? && b.balance == before && pub in s.providers && b.contractData.Some? && b.contractData.value.Json?
      && b.contractData.value.capacityGB == Some(s.providers[pub].capacityGB)
    case ToHeartbeat(smokeAddr, bytes, country) =>
      && b.kind.StorageHeartbeat? && b.balance == before && b.contractData.Some? && b.contractData.value.Json?
      && b.contractData.value.smokeAddr == smokeAddr && b.contractData.value.actualStoredBytes == bytes
      && b.contractData.value.countryCode == country
    case ToReward => b.kind.StorageReward? && b.balance == before + RewardAmount(b)
  }

  lemma MadeAsAsked(env: Env, s: Ledger, pub: Pub, r: Request, keys: KeyPair, now: int)
    requires Create(env, s, pub, r, keys, now).Made?
    ensures AsAsked(s, pub, r, Create(env, s, pub, r, keys, now).block)
  {
    HeadIs(s, pub);
  }

  // ----- What acceptance does ------------------------------------------------------------------

  lemma StoredHead(env: Env, s: Ledger, b: Block, now: int)
    requires Judge(env, s, b, now).Accepted?
    ensures Head(AddBlock(env, s, b, now), b.accountPub) == Some(b)
    ensures var t, u := AddBlock(env, s, b, now), Store(s, b);
            t.unclaimed == u.unclaimed && t.contracts == u.contracts && t.providers == u.providers && t.accounts == u.accounts
  {
    PruneKeepsNewest(Store(s, b), b.accountPub);
    HeadOfStored(s, b);
    assert AddBlock(env, s, b, now) == Prune(Store(s, b), b.accountPub);
  }

  lemma HeadOfStored(s: Ledger, b: Block)
    ensures Head(Store(s, b), b.accountPub) == Some(b) && Head(Prune(Store(s, b), b.accountPub), b.accountPub) == Some(b)
  {
    var chain := Chain(Store(s, b), b.accountPub);
    assert chain == Chain(s, b.accountPub) + [b] && chain[|chain| - 1] == b;
    PruneKeepsNewest(Store(s, b), b.accountPub);
  }

  // What the ledger shows after each request's block is accepted.
  predicate Done(s: Ledger, t: Ledger, pub: Pub, r: Request, b: Block, now: int) {
    var before := BalanceOf(s, pub);
    match r
    case ToOpen(_, _) => BalanceOf(t, pub) == 1_000_000_000 && t.unclaimed == s.unclaimed
    case ToSend(recipient, amount) =>
      && BalanceOf(t, pub) == before - amount
      && recipient.Some? && t.unclaimed == s.unclaimed[b.hash := UnclaimedSend(pub, recipient.value, amount)]
    case ToReceive(h) =>
      && h in s.blocks && s.blocks[h].kind.Send? && s.blocks[h].amount.Some?
      && BalanceOf(t, pub) == before + s.blocks[h].amount.value && b.sendFrom == Some(s.blocks[h].accountPub)
      && t.unclaimed == s.unclaimed - {h}
    case ToDeploy(data) =>
      && BalanceOf(t, pub) == before
      && (data.Json? ==> b.hash in t.contracts && DeployedBy(t.contracts[b.hash], b) && t.contracts[b.hash].owner == pub)
    case ToCall(_, _) => BalanceOf(t, pub) == before
    case ToUpdate(changes) =>
      && BalanceOf(t, pub) == before
      && (pub in s.accounts && changes.Changes? && changes.newPQPub.Some? && changes.newPQPub.value != "" ==>
            pub in t.accounts && t.accounts[pub].pqPub == changes.newPQPub)
    case ToRegister(capacityGB, deviceId) =>
      && pub in t.providers && t.providers[pub].capacityGB == capacityGB
      && t.providers[pub].deviceId ==
         (if deviceId.Some? then deviceId.value else if pub in s.providers then s.providers[pub].deviceId else "")
      && t.providers[pub].registeredAt == (if pub in s.providers then s.providers[pub].registeredAt else now)
    case ToDeregister => pub !in t.providers
    case ToHeartbeat(smokeAddr, bytes, country) =>
      && pub in s.providers && pub in t.providers
      && var p, q := s.providers[pub], t.providers[pub];
         && q.lastHeartbeat == now && q.registeredAt == p.registeredAt && q.deviceId == p.deviceId && q.capacityGB == p.capacityGB
         && q.smokeAddr == (if smokeAddr.Some? && smokeAddr.value != "" then smokeAddr else p.smokeAddr)
         && q.lastActualStoredBytes == (if bytes.Some? then bytes.value else p.lastActualStoredBytes)
         && q.countryCode == (if TwoCapitals(country) then country else p.countryCode)
    case ToReward =>
      && pub in s.providers && pub in t.providers && BalanceOf(t, pub) == before + RewardAmount(b)
      && t.providers[pub].totalEarned == s.providers[pub].totalEarned + RewardAmount(b)
      && t.providers[pub].lastRewardEpoch == now / 86_400_000
  }

  predicate TwoCapitals(country: Option<string>) {
    country.Some? && |country.value| == 2 && forall i :: 0 <= i < 2 ==> 'A' <= country.value[i] <= 'Z'
  }

  lemma TransferDone(env: Env, s: Ledger, pub: Pub, r: Request, keys: KeyPair, now: int, later: int)
    requires r.ToOpen? || r.ToSend? || r.ToReceive?
    requires Healthy(s) && Create(env, s, pub, r, keys, now).Made?
    requires Judge(env, s, Create(env, s, pub, r, keys, now).block, later).Accepted?
    ensures var b := Create(env, s, pub, r, keys, now).block; Done(s, AddBlock(env, s, b, later), pub, r, b, now)
  {
    var b := Create(env, s, pub, r, keys, now).block;
    MadeAsAsked(env, s, pub, r, keys, now);
    MadeOnHead(env, s, pub, r, keys, now);
    AcceptedIffAdmissible(env, s, b, later);
    StoredHead(env, s, b, later);
    if r.ToReceive? {
      assert Backed(s.blocks, b) && Describes(s.unclaimed[r.sendBlockHash], s.blocks[r.sendBlockHash]);
    }
  }

  lemma DataDone(env: Env, s: Ledger, pub: Pub, r: Request, keys: KeyPair, now: int, later: int)
    requires r.ToDeploy? || r.ToCall? || r.ToUpdate?
    requires Create(env, s, pub, r, keys, now).Made?
    requires Judge(env, s, Create(env, s, pub, r, keys, now).block, later).Accepted?
    ensures var b := Create(env, s, pub, r, keys, now).block; Done(s, AddBlock(env, s, b, later), pub, r, b, now)
  {
    var b := Create(env, s, pub, r, keys, now).block;
    MadeAsAsked(env, s, pub, r, keys, now);
    MadeOnHead(env, s, pub, r, keys, now);
    StoredHead(env, s, b, later);
  }

  lemma StorageDone(env: Env, s: Ledger, pub: Pub, r: Request, keys: KeyPair, now: int, later: int)
    requires r.ToRegister? || r.ToDeregister? || r.ToHeartbeat?
    requires Create(env, s, pub, r, keys, now).Made?
    requires Judge(env, s, Create(env, s, pub, r, keys, now).block, later).Accepted?
    ensures var b := Create(env, s, pub, r, keys, now).block; Done(s, AddBlock(env, s, b, later), pub, r, b, now)
  {
    var b := Create(env, s, pub, r, keys, now).block;
    MadeAsAsked(env, s, pub, r, keys, now);
    MadeOnHead(env, s, pub, r, keys, now);
    MadeIffPermitted(env, s, pub, r, keys, now);
    StoredHead(env, s, b, later);
    StorageStored(s, AddBlock(env, s, b, later), pub, r, b, now);
  }

  lemma StorageStored(s: Ledger, t: Ledger, pub: Pub, r: Request, b: Block, now: int)
    requires r.ToRegister? || r.ToDeregister? || r.ToHeartbeat?
    requires AsAsked(s, pub, r, b) && b.accountPub == pub && b.timestamp == now && (r.ToHeartbeat? ==> pub in s.providers)
    requires t.providers == Store(s, b).providers
    ensures Done(s, t, pub, r, b, now)
  {
    assert Lookup(Store(s, b).providers, pub) == ProviderAfter(Lookup(s.providers, pub), b);
  }

  lemma RewardDone(env: Env, s: Ledger, pub: Pub, keys: KeyPair, now: int, later: int)
    requires Create(env, s, pub, ToReward, keys, now).Made?
    requires Judge(env, s, Create(env, s, pub, ToReward, keys, now).block, later).Accepted?
    ensures var b := Create(env, s, pub, ToReward, keys, now).block; Done(s, AddBlock(env, s, b, later), pub, ToReward, b, now)
  {
    var b := Create(env, s, pub, ToReward, keys, now).block;
    MadeAsAsked(env, s, pub, ToReward, keys, now);
    MadeOnHead(env, s, pub, ToReward, keys, now);
    MadeIffPermitted(env, s, pub, ToReward, keys, now);
    StoredHead(env, s, b, later);
    assert Lookup(Store(s, b).providers, pub) == ProviderAfter(Lookup(s.providers, pub), b);
  }

  // After every run: the create functions make a block exactly when it is permitted; the block says what was asked; and
  // once it is accepted the ledger shows it.
  lemma CreatorsDoAsAsked(env: Env, es: seq<Event>, pub: Pub, r: Request, keys: KeyPair, now: int, later: int)
    ensures var s := Run(env, es).ledger;
            var made := Create(env, s, pub, r, keys, now);
            && (made.Made? <==> Permitted(s, pub, r, now))
            && (made.Made? ==>
                  && AsAsked(s, pub, r, made.block)
                  && (Judge(env, s, made.block, later).Accepted? ==>
                        && Head(AddBlock(env, s, made.block, later), pub) == Some(made.block)
                        && Done(s, AddBlock(env, s, made.block, later), pub, r, made.block, now)))
  {
    var s := Run(env, es).ledger;
    MadeIffPermitted(env, s, pub, r, keys, now);
    if Create(env, s, pub, r, keys, now).Made? {
      MadeAsAsked(env, s, pub, r, keys, now);
      MadeOnHead(env, s, pub, r, keys, now);
      var b := Create(env, s, pub, r, keys, now).block;
      if Judge(env, s, b, later).Accepted? {
        StoredHead(env, s, b, later);
        EveryRunHealthy(env, es);
        RequestDone(env, s, pub, r, keys, now, later);
      }
    }
  }

  lemma RequestDone(env: Env, s: Ledger, pub: Pub, r: Request, keys: KeyPair, now: int, later: int)
    requires Healthy(s) && Create(env, s, pub, r, keys, now).Made?
    requires Judge(env, s, Create(env, s, pub, r, keys, now).block, later).Accepted?
    ensures var b := Create(env, s, pub, r, keys, now).block; Done(s, AddBlock(env, s, b, later), pub, r, b, now)
  {
    if r.ToOpen? || r.ToSend? || r.ToReceive? {
      TransferDone(env, s, pub, r, keys, now, later);
    } else if r.ToDeploy? || r.ToCall? || r.ToUpdate? {
      DataDone(env, s, pub, r, keys, now, later);
    } else if r.ToReward? {
      RewardDone(env, s, pub, keys, now, later);
    } else {
      StorageDone(env, s, pub, r, keys, now, later);
    }
  }

  // ----- Why a block is not made ---------------------------------------------------------------

  // What each refusal says is true.
  predicate Because(s: Ledger, pub: Pub, r: Request, now: int, reason: Reason) {
    match reason
    case RecipientNotFound => r.ToSend? && (r.recipient.None? || r.recipient.value == "")
    case NotOpened => !r.ToOpen? && !HasHead(s, pub)
    case TooPoor => r.ToSend? && HasHead(s, pub) && HeadBlock(s, pub).balance < r.amount
    case AmountNotPositive => r.ToSend? && r.amount <= 0
    case NothingToClaim => r.ToReceive? && r.sendBlockHash !in s.unclaimed
    case NotAddressedToYou => r.ToReceive? && r.sendBlockHash in s.unclaimed && s.unclaimed[r.sendBlockHash].toPub != pub
    case CapacityNotPositive => r.ToRegister? && r.capacityGB <= 0.0
    case NotAProviderYet => (r.ToDeregister? || r.ToHeartbeat? || r.ToReward?) && !Serves(s, pub)
    case IntervalNotReached =>
      r.ToHeartbeat? && Serves(s, pub) && s.providers[pub].lastHeartbeat > 0 && now - s.providers[pub].lastHeartbeat < 14_340_000
    case ClaimedToday => r.ToReward? && Serves(s, pub) && s.providers[pub].lastRewardEpoch >= now / 86_400_000
    case RewardInChainToday => r.ToReward? && !NoRewardNamed(Chain(s, pub), now / 86_400_000)
    case NotRegisteredInTime => r.ToReward? && CapacityAtEpochStart(Chain(s, pub), now / 86_400_000) == 0.0
    case NoHeartbeatsToday => r.ToReward? && HeartbeatsInEpoch(s, pub, now / 86_400_000) == 0
    case RewardIsZero =>
      r.ToReward? && Amount(EffectiveGB(Chain(s, pub), now / 86_400_000), HeartbeatsInEpoch(s, pub, now / 86_400_000)) <= 0
  }

  lemma NotMadeBecause(env: Env, s: Ledger, pub: Pub, r: Request, keys: KeyPair, now: int)
    ensures var made := Create(env, s, pub, r, keys, now); made.NotMade? ==> Because(s, pub, r, now, made.reason)
  {
    var day := now / 86_400_000;
    HeadIs(s, pub);
    AmountIs(EffectiveGB(Chain(s, pub), day), HeartbeatsInEpoch(s, pub, day));
    NamedOrNot(Chain(s, pub), day);
  }
}
