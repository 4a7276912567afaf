// The block creators of src/core/dag-ledger.ts, and their agreement with what addBlock accepts.
module Creators {
  import opened Basics
  import opened DagBlock
  import opened LedgerState
  import opened Nodes
  import opened Consistency
  import opened Lineage
  import opened Conservation
  import opened Health
  import opened Rewards

  datatype KeyPair = KeyPair(sign: Hash -> string, pqSign: Option<Hash -> string>)

  // What the caller asks for. A send's recipient is already resolved to a public key, if it resolves.
  datatype Request =
    | ToOpen(faceMapHash: string, credentials: seq<RelayCredential>)
    | ToSend(recipient: Option<Pub>, amount: int)
    | ToReceive(sendBlockHash: Hash)
    | ToDeploy(data: ContractData)
    | ToCall(data: ContractData, rest: string)
    | ToUpdate(changes: UpdateData)
    | ToRegister(capacityGB: real, deviceId: Option<string>)
    | ToDeregister
    | ToHeartbeat(smokeAddr: Option<string>, actualStoredBytes: Option<real>, countryCode: Option<string>)
    | ToReward

  datatype Reason =
    | RecipientNotFound | NotOpened | TooPoor | AmountNotPositive | NothingToClaim | NotAddressedToYou
    | CapacityNotPositive | NotAProviderYet | IntervalNotReached | ClaimedToday | RewardInChainToday
    | NotRegisteredInTime | NoHeartbeatsToday | RewardIsZero

  datatype Created = Made(block: Block) | NotMade(reason: Reason)

  const NO_DATA := Json(None, None, None, None, None, None, None, None, None, None, None)

  function Draft(pub: Pub, index: int, kind: BlockType, previousHash: Hash, balance: int): Block {
    Block("", pub, index, kind, previousHash, balance, 0, "", None,
          None, None, None, None, None, None, None, None, None, "", [])
  }

  // createAccountBlock: timestamp, hash and signatures.
  function Sealed(env: Env, draft: Block, keys: KeyPair, now: int): Block {
    var stamped := draft.(timestamp := now);
    var hash := env.digest(HashInput(stamped));
    stamped.(hash := hash, signature := keys.sign(hash),
             pqSignature := if keys.pqSign.Some? then Some(keys.pqSign.value(hash)) else None)
  }

  predicate RewardInChain(chain: seq<Block>, epoch: int) {
    exists b :: b in chain && b.kind.StorageReward? && b.contractData.Some? && b.contractData.value.Json?
                && b.contractData.value.epochDay == Some(epoch)
  }

  // Why a create function refuses, in the source's order of checks, if it does.
  function Objection(s: Ledger, pub: Pub, r: Request, now: int): Option<Reason> {
    var provider := Lookup(s.providers, pub);
    var inactive := provider.None? || provider.value.capacityGB == 0.0;
    var unopened := Head(s, pub).None?;
    match r
    case ToOpen(_, _) => None
    case ToSend(recipient, amount) =>
      if !Given(recipient) then Some(RecipientNotFound)
      else if unopened then Some(NotOpened)
      else if Head(s, pub).value.balance < amount then Some(TooPoor)
      else if amount <= 0 then Some(AmountNotPositive)
      else None
    case ToReceive(h) =>
      if h !in s.unclaimed then Some(NothingToClaim)
      else if s.unclaimed[h].toPub != pub then Some(NotAddressedToYou)
      else if unopened then Some(NotOpened)
      else None
    case ToRegister(capacityGB, _) =>
      if unopened then Some(NotOpened)
      else if capacityGB <= 0.0 then Some(CapacityNotPositive)
      else None
    case ToDeregister =>
      if inactive then Some(NotAProviderYet) else if unopened then Some(NotOpened) else None
    case ToHeartbeat(_, _, _) =>
      if inactive then Some(NotAProviderYet)
      else if provider.value.lastHeartbeat > 0 && now - provider.value.lastHeartbeat < HEARTBEAT_INTERVAL_MS - 60_000 then
        Some(IntervalNotReached)
      else if unopened then Some(NotOpened)
      else None
    case ToReward =>
      var epoch := EpochDay(now);
      if inactive then Some(NotAProviderYet)
      else if provider.value.lastRewardEpoch >= epoch then Some(ClaimedToday)
      else if RewardInChain(Chain(s, pub), epoch) then Some(RewardInChainToday)
      else if CapacityAtEpochStart(Chain(s, pub), epoch) == 0.0 then Some(NotRegisteredInTime)
      else if HeartbeatsInEpoch(s, pub, epoch) == 0 then Some(NoHeartbeatsToday)
      else if RewardToday(s, pub, epoch) <= 0 then Some(RewardIsZero)
      else if unopened then Some(NotOpened)
      else None
    case _ => if unopened then Some(NotOpened) else None
  }

  function RewardToday(s: Ledger, pub: Pub, epoch: int): int {
    MaxReward(EffectiveGB(Chain(s, pub), epoch), HeartbeatsInEpoch(s, pub, epoch))
  }

  function Next(s: Ledger, pub: Pub, kind: BlockType, delta: int): Block
    requires Head(s, pub).Some?
  {
    var head := Head(s, pub).value;
    Draft(pub, head.index + 1, kind, head.hash, head.balance + delta)
  }

  // The unsealed block each create function builds on the account's head.
  function Drafted(s: Ledger, pub: Pub, r: Request, now: int): Block
    requires Objection(s, pub, r, now).None?
  {
    match r
    case ToOpen(face, credentials) =>
      Draft(pub, 0, Open, ZERO_HASH, VERIFICATION_MINT_AMOUNT).(faceMapHash := Some(face), relayCredentials := credentials)
    case ToSend(recipient, amount) => Next(s, pub, Send, -amount).(recipient := recipient, amount := Some(amount))
    case ToReceive(h) =>
      var u := s.unclaimed[h];
      Next(s, pub, Receive, u.amount).(sendBlockHash := Some(h), sendFrom := Some(u.fromPub), receiveAmount := Some(u.amount))
    case ToDeploy(data) => Next(s, pub, Deploy, 0).(contractData := Some(data))
    case ToCall(data, rest) => Next(s, pub, Call, 0).(contractData := Some(data), rest := rest)
    case ToUpdate(changes) => Next(s, pub, Update, 0).(updateData := Some(changes))
    case ToRegister(capacityGB, deviceId) =>
      Next(s, pub, StorageRegister, 0).(contractData := Some(NO_DATA.(capacityGB := Some(capacityGB), deviceId := deviceId)))
    case ToDeregister =>
      Next(s, pub, StorageDeregister, 0).(contractData := Some(NO_DATA.(capacityGB := Some(Lookup(s.providers, pub).value.capacityGB))))
    case ToHeartbeat(smokeAddr, bytes, country) =>
      Next(s, pub, StorageHeartbeat, 0).(contractData :=
        Some(NO_DATA.(smokeAddr := smokeAddr, actualStoredBytes := bytes, countryCode := country)))
    case ToReward =>
      var epoch := EpochDay(now);
      var amount := RewardToday(s, pub, epoch);
      Next(s, pub, StorageReward, amount).(contractData :=
        Some(NO_DATA.(epochDay := Some(epoch), storedGB := Some(EffectiveGB(Chain(s, pub), epoch)), amount := Some(amount),
                      heartbeatCount := Some(HeartbeatsInEpoch(s, pub, epoch)))))
  }

  function Create(env: Env, s: Ledger, pub: Pub, r: Request, keys: KeyPair, now: int): Created {
    var objection := Objection(s, pub, r, now);
    if objection.Some? then NotMade(objection.value) else Made(Sealed(env, Drafted(s, pub, r, now), keys, now))
  }

  // ----- Agreement with addBlock ---------------------------------------------------------------

  ghost predicate KeysBelongTo(env: Env, keys: KeyPair, pub: Pub, pqPub: Option<string>) {
    && (forall h :: env.verify(keys.sign(h), pub) == Some(h))
    && (Given(pqPub) && keys.pqSign.Some? ==> forall h :: env.pqVerify(h, keys.pqSign.value(h), pqPub.value))
  }

  // What the create functions leave to addBlock.
  predicate LeftToCaller(env: Env, s: Ledger, pub: Pub, r: Request, b: Block, now: int) {
    match r
    case ToOpen(face, credentials) =>
      face != "" && ValidCredentials(env, credentials, Some(face)) >= MinCredentials(env) && pub !in s.chains
    case ToReceive(h) => SafeBalance(b.balance) && h != "" && h in s.blocks && s.blocks[h].kind.Send?
    case ToUpdate(changes) => changes.Changes? && Given(changes.newLinkedAnchor)
    case ToReward => SafeBalance(b.balance) && now >= REWARD_EPOCH_MS
    case _ => true
  }

  lemma SealedVerifies(env: Env, draft: Block, keys: KeyPair, now: int, pqPub: Option<string>)
    requires KeysBelongTo(env, keys, draft.accountPub, pqPub)
    ensures var b := Sealed(env, draft, keys, now); HashMatches(env, b) && SignatureValid(env, b, pqPub)
  {
  }

  lemma HeadIsStored(s: Ledger, pub: Pub)
    requires ChainsStored(s.blocks, s.chains) && BlocksValid(s.blocks) && Head(s, pub).Some?
    ensures var head := Head(s, pub).value;
            head.accountPub == pub && Lookup(s.blocks, head.hash) == Some(head) && SafeBalance(head.balance)
  {
  }

  lemma PositiveCapacity(s: Ledger, pub: Pub, epoch: int)
    requires ChainsStored(s.blocks, s.chains) && BlocksValid(s.blocks) && CapacityAtEpochStart(Chain(s, pub), epoch) != 0.0
    ensures EffectiveGB(Chain(s, pub), epoch) > 0.0
  {
    var chain := Chain(s, pub);
    assert pub in s.chains ==> ChainOf(s.blocks, pub, chain);
    CapacityNotNegative(chain, epoch * REWARD_EPOCH_MS);
  }

  // The draft of every request is sound on the head it builds on; sealing changes no checked field.
  lemma TransferDraftIsSound(env: Env, s: Ledger, pub: Pub, r: Request, now: int)
    requires r.ToOpen? || r.ToSend? || r.ToReceive?
    requires Objection(s, pub, r, now).None? && LeftToCaller(env, s, pub, r, Drafted(s, pub, r, now), now)
    requires Head(s, pub).Some? ==> SafeBalance(Head(s, pub).value.balance)
    requires r.ToReceive? ==> 0 < s.unclaimed[r.sendBlockHash].amount <= MAX_SAFE_INTEGER
    ensures Sound(Drafted(s, pub, r, now), if r.ToOpen? then None else Head(s, pub))
  {
  }

  lemma StorageDraftIsSound(env: Env, s: Ledger, pub: Pub, r: Request, now: int)
    requires r.ToRegister? || r.ToDeregister? || r.ToHeartbeat? || r.ToReward?
    requires Objection(s, pub, r, now).None? && LeftToCaller(env, s, pub, r, Drafted(s, pub, r, now), now)
    requires Head(s, pub).Some? ==> SafeBalance(Head(s, pub).value.balance)
    requires r.ToReward? ==> EffectiveGB(Chain(s, pub), EpochDay(now)) > 0.0
    ensures Sound(Drafted(s, pub, r, now), Head(s, pub))
  {
  }

  lemma DataDraftIsSound(env: Env, s: Ledger, pub: Pub, r: Request, now: int)
    requires r.ToDeploy? || r.ToCall? || r.ToUpdate?
    requires Objection(s, pub, r, now).None? && LeftToCaller(env, s, pub, r, Drafted(s, pub, r, now), now)
    requires Head(s, pub).Some? ==> SafeBalance(Head(s, pub).value.balance)
    ensures Sound(Drafted(s, pub, r, now), Head(s, pub))
  {
  }

  lemma DraftIsSound(env: Env, s: Ledger, pub: Pub, r: Request, now: int)
    requires Objection(s, pub, r, now).None? && LeftToCaller(env, s, pub, r, Drafted(s, pub, r, now), now)
    requires Head(s, pub).Some? ==> SafeBalance(Head(s, pub).value.balance)
    requires r.ToReceive? ==> 0 < s.unclaimed[r.sendBlockHash].amount <= MAX_SAFE_INTEGER
    requires r.ToReward? ==> EffectiveGB(Chain(s, pub), EpochDay(now)) > 0.0
    ensures Sound(Drafted(s, pub, r, now), if r.ToOpen? then None else Head(s, pub))
  {
    if r.ToOpen? || r.ToSend? || r.ToReceive? {
      TransferDraftIsSound(env, s, pub, r, now);
    } else if r.ToDeploy? || r.ToCall? || r.ToUpdate? {
      DataDraftIsSound(env, s, pub, r, now);
    } else {
      StorageDraftIsSound(env, s, pub, r, now);
    }
  }

  lemma CreatedIsSound(env: Env, s: Ledger, pub: Pub, r: Request, keys: KeyPair, now: int)
    requires Healthy(s) && Create(env, s, pub, r, keys, now).Made?
    requires LeftToCaller(env, s, pub, r, Create(env, s, pub, r, keys, now).block, now)
    ensures var b := Create(env, s, pub, r, keys, now).block; Sound(b, Parent(s, b))
  {
    if !r.ToOpen? {
      HeadIsStored(s, pub);
    }
    if r.ToReward? {
      PositiveCapacity(s, pub, EpochDay(now));
    }
    if r.ToReceive? {
      assert Describes(s.unclaimed[r.sendBlockHash], s.blocks[r.sendBlockHash]);
      assert PayloadComplete(s.blocks[r.sendBlockHash]);
    }
    DraftIsSound(env, s, pub, r, now);
  }

  lemma CreatedPassesSemantics(env: Env, s: Ledger, pub: Pub, r: Request, keys: KeyPair, now: int, later: int)
    requires Healthy(s) && Create(env, s, pub, r, keys, now).Made? && now <= later
    requires LeftToCaller(env, s, pub, r, Create(env, s, pub, r, keys, now).block, now)
    ensures ValidateSemantics(env, s, Create(env, s, pub, r, keys, now).block, later).None?
  {
    if r.ToReceive? {
      assert Describes(s.unclaimed[r.sendBlockHash], s.blocks[r.sendBlockHash]);
      assert PayloadComplete(s.blocks[r.sendBlockHash]);
    }
  }

  // What addBlock demands beyond the create function's own checks is no more than LeftToCaller.
  lemma AcceptedWasLeft(env: Env, s: Ledger, pub: Pub, r: Request, keys: KeyPair, now: int, later: int)
    requires Create(env, s, pub, r, keys, now).Made?
    requires Judge(env, s, Create(env, s, pub, r, keys, now).block, later).Accepted?
    ensures LeftToCaller(env, s, pub, r, Create(env, s, pub, r, keys, now).block, now)
  {
  }

  // In every run, with rejections and pruning: a new block that a create function returns is accepted by addBlock in
  // the same state, at that or any later clock, exactly under the conditions the create function leaves to its caller.
  lemma CreatorsAgreeWithAddBlock(env: Env, es: seq<Event>, pub: Pub, r: Request, keys: KeyPair, now: int, later: int)
    requires Create(env, Run(env, es).ledger, pub, r, keys, now).Made? && now <= later
    requires KeysBelongTo(env, keys, pub, PqOf(Run(env, es).ledger, pub))
    ensures var s := Run(env, es).ledger;
            var b := Create(env, s, pub, r, keys, now).block;
            b.hash !in s.blocks ==> (Judge(env, s, b, later).Accepted? <==> LeftToCaller(env, s, pub, r, b, now))
  {
    var s := Run(env, es).ledger;
    var b := Create(env, s, pub, r, keys, now).block;
    if LeftToCaller(env, s, pub, r, b, now) {
      EveryRunHealthy(env, es);
      CreatedIsSound(env, s, pub, r, keys, now);
      CreatedPassesSemantics(env, s, pub, r, keys, now, later);
      SealedVerifies(env, Drafted(s, pub, r, now), keys, now, PqOf(s, pub));
      AcceptedIffAdmissible(env, s, b, later);
    } else if Judge(env, s, b, later).Accepted? {
      AcceptedWasLeft(env, s, pub, r, keys, now, later);
    }
  }

  // ----- Runs of created blocks ----------------------------------------------------------------

  ghost predicate CreatedIn(env: Env, s: Ledger, b: Block) {
    exists r, keys, now :: Create(env, s, b.accountPub, r, keys, now) == Made(b)
  }

  // Every accepted block came from a create function in the very state that accepted it.
  ghost predicate CreatorRun(env: Env, es: seq<Event>) {
    es != [] ==>
      && CreatorRun(env, es[..|es| - 1])
      && var s, e := Run(env, es[..|es| - 1]).ledger, es[|es| - 1];
         (e.Submit? && Judge(env, s, e.block, e.now).Accepted? ==> CreatedIn(env, s, e.block))
  }

  lemma CreatedFollowsHead(env: Env, s: Ledger, b: Block)
    requires CreatedIn(env, s, b)
    ensures !b.kind.Open? ==> Head(s, b.accountPub).Some? && b.previousHash == Head(s, b.accountPub).value.hash
    ensures b.kind.Receive? ==> b.sendBlockHash.Some? && b.sendBlockHash.value in s.unclaimed
  {
  }

  lemma FollowingHeadIsLineal(s: Ledger, b: Block)
    requires Keyed(s.blocks) && Linked(s.blocks) && Chained(s.blocks, s.chains) && ChainsInOrder(s.chains)
    requires Lineal(s.blocks) && b.hash !in s.blocks
    requires !b.kind.Open? ==> Head(s, b.accountPub).Some? && b.previousHash == Head(s, b.accountPub).value.hash
    ensures Lineal(s.blocks[b.hash := b])
  {
  }

  lemma AcceptedKeepsLineal(env: Env, s: Ledger, b: Block, now: int)
    requires Consistent(s) && ChainsInOrder(s.chains) && Lineal(s.blocks) && ClaimedOnce(s.blocks)
    requires Judge(env, s, b, now).Accepted? && CreatedIn(env, s, b)
    ensures Lineal(s.blocks[b.hash := b]) && ClaimedOnce(s.blocks[b.hash := b])
  {
    CreatedFollowsHead(env, s, b);
    FollowingHeadIsLineal(s, b);
    ClaimedOnceAfter(s.blocks, b);
  }

  lemma StepKeepsLineal(env: Env, s: Ledger, e: Event)
    requires Consistent(s) && ChainsInOrder(s.chains) && Lineal(s.blocks) && ClaimedOnce(s.blocks)
    requires e.Submit? && Judge(env, s, e.block, e.now).Accepted? ==> CreatedIn(env, s, e.block)
    ensures Lineal(LedgerStep(env, s, e).blocks) && ClaimedOnce(LedgerStep(env, s, e).blocks)
  {
    if e.Submit? && Judge(env, s, e.block, e.now).Accepted? {
      AcceptedKeepsLineal(env, s, e.block, e.now);
    } else {
      QuietStep(env, s, e);
    }
  }

  lemma {:induction false} CreatorRunIsLineal(env: Env, es: seq<Event>)
    requires AppendOnly(env, es) && CreatorRun(env, es)
    ensures Lineal(Run(env, es).ledger.blocks) && ClaimedOnce(Run(env, es).ledger.blocks)
  {
    if es != [] {
      LastStep(env, es);
      CreatorRunIsLineal(env, es[..|es| - 1]);
      AppendOnlyConsistent(env, es[..|es| - 1]);
      LinealRunInOrder(env, es[..|es| - 1]);
      StepKeepsLineal(env, Run(env, es[..|es| - 1]).ledger, es[|es| - 1]);
    }
  }

  // Runs in which every block is created in the state that accepts it conserve the supply outright.
  lemma CreatorRunsConserveSupply(env: Env, es: seq<Event>)
    requires AppendOnly(env, es) && CreatorRun(env, es)
    ensures Supply(Run(env, es).ledger) == Minted(Run(env, es).ledger)
  {
    CreatorRunIsLineal(env, es);
    SupplyConserved(env, es);
  }

  // ----- Rewards of created blocks -------------------------------------------------------------

  ghost predicate RewardedOnce(chain: seq<Block>) {
    forall i, j :: 0 <= i < j < |chain| && chain[i].kind.StorageReward? && chain[j].kind.StorageReward? ==>
      RewardEpoch(chain[i]) != RewardEpoch(chain[j])
  }

  // The scan finds every stored reward of the epoch.
  lemma RewardFound(chain: seq<Block>, i: nat)
    requires i < |chain| && chain[i].kind.StorageReward? && PayloadComplete(chain[i])
    ensures RewardInChain(chain, RewardEpoch(chain[i]))
  {
    assert chain[i] in chain;
  }

  lemma CreatedRewardIsNew(env: Env, s: Ledger, b: Block)
    requires CreatedIn(env, s, b) && b.kind.StorageReward?
    ensures !RewardInChain(Chain(s, b.accountPub), RewardEpoch(b))
  {
  }

  lemma OneMoreRewardedOnce(chain: seq<Block>, b: Block)
    requires RewardedOnce(chain) && forall i :: 0 <= i < |chain| ==> PayloadComplete(chain[i])
    requires b.kind.StorageReward? ==> !RewardInChain(chain, RewardEpoch(b))
    ensures RewardedOnce(chain + [b])
  {
    if b.kind.StorageReward? {
      forall i | 0 <= i < |chain| && chain[i].kind.StorageReward?
        ensures RewardEpoch(chain[i]) != RewardEpoch(b)
      {
        RewardFound(chain, i);
      }
    }
  }

  lemma ChainComplete(s: Ledger, p: Pub)
    requires ChainsStored(s.blocks, s.chains) && BlocksValid(s.blocks)
    ensures forall i :: 0 <= i < |Chain(s, p)| ==> PayloadComplete(Chain(s, p)[i])
  {
    assert p in s.chains ==> ChainOf(s.blocks, p, s.chains[p]);
  }

  lemma StepKeepsRewardedOnce(env: Env, s: Ledger, e: Event, p: Pub)
    requires ChainsStored(s.blocks, s.chains) && BlocksValid(s.blocks) && RewardedOnce(Chain(s, p))
    requires e.Submit? && Judge(env, s, e.block, e.now).Accepted? ==> CreatedIn(env, s, e.block)
    ensures RewardedOnce(Chain(LedgerStep(env, s, e), p))
  {
    if e.Submit? && Judge(env, s, e.block, e.now).Accepted? && e.block.accountPub == p {
      ChainComplete(s, p);
      if e.block.kind.StorageReward? {
        CreatedRewardIsNew(env, s, e.block);
      }
      OneMoreRewardedOnce(Chain(s, p), e.block);
      assert Chain(Store(s, e.block), p) == Chain(s, p) + [e.block];
    } else {
      OtherChain(env, s, e, p);
    }
  }

  lemma OtherChain(env: Env, s: Ledger, e: Event, p: Pub)
    requires !(e.Submit? && Judge(env, s, e.block, e.now).Accepted? && e.block.accountPub == p)
    ensures Chain(LedgerStep(env, s, e), p) == Chain(s, p)
  {
  }

  // In append-only runs of created blocks no account holds two rewards for one epoch, whatever it registers and
  // deregisters: the scan of the create function sees what the profile has forgotten.
  lemma {:induction false} CreatorRunRewardsOnce(env: Env, es: seq<Event>, p: Pub)
    requires AppendOnly(env, es) && CreatorRun(env, es)
    ensures RewardedOnce(Chain(Run(env, es).ledger, p))
  {
    if es != [] {
      LastStep(env, es);
      CreatorRunRewardsOnce(env, es[..|es| - 1], p);
      EveryRunHealthy(env, es[..|es| - 1]);
      StepKeepsRewardedOnce(env, Run(env, es[..|es| - 1]).ledger, es[|es| - 1], p);
    }
  }
}
