// src/core/dag-ledger.ts, class DAGLedger, updated in place.
module DagLedger {
  import opened Basics
  import opened DagBlock
  import opened LedgerState
  import opened Votes
  import opened Nodes
  import opened Creators
  import Health
  import VM = VoteManager

  lemma WithoutEach(order: seq<Hash>, gone: set<Hash>, h: Hash)
    ensures Without(Without(order, gone), {h}) == Without(order, gone + {h})
  {
  }

  lemma WithoutNone(order: seq<Hash>)
    ensures Without(order, {}) == order
  {
  }

  // The reward block that is made when nothing objects.
  lemma RewardMade(env: Env, s: Ledger, pub: Pub, keys: KeyPair, now: int)
    requires Objection(s, pub, ToReward, now).None?
    ensures var epoch := EpochDay(now);
            var head, amount := Head(s, pub).value, RewardToday(s, pub, epoch);
            var data := NO_DATA.(epochDay := Some(epoch), storedGB := Some(EffectiveGB(Chain(s, pub), epoch)), amount := Some(amount),
                                 heartbeatCount := Some(HeartbeatsInEpoch(s, pub, epoch)));
            var draft := Draft(pub, head.index + 1, StorageReward, head.hash, head.balance + amount);
            Create(env, s, pub, ToReward, keys, now) == Made(Sealed(env, draft.(contractData := Some(data)), keys, now))
  {
  }

  class DAGLedger {
    const env: Env
    const votes: VM.VoteManager
    var allBlocks: map<Hash, Block>
    var blockOrder: seq<Hash>
    var accountChains: map<Pub, seq<Block>>
    var unclaimedSends: map<Hash, UnclaimedSend>
    var contracts: map<Hash, Contract>
    var storageProviders: map<Pub, Provider>
    var heartbeatsByEpoch: map<Pub, map<int, nat>>
    var accounts: map<Pub, Account>

    ghost function Books(): Ledger
      reads this
    {
      Ledger(allBlocks, blockOrder, accountChains, unclaimedSends, contracts, storageProviders, heartbeatsByEpoch, accounts)
    }

    ghost function State(): Node
      reads this, votes
    {
      Node(Books(), votes.State())
    }

    constructor (env: Env)
      ensures this.env == env && fresh(votes) && State() == GENESIS
    {
      this.env := env;
      votes := new VM.VoteManager();
      allBlocks, blockOrder, accountChains, unclaimedSends := map[], [], map[], map[];
      contracts, storageProviders, heartbeatsByEpoch, accounts := map[], map[], map[], map[];
    }

    // ----- Queries -----------------------------------------------------------------------------

    // The backward scan with early exit: it stops at the newest register or deregister block dated before the epoch.
    method GetCapacityAtEpochStart(pub: Pub, epochDay: int) returns (capacity: real)
      ensures capacity == CapacityAtEpochStart(Chain(Books(), pub), epochDay)
    {
      var chain := if pub in accountChains then accountChains[pub] else [];
      var epochStart := epochDay * REWARD_EPOCH_MS;
      capacity := 0.0;
      var i := |chain| - 1;
      assert chain[..i + 1] == chain;
      while i >= 0
        invariant -1 <= i < |chain| && capacity == 0.0
        invariant CapacityBefore(chain, epochStart) == CapacityBefore(chain[..i + 1], epochStart)
      {
        var b := chain[i];
        ghost var prefix := chain[..i + 1];
        assert prefix[|prefix| - 1] == b && prefix[..|prefix| - 1] == chain[..i];
        if b.timestamp < epochStart {
          if b.kind.StorageDeregister? { return 0.0; }
          if b.kind.StorageRegister? && b.contractData.Some? {
            match b.contractData.value {
              case Json(_, _, capacityGB, _, _, _, _, _, _, _, _) => capacity := capacityGB.GetOr(0.0);
              case BadJson =>
            }
            return;
          }
        }
        i := i - 1;
      }
    }

    method GetActualStoredGBInEpoch(pub: Pub, epochDay: int) returns (gb: real)
      ensures gb == ActualStoredGB(Chain(Books(), pub), epochDay)
    {
      var chain := if pub in accountChains then accountChains[pub] else [];
      var epochStart := epochDay * REWARD_EPOCH_MS;
      var epochEnd := epochStart + REWARD_EPOCH_MS;
      var latestBytes, latestTimestamp := 0.0, 0;
      for i := 0 to |chain|
        invariant (latestBytes, latestTimestamp) == LatestReport(chain[..i], epochDay)
      {
        assert chain[..i + 1][..i] == chain[..i];
        var b := chain[i];
        if b.kind.StorageHeartbeat? && epochStart <= b.timestamp < epochEnd {
          match b.contractData
          case Some(Json(_, _, _, _, _, bytes, _, _, _, _, _)) =>
            if bytes.Some? && b.timestamp > latestTimestamp {
              latestBytes, latestTimestamp := bytes.value, b.timestamp;
            }
          case _ =>
        }
      }
      assert chain[..|chain|] == chain;
      gb := latestBytes / (GB_BYTES as real);
    }

    method CountValidCredentials(block: Block) returns (validCount: nat)
      ensures validCount == ValidCredentials(env, block.relayCredentials, block.faceMapHash)
    {
      var creds := block.relayCredentials;
      validCount := 0;
      for i := 0 to |creds|
        invariant validCount == ValidCredentials(env, creds[..i], block.faceMapHash)
      {
        assert creds[..i + 1][..i] == creds[..i];
        var result := env.verify(creds[i].sig, creds[i].relayPub);
        if result.Some? && result == block.faceMapHash { validCount := validCount + 1; }
      }
      assert creds[..|creds|] == creds;
    }

    method GetEffectiveGB(pub: Pub, epochDay: int, capacity: real) returns (effective: real)
      requires capacity == CapacityAtEpochStart(Chain(Books(), pub), epochDay)
      ensures effective == EffectiveGB(Chain(Books(), pub), epochDay)
    {
      var actual := GetActualStoredGBInEpoch(pub, epochDay);
      effective := if actual > 0.0 then MinReal(actual, capacity) else capacity;
    }

    method ValidateStorageReward(block: Block) returns (refusal: Option<Refusal>)
      ensures refusal == ValidateReward(Books(), block)
    {
      var pub, epoch := block.accountPub, RewardEpoch(block);
      if pub !in storageProviders || storageProviders[pub].capacityGB == 0.0 { return Some(NotAProvider); }
      if storageProviders[pub].lastRewardEpoch >= epoch { return Some(EpochAlreadyRewarded); }
      var capacity := GetCapacityAtEpochStart(pub, epoch);
      if capacity == 0.0 { return Some(NotRegisteredAtEpochStart); }
      var heartbeats := HeartbeatsInEpochNow(pub, epoch);
      if heartbeats == 0 { return Some(NoHeartbeats); }
      var effective := GetEffectiveGB(pub, epoch, capacity);
      if RewardStoredGB(block) > effective + 0.000000001 { return Some(StoredGBTooLarge); }
      if RewardAmount(block) > MaxReward(effective, heartbeats) { return Some(RewardTooLarge); }
      return None;
    }

    method HeartbeatsInEpochNow(pub: Pub, epochDay: int) returns (count: nat)
      ensures count == HeartbeatsInEpoch(Books(), pub, epochDay)
    {
      if pub !in heartbeatsByEpoch || epochDay !in heartbeatsByEpoch[pub] { return 0; }
      return heartbeatsByEpoch[pub][epochDay];
    }

    method CheckReceive(block: Block) returns (refusal: Option<Refusal>)
      ensures refusal == ValidateReceive(Books(), block)
    {
      var h := block.sendBlockHash.GetOr("");
      if h !in allBlocks { return Some(SendNotFound); }
      var sendBlock := allBlocks[h];
      if !sendBlock.kind.Send? { return Some(NotASend); }
      if sendBlock.recipient != Some(block.accountPub) { return Some(RecipientMismatch); }
      if sendBlock.amount != block.receiveAmount { return Some(ReceiveAmountMismatch); }
      return None;
    }

    method CheckHeartbeat(block: Block, now: int) returns (refusal: Option<Refusal>)
      ensures refusal == ValidateHeartbeat(Books(), block, now)
    {
      var pub := block.accountPub;
      if pub !in storageProviders || storageProviders[pub].capacityGB == 0.0 { return Some(NotAProvider); }
      var last := storageProviders[pub].lastHeartbeat;
      if last > 0 && block.timestamp - last < HEARTBEAT_INTERVAL_MS - 60_000 { return Some(HeartbeatTooSoon); }
      if block.timestamp > now + 600_000 { return Some(TimestampInFuture); }
      return None;
    }

    // The checks of addBlock up to the call of the vote manager.
    method CheckBlock(block: Block, now: int) returns (refusal: Option<Refusal>)
      ensures refusal == Validate(env, Books(), block, now)
    {
      if env.digest(HashInput(block)) != block.hash { return Some(HashMismatch); }
      var pqPub := if block.accountPub in accounts then accounts[block.accountPub].pqPub else None;
      if !SignatureValid(env, block, pqPub) { return Some(InvalidSignature); }
      var parent := if block.kind.Open? || block.previousHash !in allBlocks then None else Some(allBlocks[block.previousHash]);
      refusal := ValidateBlockStructure(block, parent);
      if refusal.Some? { return; }
      match block.kind
      case Receive =>
        refusal := CheckReceive(block);
      case StorageReward =>
        refusal := ValidateStorageReward(block);
      case StorageHeartbeat =>
        refusal := CheckHeartbeat(block, now);
      case Open =>
        var validCount := CountValidCredentials(block);
        if validCount < MinCredentials(env) { return Some(TooFewCredentials); }
      case _ =>
    }

    // ----- Changes -----------------------------------------------------------------------------

    method AddBlock(block: Block, now: int) returns (verdict: Verdict)
      modifies this, votes
      ensures verdict == Judge(env, old(Books()), block, now)
      ensures State() == SubmitBlock(env, old(State()), block, now)
    {
      if block.hash in allBlocks { return AlreadyStored; }
      var refusal := CheckBlock(block, now);
      if refusal.Some? { return Refused(refusal.value); }
      var voteResult := votes.RegisterBlock(block.hash, block.previousHash, block.accountPub, now);
      if block.kind.Open? && block.accountPub in accountChains { return Refused(AlreadyOpen); }
      StoreBlock(block);
      PruneAccountChain(block.accountPub);
      return Accepted;
    }

    // The updates of addBlock for an accepted block.
    method StoreBlock(block: Block)
      modifies this
      ensures Books() == Store(old(Books()), block)
    {
      AppendBlock(block);
      UpdateUnclaimed(block);
      DeployContract(block);
      UpdateProvider(block);
      IndexHeartbeat(block);
      UpdateAccount(block);
    }

    method AppendBlock(block: Block)
      modifies this`allBlocks, this`blockOrder, this`accountChains
      ensures allBlocks == old(allBlocks)[block.hash := block] && blockOrder == old(blockOrder) + [block.hash]
      ensures accountChains == old(accountChains)[block.accountPub := Chain(old(Books()), block.accountPub) + [block]]
    {
      var pub := block.accountPub;
      allBlocks, blockOrder := allBlocks[block.hash := block], blockOrder + [block.hash];
      if pub !in accountChains { accountChains := accountChains[pub := []]; }
      accountChains := accountChains[pub := accountChains[pub] + [block]];
    }

    method DeployContract(block: Block)
      modifies this`contracts
      ensures contracts == if Deploys(block) then old(contracts)[block.hash := ContractOf(block)] else old(contracts)
    {
      if Deploys(block) {
        contracts := contracts[block.hash := ContractOf(block)];
      }
    }

    method UpdateUnclaimed(block: Block)
      modifies this`unclaimedSends
      ensures unclaimedSends == UnclaimedAfter(old(unclaimedSends), block)
    {
      if block.kind.Send? && Given(block.recipient) && block.amount.Some? && block.amount.value != 0 {
        unclaimedSends := unclaimedSends[block.hash := UnclaimedSend(block.accountPub, block.recipient.value, block.amount.value)];
      }
      if block.kind.Receive? && Given(block.sendBlockHash) {
        unclaimedSends := unclaimedSends - {block.sendBlockHash.value};
      }
    }

    method IndexHeartbeat(block: Block)
      modifies this`heartbeatsByEpoch
      ensures heartbeatsByEpoch ==
              if block.kind.StorageHeartbeat? then
                old(heartbeatsByEpoch)[block.accountPub :=
                  HeartbeatsAfter(Lookup(old(heartbeatsByEpoch), block.accountPub).GetOr(map[]), block)]
              else old(heartbeatsByEpoch)
    {
      if block.kind.StorageHeartbeat? {
        var pub, epochDay := block.accountPub, block.timestamp / REWARD_EPOCH_MS;
        var byEpoch := if pub in heartbeatsByEpoch then heartbeatsByEpoch[pub] else map[];
        var count := if epochDay in byEpoch then byEpoch[epochDay] else 0;
        heartbeatsByEpoch := heartbeatsByEpoch[pub := byEpoch[epochDay := count + 1]];
      }
    }

    method UpdateProvider(block: Block)
      modifies this`storageProviders
      ensures storageProviders ==
              Put(old(storageProviders), block.accountPub, ProviderAfter(Lookup(old(storageProviders), block.accountPub), block))
    {
      var pub := block.accountPub;
      var known := pub in storageProviders;
      match block.kind
      case StorageRegister =>
        match block.contractData {
          case Some(Json(_, _, capacityGB, deviceId, _, _, _, _, _, _, _)) =>
            var blank := Provider("", block.timestamp, 0.0, 0.0, 0, 0, 0, None, None);
            var existing := if known then storageProviders[pub] else blank;
            storageProviders := storageProviders[pub := existing.(
              deviceId := if deviceId.Some? then deviceId.value else existing.deviceId,
              capacityGB := capacityGB.GetOr(0.0), smokeAddr := None, countryCode := None)];
          case _ =>
        }
      case StorageDeregister =>
        storageProviders := storageProviders - {pub};
      case StorageHeartbeat =>
        if known {
          var provider := storageProviders[pub].(lastHeartbeat := block.timestamp);
          match block.contractData {
            case Some(Json(_, _, _, _, smokeAddr, bytes, country, _, _, _, _)) =>
              if Given(smokeAddr) { provider := provider.(smokeAddr := smokeAddr); }
              if bytes.Some? { provider := provider.(lastActualStoredBytes := bytes.value); }
              if country.Some? && IsCountryCode(country.value) { provider := provider.(countryCode := country); }
            case _ =>
          }
          storageProviders := storageProviders[pub := provider];
        }
      case StorageReward =>
        if known && block.contractData.Some? && block.contractData.value.Json? {
          var provider := storageProviders[pub];
          storageProviders := storageProviders[pub := provider.(
            lastRewardEpoch := RewardEpoch(block), totalEarned := provider.totalEarned + RewardAmount(block))];
        }
      case _ =>
    }

    method UpdateAccount(block: Block)
      modifies this`accounts
      ensures var pub := block.accountPub;
              accounts == if pub in old(accounts) then old(accounts)[pub := AccountAfter(old(accounts)[pub], block)] else old(accounts)
    {
      var pub := block.accountPub;
      if pub in accounts {
        var acc := accounts[pub];
        if block.kind.Update? && block.updateData.Some? && block.updateData.value.Changes? && Given(block.updateData.value.newPQPub) {
          acc := acc.(pqPub := block.updateData.value.newPQPub);
        }
        accounts := accounts[pub := acc.(balance := block.balance, nonce := block.index)];
      }
    }

    method PruneAccountChain(pub: Pub)
      modifies this`allBlocks, this`blockOrder, this`accountChains
      ensures Books() == Prune(old(Books()), pub)
    {
      if pub !in accountChains || |accountChains[pub]| <= MAX_CHAIN_MEMORY { return; }
      var chain := accountChains[pub];
      var pruned := chain[..|chain| - MAX_CHAIN_MEMORY];
      accountChains := accountChains[pub := chain[|chain| - MAX_CHAIN_MEMORY..]];
      WithoutNone(blockOrder);
      assert Hashes(pruned[..0]) == {} && allBlocks - {} == allBlocks;
      for i := 0 to |pruned|
        invariant allBlocks == old(allBlocks) - Hashes(pruned[..i]) && blockOrder == Without(old(blockOrder), Hashes(pruned[..i]))
        invariant accountChains == old(accountChains)[pub := chain[|chain| - MAX_CHAIN_MEMORY..]]
      {
        assert pruned[..i + 1] == pruned[..i] + [pruned[i]];
        assert Hashes(pruned[..i + 1]) == Hashes(pruned[..i]) + {pruned[i].hash};
        WithoutEach(old(blockOrder), Hashes(pruned[..i]), pruned[i].hash);
        allBlocks, blockOrder := allBlocks - {pruned[i].hash}, Without(blockOrder, {pruned[i].hash});
      }
      assert pruned[..|pruned|] == pruned;
    }

    method HandleRejectedBlock(blockHash: Hash)
      modifies this`allBlocks, this`blockOrder, this`accountChains, this`unclaimedSends
      ensures Books() == Reject(old(Books()), blockHash)
    {
      if blockHash !in allBlocks { return; }
      var block := allBlocks[blockHash];
      if block.accountPub in accountChains {
        var chain := accountChains[block.accountPub];
        var idx := 0;
        while idx < |chain| && chain[idx].hash != blockHash
          invariant 0 <= idx <= |chain| && forall j :: 0 <= j < idx ==> chain[j].hash != blockHash
        {
          idx := idx + 1;
        }
        if idx < |chain| {
          Health.RemoveAt(chain, idx, blockHash);
          accountChains := accountChains[block.accountPub := chain[..idx] + chain[idx + 1..]];
        } else {
          Health.RemoveNothing(chain, blockHash);
          assert accountChains == accountChains[block.accountPub := chain];
        }
      }
      if block.kind.Receive? && Given(block.sendBlockHash) && block.sendBlockHash.value in allBlocks {
        var sendBlock := allBlocks[block.sendBlockHash.value];
        if sendBlock.kind.Send? && Given(sendBlock.recipient) && sendBlock.amount.Some? && sendBlock.amount.value != 0 {
          unclaimedSends := unclaimedSends[block.sendBlockHash.value :=
            UnclaimedSend(sendBlock.accountPub, sendBlock.recipient.value, sendBlock.amount.value)];
        }
      }
      allBlocks, blockOrder := allBlocks - {blockHash}, Without(blockOrder, {blockHash});
    }

    // ----- Block creation ----------------------------------------------------------------------

    method GetAccountHead(pub: Pub) returns (head: Option<Block>)
      ensures head == Head(Books(), pub)
    {
      if pub !in accountChains || accountChains[pub] == [] { return None; }
      return Some(accountChains[pub][|accountChains[pub]| - 1]);
    }

    method OpenAccount(pub: Pub, faceMapHash: string, credentials: seq<RelayCredential>, keys: KeyPair, now: int)
      returns (result: Option<Block>)
      modifies this, votes
      ensures var b := Create(env, old(Books()), pub, ToOpen(faceMapHash, credentials), keys, now).block;
              && State() == SubmitBlock(env, old(State()), b, now)
              && result == if Judge(env, old(Books()), b, now).Refused? then None else Some(b)
    {
      var draft := Draft(pub, 0, Open, ZERO_HASH, VERIFICATION_MINT_AMOUNT);
      var block := Sealed(env, draft.(faceMapHash := Some(faceMapHash), relayCredentials := credentials), keys, now);
      var verdict := AddBlock(block, now);
      return if verdict.Refused? then None else Some(block);
    }

    method CreateSend(senderPub: Pub, recipientPub: Option<Pub>, amount: int, keys: KeyPair, now: int) returns (created: Created)
      ensures created == Create(env, Books(), senderPub, ToSend(recipientPub, amount), keys, now)
    {
      if !Given(recipientPub) { return NotMade(RecipientNotFound); }
      var head := GetAccountHead(senderPub);
      if head.None? { return NotMade(NotOpened); }
      if head.value.balance < amount { return NotMade(TooPoor); }
      if amount <= 0 { return NotMade(AmountNotPositive); }
      var draft := Draft(senderPub, head.value.index + 1, Send, head.value.hash, head.value.balance - amount);
      return Made(Sealed(env, draft.(recipient := recipientPub, amount := Some(amount)), keys, now));
    }

    method CreateReceive(recipientPub: Pub, sendBlockHash: Hash, keys: KeyPair, now: int) returns (created: Created)
      ensures created == Create(env, Books(), recipientPub, ToReceive(sendBlockHash), keys, now)
    {
      if sendBlockHash !in unclaimedSends { return NotMade(NothingToClaim); }
      var unclaimed := unclaimedSends[sendBlockHash];
      if unclaimed.toPub != recipientPub { return NotMade(NotAddressedToYou); }
      var head := GetAccountHead(recipientPub);
      if head.None? { return NotMade(NotOpened); }
      var draft := Draft(recipientPub, head.value.index + 1, Receive, head.value.hash, head.value.balance + unclaimed.amount);
      return Made(Sealed(env, draft.(sendBlockHash := Some(sendBlockHash), sendFrom := Some(unclaimed.fromPub),
                                     receiveAmount := Some(unclaimed.amount)), keys, now));
    }

    method CreateStorageHeartbeat(pub: Pub, smokeAddr: Option<string>, actualStoredBytes: Option<real>,
                                  countryCode: Option<string>, keys: KeyPair, now: int) returns (created: Created)
      ensures created == Create(env, Books(), pub, ToHeartbeat(smokeAddr, actualStoredBytes, countryCode), keys, now)
    {
      if pub !in storageProviders || storageProviders[pub].capacityGB == 0.0 { return NotMade(NotAProviderYet); }
      var last := storageProviders[pub].lastHeartbeat;
      if last > 0 && now - last < HEARTBEAT_INTERVAL_MS - 60_000 { return NotMade(IntervalNotReached); }
      var head := GetAccountHead(pub);
      if head.None? { return NotMade(NotOpened); }
      var draft := Draft(pub, head.value.index + 1, StorageHeartbeat, head.value.hash, head.value.balance);
      var data := NO_DATA.(smokeAddr := smokeAddr, actualStoredBytes := actualStoredBytes, countryCode := countryCode);
      return Made(Sealed(env, draft.(contractData := Some(data)), keys, now));
    }

    method CreateStorageReward(pub: Pub, keys: KeyPair, now: int) returns (created: Created)
      ensures created == Create(env, Books(), pub, ToReward, keys, now)
    {
      if pub !in storageProviders || storageProviders[pub].capacityGB == 0.0 { return NotMade(NotAProviderYet); }
      var epochDay := now / REWARD_EPOCH_MS;
      if storageProviders[pub].lastRewardEpoch >= epochDay { return NotMade(ClaimedToday); }
      var chain := if pub in accountChains then accountChains[pub] else [];
      if RewardInChain(chain, epochDay) { return NotMade(RewardInChainToday); }
      var capacity := GetCapacityAtEpochStart(pub, epochDay);
      if capacity == 0.0 { return NotMade(NotRegisteredInTime); }
      var heartbeats := HeartbeatsInEpochNow(pub, epochDay);
      if heartbeats == 0 { return NotMade(NoHeartbeatsToday); }
      var effective := GetEffectiveGB(pub, epochDay, capacity);
      var amount := MaxReward(effective, heartbeats);
      if amount <= 0 { return NotMade(RewardIsZero); }
      var head := GetAccountHead(pub);
      if head.None? { return NotMade(NotOpened); }
      RewardMade(env, Books(), pub, keys, now);
      var draft := Draft(pub, head.value.index + 1, StorageReward, head.value.hash, head.value.balance + amount);
      var data := NO_DATA.(epochDay := Some(epochDay), storedGB := Some(effective), amount := Some(amount),
                           heartbeatCount := Some(heartbeats));
      return Made(Sealed(env, draft.(contractData := Some(data)), keys, now));
    }

    method RegisterAccount(pub: Pub, account: Account)
      modifies this`accounts
      ensures Books() == LedgerState.RegisterAccount(old(Books()), pub, account)
    {
      if pub in accounts {
        if Given(account.pqPub) && !Given(accounts[pub].pqPub) {
          accounts := accounts[pub := accounts[pub].(pqPub := account.pqPub)];
        }
        return;
      }
      accounts := accounts[pub := account];
    }

    method CastVote(vote: Vote, now: int)
      modifies votes
      ensures State() == Nodes.CastVote(old(State()), vote, now)
    {
      var verifiedStake := 0;
      if Given(vote.chainHeadHash) {
        var head := vote.chainHeadHash.value;
        if head !in allBlocks {
          var chain := if vote.voterPub in accountChains then accountChains[vote.voterPub] else [];
          if chain != [] { verifiedStake := chain[|chain| - 1].balance; }
        } else if allBlocks[head].accountPub != vote.voterPub {
          return;
        } else {
          verifiedStake := allBlocks[head].balance;
        }
      }
      if verifiedStake <= 0 { return; }
      votes.AddVote(vote.(stake := verifiedStake), now);
    }

    method ProcessConflicts(now: int)
      modifies this, votes
      ensures State() == Nodes.ProcessConflicts(old(State()), now)
    {
      var confirmed, rejected := votes.ResolveConflicts(now);
      for i := 0 to |rejected|
        invariant Books() == RejectAll(old(Books()), rejected[..i])
        invariant votes.State() == Votes.ResolveConflicts(old(votes.State()), now).votes
      {
        assert rejected[..i + 1][..i] == rejected[..i];
        HandleRejectedBlock(rejected[i]);
      }
      assert rejected[..|rejected|] == rejected;
    }
  }
}
