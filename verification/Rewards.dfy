// Proof-of-uptime: the heartbeat index, the spacing of heartbeats, and the storage rewards they allow.
module Rewards {
  import opened Basics
  import opened DagBlock
  import opened LedgerState
  import opened Nodes
  import opened Consistency
  import Votes

  const MIN_GAP := 14_340_000

  // ----- The index and the chain scan ----------------------------------------------------------

  predicate BeatsIn(b: Block, epoch: int) {
    b.kind.StorageHeartbeat? && b.timestamp / 86_400_000 == epoch
  }

  // The heartbeat blocks of an epoch, counted along a chain.
  function CountInEpoch(chain: seq<Block>, epoch: int): nat {
    if chain == [] then 0
    else CountInEpoch(chain[..|chain| - 1], epoch) + if BeatsIn(chain[|chain| - 1], epoch) then 1 else 0
  }

  lemma {:induction false} IndexCounts(chain: seq<Block>, epoch: int)
    ensures Lookup(HeartbeatIndex(chain), epoch).GetOr(0) == CountInEpoch(chain, epoch)
  {
    if chain != [] {
      IndexCounts(chain[..|chain| - 1], epoch);
    }
  }

  // In append-only runs the index equals the scan.
  lemma IndexEqualsScan(env: Env, es: seq<Event>, pub: Pub, epoch: int)
    requires AppendOnly(env, es)
    ensures HeartbeatsInEpoch(Run(env, es).ledger, pub, epoch) == CountInEpoch(Chain(Run(env, es).ledger, pub), epoch)
  {
    AppendOnlyConsistent(env, es);
    var s := Run(env, es).ledger;
    assert Lookup(s.heartbeats, pub).GetOr(map[]) == HeartbeatIndex(Chain(s, pub));
    IndexCounts(Chain(s, pub), epoch);
  }

  ghost predicate IndexCovers(s: Ledger) {
    forall p, e :: CountInEpoch(Chain(s, p), e) <= HeartbeatsInEpoch(s, p, e)
  }

  lemma {:induction false} CountSplits(a: seq<Block>, b: seq<Block>, epoch: int)
    ensures CountInEpoch(a + b, epoch) == CountInEpoch(a, epoch) + CountInEpoch(b, epoch)
  {
    if b == [] {
      assert a + b == a;
    } else {
      CountSplits(a, b[..|b| - 1], epoch);
      assert (a + b)[..|a + b| - 1] == a + b[..|b| - 1];
    }
  }

  lemma SuffixCount(chain: seq<Block>, cut: nat, epoch: int)
    requires cut <= |chain|
    ensures CountInEpoch(chain[cut..], epoch) <= CountInEpoch(chain, epoch)
  {
    assert chain == chain[..cut] + chain[cut..];
    CountSplits(chain[..cut], chain[cut..], epoch);
  }

  lemma {:induction false} CountAfterRemoval(chain: seq<Block>, h: Hash, epoch: int)
    ensures CountInEpoch(RemoveHash(chain, h), epoch) <= CountInEpoch(chain, epoch)
  {
    if chain != [] {
      assert chain == [chain[0]] + chain[1..];
      CountSplits([chain[0]], chain[1..], epoch);
      if chain[0].hash != h {
        CountAfterRemoval(chain[1..], h, epoch);
        CountSplits([chain[0]], RemoveHash(chain[1..], h), epoch);
      }
    }
  }

  lemma OneMoreCounted(s: Ledger, b: Block, p: Pub, epoch: int)
    ensures var more := if p == b.accountPub && BeatsIn(b, epoch) then 1 else 0;
            && CountInEpoch(Chain(Store(s, b), p), epoch) == CountInEpoch(Chain(s, p), epoch) + more
            && HeartbeatsInEpoch(Store(s, b), p, epoch) == HeartbeatsInEpoch(s, p, epoch) + more
  {
    assert Chain(Store(s, b), p) == if p == b.accountPub then Chain(s, p) + [b] else Chain(s, p);
    if p == b.accountPub {
      assert (Chain(s, p) + [b])[..|Chain(s, p)|] == Chain(s, p);
    }
    OneMoreIndexed(s, b, p, epoch);
  }

  lemma OneMoreIndexed(s: Ledger, b: Block, p: Pub, epoch: int)
    ensures HeartbeatsInEpoch(Store(s, b), p, epoch) == HeartbeatsInEpoch(s, p, epoch) + if p == b.accountPub && BeatsIn(b, epoch) then 1 else 0
  {
  }

  lemma StoreCovers(s: Ledger, b: Block)
    requires IndexCovers(s)
    ensures IndexCovers(Store(s, b))
  {
    var t := Store(s, b);
    forall p, e
      ensures CountInEpoch(Chain(t, p), e) <= HeartbeatsInEpoch(t, p, e)
    {
      OneMoreCounted(s, b, p, e);
      assert CountInEpoch(Chain(s, p), e) <= HeartbeatsInEpoch(s, p, e);
    }
  }

  lemma PruneCovers(s: Ledger, pub: Pub)
    requires IndexCovers(s)
    ensures IndexCovers(Prune(s, pub))
  {
    var t := Prune(s, pub);
    forall p, e
      ensures CountInEpoch(Chain(t, p), e) <= HeartbeatsInEpoch(t, p, e)
    {
      var chain := Chain(s, p);
      assert CountInEpoch(chain, e) <= HeartbeatsInEpoch(s, p, e) == HeartbeatsInEpoch(t, p, e);
      if Chain(t, p) != chain {
        SuffixCount(chain, |chain| - MAX_CHAIN_MEMORY, e);
      }
    }
  }

  lemma RejectCovers(s: Ledger, h: Hash)
    requires IndexCovers(s)
    ensures IndexCovers(Reject(s, h))
  {
    var t := Reject(s, h);
    forall p, e
      ensures CountInEpoch(Chain(t, p), e) <= HeartbeatsInEpoch(t, p, e)
    {
      assert CountInEpoch(Chain(s, p), e) <= HeartbeatsInEpoch(s, p, e);
      CountAfterRemoval(Chain(s, p), h, e);
      assert Chain(t, p) == Chain(s, p) || Chain(t, p) == RemoveHash(Chain(s, p), h);
    }
  }

  lemma {:induction false} RejectAllCovers(s: Ledger, hs: seq<Hash>)
    requires IndexCovers(s)
    ensures IndexCovers(RejectAll(s, hs))
  {
    if hs != [] {
      RejectAllCovers(s, hs[..|hs| - 1]);
      RejectCovers(RejectAll(s, hs[..|hs| - 1]), hs[|hs| - 1]);
    }
  }

  lemma AddCovers(env: Env, s: Ledger, b: Block, now: int)
    requires IndexCovers(s)
    ensures IndexCovers(AddBlock(env, s, b, now))
  {
    StoreCovers(s, b);
    PruneCovers(Store(s, b), b.accountPub);
  }

  lemma SameCovers(s: Ledger, t: Ledger)
    requires IndexCovers(s) && t.chains == s.chains && t.heartbeats == s.heartbeats
    ensures IndexCovers(t)
  {
    forall p, e
      ensures CountInEpoch(Chain(t, p), e) <= HeartbeatsInEpoch(t, p, e)
    {
      assert Chain(t, p) == Chain(s, p) && HeartbeatsInEpoch(t, p, e) == HeartbeatsInEpoch(s, p, e);
      assert CountInEpoch(Chain(s, p), e) <= HeartbeatsInEpoch(s, p, e);
    }
  }

  lemma EnrollCovers(s: Ledger, pub: Pub, account: Account)
    requires IndexCovers(s)
    ensures IndexCovers(RegisterAccount(s, pub, account))
  {
    SameCovers(s, RegisterAccount(s, pub, account));
  }

  // In every run, with rejections and pruning, the index is never below the scan.
  lemma {:induction false} IndexNeverBelowScan(env: Env, es: seq<Event>)
    ensures IndexCovers(Run(env, es).ledger)
  {
    if es != [] {
      var n := Run(env, es[..|es| - 1]);
      IndexNeverBelowScan(env, es[..|es| - 1]);
      match es[|es| - 1]
      case Submit(b, now) => AddCovers(env, n.ledger, b, now);
      case Enroll(pub, account) => EnrollCovers(n.ledger, pub, account);
      case Cast(vote, now) =>
      case Process(now) => RejectAllCovers(n.ledger, Votes.ResolveConflicts(n.votes, now).rejected);
    }
  }

  // ----- Capacity at epoch start ---------------------------------------------------------------

  function DatedBefore(chain: seq<Block>, time: int): seq<Block> {
    if chain == [] then []
    else DatedBefore(chain[..|chain| - 1], time) + if chain[|chain| - 1].timestamp < time then [chain[|chain| - 1]] else []
  }

  // Blocks dated at or after the epoch start cannot change the capacity.
  lemma {:induction false} CapacityIgnoresLaterBlocks(chain: seq<Block>, time: int)
    ensures CapacityBefore(chain, time) == CapacityBefore(DatedBefore(chain, time), time)
  {
    if chain != [] {
      var init, b := chain[..|chain| - 1], chain[|chain| - 1];
      CapacityIgnoresLaterBlocks(init, time);
      if b.timestamp < time {
        assert DatedBefore(chain, time)[..|DatedBefore(chain, time)| - 1] == DatedBefore(init, time);
      } else {
        assert DatedBefore(chain, time) == DatedBefore(init, time);
      }
    }
  }

  lemma {:induction false} CapacityNotNegative(chain: seq<Block>, time: int)
    requires forall i :: 0 <= i < |chain| ==> PayloadComplete(chain[i])
    ensures CapacityBefore(chain, time) >= 0.0
  {
    if chain != [] {
      CapacityNotNegative(chain[..|chain| - 1], time);
      assert PayloadComplete(chain[|chain| - 1]);
    }
  }

  // The capacity in a provider's profile is what the scan finds when it looks at the whole chain.
  lemma {:induction false} ProfileCapacityIsScan(chain: seq<Block>, time: int)
    requires forall i :: 0 <= i < |chain| ==> PayloadComplete(chain[i]) && chain[i].timestamp < time
    ensures CapacityBefore(chain, time) == if ProviderOf(chain).Some? then ProviderOf(chain).value.capacityGB else 0.0
    ensures ProviderOf(chain).Some? ==> ProviderOf(chain).value.capacityGB > 0.0
  {
    if chain != [] {
      ProfileCapacityIsScan(chain[..|chain| - 1], time);
      assert PayloadComplete(chain[|chain| - 1]);
    }
  }

  // No reward exceeds the base rate on the capacity at epoch start.
  lemma RewardBelowCapacity(chain: seq<Block>, epoch: int, heartbeats: nat)
    requires CapacityAtEpochStart(chain, epoch) >= 0.0
    ensures MaxReward(EffectiveGB(chain, epoch), heartbeats) <=
            (BASE_STORAGE_RATE_MILLI as real * CapacityAtEpochStart(chain, epoch)).Floor
  {
    RewardUpTo(EffectiveGB(chain, epoch), CapacityAtEpochStart(chain, epoch), heartbeats);
  }

  lemma RewardUpTo(gb: real, capacity: real, heartbeats: nat)
    requires 0.0 <= gb <= capacity
    ensures MaxReward(gb, heartbeats) <= (BASE_STORAGE_RATE_MILLI as real * capacity).Floor
  {
    var uptime := MinReal(heartbeats as real / MAX_HEARTBEATS_PER_DAY as real, 1.0);
    var full := BASE_STORAGE_RATE_MILLI as real * gb;
    assert MaxReward(gb, heartbeats) == (full * uptime).Floor;
    assert 0.0 <= full <= BASE_STORAGE_RATE_MILLI as real * capacity;
    ScaleDown(full, uptime);
    FloorGrows(full * uptime, BASE_STORAGE_RATE_MILLI as real * capacity);
  }

  lemma FloorGrows(x: real, y: real)
    requires x <= y
    ensures x.Floor <= y.Floor
  {
  }

  lemma ScaleDown(x: real, u: real)
    requires x >= 0.0 && u <= 1.0
    ensures x * u <= x
  {
    assert x * (1.0 - u) >= 0.0;
  }
}
