// What every run keeps, with forks, rejections and pruning.
module Health {
  import opened DagBlock
  import opened LedgerState
  import opened Nodes
  import opened Consistency
  import Votes

  ghost predicate ChainsStored(blocks: map<Hash, Block>, chains: map<Pub, seq<Block>>) {
    forall p :: p in chains ==> ChainOf(blocks, p, chains[p])
  }

  ghost predicate BlocksValid(blocks: map<Hash, Block>) {
    forall h :: h in blocks ==> blocks[h].hash == h && PayloadComplete(blocks[h]) && SafeBalance(blocks[h].balance)
  }

  // An unclaimed entry whose send is stored describes that send.
  ghost predicate UnclaimedMatches(s: Ledger) {
    forall h :: h in s.unclaimed && h in s.blocks && s.blocks[h].kind.Send? ==> Describes(s.unclaimed[h], s.blocks[h])
  }

  ghost predicate Healthy(s: Ledger) {
    ChainsStored(s.blocks, s.chains) && BlocksValid(s.blocks) && UnclaimedMatches(s)
  }

  lemma StoreHealthy(s: Ledger, b: Block)
    requires Healthy(s) && b.hash !in s.blocks && PayloadComplete(b) && SafeBalance(b.balance)
    ensures Healthy(Store(s, b))
  {
    var t := Store(s, b);
    forall p | p in t.chains
      ensures ChainOf(t.blocks, p, t.chains[p])
    {
      assert p in s.chains ==> ChainOf(s.blocks, p, s.chains[p]);
      assert t.chains[p] == if p == b.accountPub then Chain(s, p) + [b] else s.chains[p];
    }
  }

  lemma PruneHealthy(s: Ledger, pub: Pub)
    requires Healthy(s)
    ensures Healthy(Prune(s, pub))
  {
    var chain := Chain(s, pub);
    if |chain| > MAX_CHAIN_MEMORY {
      var cut := |chain| - MAX_CHAIN_MEMORY;
      var gone := Hashes(chain[..cut]);
      var t := Prune(s, pub);
      assert ChainOf(s.blocks, pub, chain);
      forall p | p in t.chains
        ensures ChainOf(t.blocks, p, t.chains[p])
      {
        assert ChainOf(s.blocks, p, s.chains[p]);
        forall i | 0 <= i < |t.chains[p]|
          ensures t.chains[p][i].hash !in gone
        {
        }
      }
    }
  }

  lemma {:induction false} RemoveAt(chain: seq<Block>, i: nat, h: Hash)
    requires i < |chain| && chain[i].hash == h && forall j :: 0 <= j < i ==> chain[j].hash != h
    ensures RemoveHash(chain, h) == chain[..i] + chain[i + 1..]
  {
    if i > 0 {
      RemoveAt(chain[1..], i - 1, h);
      assert chain[..i] == [chain[0]] + chain[1..][..i - 1] && chain[i + 1..] == chain[1..][i..];
    }
  }

  lemma RemoveNothing(chain: seq<Block>, h: Hash)
    requires forall j :: 0 <= j < |chain| ==> chain[j].hash != h
    ensures RemoveHash(chain, h) == chain
  {
  }

  lemma {:induction false} RemovedKeepsOrder(chain: seq<Block>, h: Hash)
    requires forall i, j :: 0 <= i < j < |chain| ==> chain[i].hash != chain[j].hash
    ensures forall i :: 0 <= i < |RemoveHash(chain, h)| ==> RemoveHash(chain, h)[i] in chain && RemoveHash(chain, h)[i].hash != h
    ensures forall i, j :: 0 <= i < j < |RemoveHash(chain, h)| ==> RemoveHash(chain, h)[i].hash != RemoveHash(chain, h)[j].hash
  {
    if chain != [] && chain[0].hash != h {
      RemovedKeepsOrder(chain[1..], h);
      forall b | b in chain[1..]
        ensures b in chain && b.hash != chain[0].hash
      {
        var i :| 0 <= i < |chain[1..]| && chain[1..][i] == b;
        assert chain[i + 1] == b;
      }
    }
  }

  lemma RejectKeepsChains(s: Ledger, h: Hash)
    requires ChainsStored(s.blocks, s.chains)
    ensures ChainsStored(Reject(s, h).blocks, Reject(s, h).chains)
  {
    var t := Reject(s, h);
    forall p | p in t.chains
      ensures ChainOf(t.blocks, p, t.chains[p])
    {
      assert ChainOf(s.blocks, p, s.chains[p]);
      RemovedKeepsOrder(s.chains[p], h);
    }
  }

  lemma RejectHealthy(s: Ledger, h: Hash)
    requires Healthy(s)
    ensures Healthy(Reject(s, h))
  {
    RejectKeepsChains(s, h);
  }

  lemma {:induction false} RejectAllHealthy(s: Ledger, hs: seq<Hash>)
    requires Healthy(s)
    ensures Healthy(RejectAll(s, hs))
  {
    if hs != [] {
      RejectAllHealthy(s, hs[..|hs| - 1]);
      RejectHealthy(RejectAll(s, hs[..|hs| - 1]), hs[|hs| - 1]);
    }
  }

  lemma AddHealthy(env: Env, s: Ledger, b: Block, now: int)
    requires Healthy(s)
    ensures Healthy(AddBlock(env, s, b, now))
  {
    if Judge(env, s, b, now).Accepted? {
      AcceptedIffAdmissible(env, s, b, now);
      StoreHealthy(s, b);
      PruneHealthy(Store(s, b), b.accountPub);
    }
  }

  lemma StepHealthy(env: Env, n: Node, e: Event)
    requires Healthy(n.ledger)
    ensures Healthy(Step(env, n, e).ledger)
  {
    match e
    case Submit(b, now) => AddHealthy(env, n.ledger, b, now);
    case Enroll(pub, account) =>
    case Cast(vote, now) =>
    case Process(now) => RejectAllHealthy(n.ledger, Votes.ResolveConflicts(n.votes, now).rejected);
  }

  lemma {:induction false} EveryRunHealthy(env: Env, es: seq<Event>)
    ensures Healthy(Run(env, es).ledger)
  {
    if es != [] {
      EveryRunHealthy(env, es[..|es| - 1]);
      StepHealthy(env, Run(env, es[..|es| - 1]), es[|es| - 1]);
    }
  }

  lemma {:induction false} RejectAllAccounts(s: Ledger, hs: seq<Hash>)
    ensures RejectAll(s, hs).accounts == s.accounts
  {
    if hs != [] {
      RejectAllAccounts(s, hs[..|hs| - 1]);
    }
  }

  // ----- Pruning -------------------------------------------------------------------------------

  // Pruning keeps exactly the newest five thousand blocks of the account, in its chain and in the store.
  lemma PruneKeepsNewest(s: Ledger, pub: Pub)
    ensures var chain, t := Chain(s, pub), Prune(s, pub);
            var cut := if |chain| > 5_000 then |chain| - 5_000 else 0;
            && Chain(t, pub) == chain[cut..] && (forall p :: p != pub ==> Chain(t, p) == Chain(s, p))
            && (forall h :: h in t.blocks <==> h in s.blocks && forall i :: 0 <= i < cut ==> chain[i].hash != h)
            && (forall h :: h in t.blocks ==> t.blocks[h] == s.blocks[h])
            && t.unclaimed == s.unclaimed && t.contracts == s.contracts && t.providers == s.providers
            && t.heartbeats == s.heartbeats && t.accounts == s.accounts
  {
    var chain := Chain(s, pub);
    if |chain| > 5_000 {
      var cut := |chain| - 5_000;
      forall h
        ensures h in Hashes(chain[..cut]) <==> exists i :: 0 <= i < cut && chain[i].hash == h
      {
        DroppedHashes(chain, cut, h);
      }
    }
  }

  lemma DroppedHashes(chain: seq<Block>, cut: nat, h: Hash)
    requires cut <= |chain|
    ensures h in Hashes(chain[..cut]) <==> exists i :: 0 <= i < cut && chain[i].hash == h
  {
    if h in Hashes(chain[..cut]) {
      var b :| b in chain[..cut] && b.hash == h;
      var i :| 0 <= i < cut && chain[..cut][i] == b;
      assert chain[i].hash == h;
    }
    if i :| 0 <= i < cut && chain[i].hash == h {
      assert chain[..cut][i] == chain[i];
    }
  }

  lemma {:induction false} RemovalShortens(chain: seq<Block>, h: Hash)
    ensures |RemoveHash(chain, h)| <= |chain|
  {
    if chain != [] {
      RemovalShortens(chain[1..], h);
    }
  }

  lemma {:induction false} RejectAllShortens(s: Ledger, hs: seq<Hash>, p: Pub)
    ensures |Chain(RejectAll(s, hs), p)| <= |Chain(s, p)|
  {
    if hs != [] {
      RejectAllShortens(s, hs[..|hs| - 1], p);
      RemovalShortens(Chain(RejectAll(s, hs[..|hs| - 1]), p), hs[|hs| - 1]);
    }
  }

  lemma AddBounded(env: Env, s: Ledger, b: Block, now: int, p: Pub)
    requires |Chain(s, p)| <= 5_000
    ensures |Chain(AddBlock(env, s, b, now), p)| <= 5_000
  {
    PruneKeepsNewest(Store(s, b), b.accountPub);
    assert Chain(Store(s, b), p) == if p == b.accountPub then Chain(s, p) + [b] else Chain(s, p);
  }

  // In every run no chain is longer than five thousand blocks.
  lemma {:induction false} ChainsBounded(env: Env, es: seq<Event>, p: Pub)
    ensures |Chain(Run(env, es).ledger, p)| <= 5_000
  {
    if es != [] {
      var n := Run(env, es[..|es| - 1]);
      ChainsBounded(env, es[..|es| - 1], p);
      match es[|es| - 1]
      case Submit(b, now) => AddBounded(env, n.ledger, b, now, p);
      case Enroll(_, _) =>
      case Cast(_, _) =>
      case Process(now) => RejectAllShortens(n.ledger, Votes.ResolveConflicts(n.votes, now).rejected, p);
    }
  }
}
