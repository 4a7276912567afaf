// Order independence: the set of accepted blocks determines the ledger.
module Convergence {
  import opened Basics
  import opened DagBlock
  import opened LedgerState
  import opened Nodes
  import opened Consistency
  import opened Lineage

  // In a fork-free ledger every stored block sits in its account's chain at its own index.
  lemma BlockAtItsIndex(blocks: map<Hash, Block>, chains: map<Pub, seq<Block>>, h: Hash)
    requires Chained(blocks, chains) && ChainsInOrder(chains) && h in blocks
    ensures blocks[h].accountPub in chains
    ensures var chain := chains[blocks[h].accountPub];
            0 <= blocks[h].index < |chain| && chain[blocks[h].index] == blocks[h]
  {
  }

  // A chain of one ledger is a prefix of the other's chain when the stored blocks agree.
  lemma ChainIsPrefix(blocks: map<Hash, Block>, one: map<Pub, seq<Block>>, two: map<Pub, seq<Block>>, p: Pub)
    requires Chained(blocks, one) && ChainsInOrder(one) && Chained(blocks, two) && ChainsInOrder(two) && p in one
    ensures p in two && one[p] <= two[p]
  {
    forall i | 0 <= i < |one[p]|
      ensures p in two && i < |two[p]| && two[p][i] == one[p][i]
    {
      assert ChainOf(blocks, p, one[p]) && InOrder(one[p]);
      BlockAtItsIndex(blocks, two, one[p][i].hash);
    }
    assert one[p] != [] && ChainOf(blocks, p, one[p]);
    BlockAtItsIndex(blocks, two, one[p][|one[p]| - 1].hash);
  }

  lemma SameChains(blocks: map<Hash, Block>, one: map<Pub, seq<Block>>, two: map<Pub, seq<Block>>)
    requires Chained(blocks, one) && ChainsInOrder(one) && Chained(blocks, two) && ChainsInOrder(two)
    ensures one == two
  {
    forall p
      ensures p in one <==> p in two
      ensures p in one ==> one[p] == two[p]
    {
      if p in one {
        ChainIsPrefix(blocks, one, two, p);
      }
      if p in two {
        ChainIsPrefix(blocks, two, one, p);
      }
    }
  }

  lemma SameUnclaimed(s: Ledger, t: Ledger)
    requires s.blocks == t.blocks && UnclaimedExact(s) && UnclaimedExact(t)
    ensures s.unclaimed == t.unclaimed
  {
  }

  lemma SameContracts(s: Ledger, t: Ledger)
    requires s.blocks == t.blocks && ContractsExact(s) && ContractsExact(t)
    ensures s.contracts == t.contracts
  {
  }

  lemma SameProviders(s: Ledger, t: Ledger)
    requires s.chains == t.chains && ProvidersReplayed(s) && ProvidersReplayed(t)
    ensures s.providers == t.providers
  {
    forall p
      ensures Lookup(s.providers, p) == Lookup(t.providers, p)
    {
      assert Chain(s, p) == Chain(t, p);
      assert Lookup(s.providers, p) == ProviderOf(Chain(s, p));
    }
    MapsByLookup(s.providers, t.providers);
  }

  lemma SameHeartbeats(s: Ledger, t: Ledger)
    requires s.chains == t.chains && HeartbeatsReplayed(s) && HeartbeatsReplayed(t)
    ensures s.heartbeats == t.heartbeats
  {
    forall p
      ensures Lookup(s.heartbeats, p) == Lookup(t.heartbeats, p)
    {
      assert Chain(s, p) == Chain(t, p);
      assert Lookup(s.heartbeats, p).GetOr(map[]) == HeartbeatIndex(Chain(s, p)) == Lookup(t.heartbeats, p).GetOr(map[]);
    }
    MapsByLookup(s.heartbeats, t.heartbeats);
  }

  lemma MapsByLookup<K(!new), V(!new)>(m: map<K, V>, n: map<K, V>)
    requires forall k :: Lookup(m, k) == Lookup(n, k)
    ensures m == n
  {
    assert forall k :: Lookup(m, k).Some? <==> k in m;
    assert forall k :: Lookup(n, k).Some? <==> k in n;
    assert forall k :: k in m ==> Some(m[k]) == Lookup(m, k) == Lookup(n, k);
  }

  // Two ledgers that hold the same blocks, however they came by them, agree on everything addBlock derives.
  // The heads, and so the balances, are the last elements of the chains.
  lemma LedgersConverge(env: Env, es: seq<Event>, fs: seq<Event>)
    requires AppendOnly(env, es) && AppendOnly(env, fs)
    requires Run(env, es).ledger.blocks == Run(env, fs).ledger.blocks && Lineal(Run(env, es).ledger.blocks)
    ensures var s, t := Run(env, es).ledger, Run(env, fs).ledger;
            && s.chains == t.chains && s.unclaimed == t.unclaimed && s.contracts == t.contracts
            && s.providers == t.providers && s.heartbeats == t.heartbeats
            && (forall p :: Head(s, p) == Head(t, p) && BalanceOf(s, p) == BalanceOf(t, p))
  {
    var s, t := Run(env, es).ledger, Run(env, fs).ledger;
    AppendOnlyConsistent(env, es);
    AppendOnlyConsistent(env, fs);
    LinealRunInOrder(env, es);
    LinealRunInOrder(env, fs);
    SameChains(s.blocks, s.chains, t.chains);
    SameUnclaimed(s, t);
    SameContracts(s, t);
    SameProviders(s, t);
    SameHeartbeats(s, t);
  }
}
