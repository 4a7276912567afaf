// Where a stored block comes from: its path of parents, the balance along it, and the chain array.
module Lineage {
  import opened Basics
  import opened DagBlock
  import opened LedgerState
  import opened Nodes
  import opened Consistency

  ghost predicate Stored(blocks: map<Hash, Block>, b: Block) {
    Lookup(blocks, b.hash) == Some(b)
  }

  // The stored ancestors of a block, oldest first, ending with the block.
  ghost function Path(blocks: map<Hash, Block>, b: Block): seq<Block>
    requires Keyed(blocks) && Linked(blocks) && Stored(blocks, b)
    decreases b.index
  {
    assert Sound(b, ParentIn(blocks, b)) && blocks[b.hash].index >= 0;
    if b.kind.Open? then [b]
    else
      var parent := blocks[b.previousHash];
      assert blocks[parent.hash].index >= 0;
      Path(blocks, parent) + [b]
  }

  // The amount a block moves, whatever the direction, if it is of the given kind.
  function Moved(b: Block, kind: BlockType): int {
    if b.kind != kind then 0 else if kind.Send? then -Delta(b) else Delta(b)
  }

  function TotalMoved(path: seq<Block>, kind: BlockType): int {
    if path == [] then 0 else TotalMoved(path[..|path| - 1], kind) + Moved(path[|path| - 1], kind)
  }

  lemma ParentIsStored(blocks: map<Hash, Block>, b: Block)
    requires Keyed(blocks) && Linked(blocks) && Stored(blocks, b) && !b.kind.Open?
    ensures b.previousHash in blocks
    ensures var parent := blocks[b.previousHash];
            && Stored(blocks, parent) && parent.index >= 0 && b.index == parent.index + 1
            && b.balance == parent.balance + Delta(b) && Path(blocks, b) == Path(blocks, parent) + [b]
  {
  }

  // One stored block per index, from an open block on, each naming the one before as its parent.
  ghost predicate Descends(blocks: map<Hash, Block>, path: seq<Block>) {
    && path != [] && path[0].kind.Open?
    && (forall i :: 0 <= i < |path| ==> Stored(blocks, path[i]) && path[i].index == i)
    && (forall i :: 0 < i < |path| ==> !path[i].kind.Open? && path[i].previousHash == path[i - 1].hash)
  }

  lemma {:induction false} PathDescends(blocks: map<Hash, Block>, b: Block)
    requires Keyed(blocks) && Linked(blocks) && Stored(blocks, b)
    ensures Descends(blocks, Path(blocks, b)) && |Path(blocks, b)| == b.index + 1 && Path(blocks, b)[b.index] == b
    decreases b.index
  {
    assert Sound(b, ParentIn(blocks, b)) && blocks[b.hash].index >= 0;
    if !b.kind.Open? {
      ParentIsStored(blocks, b);
      PathDescends(blocks, blocks[b.previousHash]);
    }
  }

  lemma {:induction false} PathBalance(blocks: map<Hash, Block>, b: Block)
    requires Keyed(blocks) && Linked(blocks) && Stored(blocks, b)
    ensures b.balance == VERIFICATION_MINT_AMOUNT + TotalMoved(Path(blocks, b), Receive)
                         + TotalMoved(Path(blocks, b), StorageReward) - TotalMoved(Path(blocks, b), Send)
    ensures SafeBalance(b.balance)
    decreases b.index
  {
    assert Sound(b, ParentIn(blocks, b)) && blocks[b.hash].index >= 0;
    var path := Path(blocks, b);
    if !b.kind.Open? {
      ParentIsStored(blocks, b);
      PathBalance(blocks, blocks[b.previousHash]);
      assert path[..|path| - 1] == Path(blocks, blocks[b.previousHash]);
    }
  }

  // In every append-only run, forks included, each stored block descends from an open block through stored parents,
  // one per index, and its balance is what was minted plus received plus rewarded minus sent along that path.
  lemma EveryBlockHasHistory(env: Env, es: seq<Event>, h: Hash)
    requires AppendOnly(env, es) && h in Run(env, es).ledger.blocks
    ensures var blocks := Run(env, es).ledger.blocks;
            && Keyed(blocks) && Linked(blocks) && Stored(blocks, blocks[h])
            && var b, path := blocks[h], Path(blocks, blocks[h]);
            && Descends(blocks, path) && |path| == b.index + 1 && path[b.index] == b
            && b.balance == VERIFICATION_MINT_AMOUNT
                            + TotalMoved(path, Receive) + TotalMoved(path, StorageReward) - TotalMoved(path, Send)
            && SafeBalance(b.balance)
  {
    AppendOnlyConsistent(env, es);
    PathDescends(Run(env, es).ledger.blocks, Run(env, es).ledger.blocks[h]);
    PathBalance(Run(env, es).ledger.blocks, Run(env, es).ledger.blocks[h]);
  }

  // ----- Fork-free ledgers ---------------------------------------------------------------------

  ghost predicate SameAccountParents(blocks: map<Hash, Block>) {
    forall h :: h in blocks && !blocks[h].kind.Open? && blocks[h].previousHash in blocks ==>
      blocks[blocks[h].previousHash].accountPub == blocks[h].accountPub
  }

  ghost predicate ForkFree(blocks: map<Hash, Block>) {
    forall g, h :: g in blocks && h in blocks && ShareParent(blocks[g], blocks[h]) ==> g == h
  }

  predicate ShareParent(a: Block, b: Block) {
    !a.kind.Open? && !b.kind.Open? && a.accountPub == b.accountPub && a.previousHash == b.previousHash
  }

  ghost predicate Lineal(blocks: map<Hash, Block>) {
    SameAccountParents(blocks) && ForkFree(blocks)
  }

  ghost predicate InOrder(chain: seq<Block>) {
    && (forall i :: 0 <= i < |chain| ==> chain[i].index == i && (chain[i].kind.Open? <==> i == 0))
    && (forall i :: 0 < i < |chain| ==> chain[i].previousHash == chain[i - 1].hash)
  }

  ghost predicate ChainsInOrder(chains: map<Pub, seq<Block>>) {
    forall p :: p in chains ==> InOrder(chains[p])
  }

  lemma LinealBefore(blocks: map<Hash, Block>, b: Block)
    requires b.hash !in blocks && Lineal(blocks[b.hash := b])
    ensures Lineal(blocks)
  {
    var after := blocks[b.hash := b];
    assert forall h :: h in blocks ==> h in after && after[h] == blocks[h];
  }

  // Without forks a new block extends the head of its account's chain.
  lemma ParentIsHead(s: Ledger, b: Block)
    requires Keyed(s.blocks) && Chained(s.blocks, s.chains) && ChainsInOrder(s.chains)
    requires b.hash !in s.blocks && Lineal(s.blocks[b.hash := b]) && !b.kind.Open? && b.previousHash in s.blocks
    ensures b.accountPub in s.chains && Head(s, b.accountPub) == Some(s.blocks[b.previousHash])
  {
    var after := s.blocks[b.hash := b];
    var parent := s.blocks[b.previousHash];
    assert after[b.hash] == b && after[b.previousHash] == parent;
    assert parent.accountPub == b.accountPub;
    var chain := s.chains[b.accountPub];
    assert parent in chain;
    var i :| 0 <= i < |chain| && chain[i] == parent;
    if i + 1 < |chain| {
      SuccessorIsSibling(s, b.accountPub, i);
      OnlyChild(after, chain[i + 1].hash, b.hash);
    }
  }

  lemma OnlyChild(blocks: map<Hash, Block>, g: Hash, h: Hash)
    requires ForkFree(blocks) && g in blocks && h in blocks && ShareParent(blocks[g], blocks[h])
    ensures g == h
  {
  }

  lemma SuccessorIsSibling(s: Ledger, p: Pub, i: nat)
    requires Chained(s.blocks, s.chains) && ChainsInOrder(s.chains) && p in s.chains && i + 1 < |s.chains[p]|
    ensures var next := s.chains[p][i + 1];
            && next.hash in s.blocks && s.blocks[next.hash] == next && next.accountPub == p
            && !next.kind.Open? && next.previousHash == s.chains[p][i].hash
  {
  }

  lemma StoreKeepsOrder(env: Env, s: Ledger, b: Block, now: int)
    requires Keyed(s.blocks) && Chained(s.blocks, s.chains) && ChainsInOrder(s.chains)
    requires Admissible(env, s, b, now) && Lineal(s.blocks[b.hash := b])
    ensures ChainsInOrder(Store(s, b).chains)
  {
    var before := Chain(s, b.accountPub);
    assert b.kind.Open? ==> before == [];
    if !b.kind.Open? {
      ParentIsHead(s, b);
    }
    assert InOrder(before);
    OneMoreInOrder(before, b);
  }

  lemma OneMoreInOrder(chain: seq<Block>, b: Block)
    requires InOrder(chain)
    requires b.kind.Open? <==> chain == []
    requires b.index == |chain| && (chain != [] ==> b.previousHash == chain[|chain| - 1].hash)
    ensures InOrder(chain + [b])
  {
  }

  lemma StepBlocks(env: Env, s: Ledger, e: Event)
    ensures LedgerStep(env, s, e).blocks ==
            if e.Submit? && Judge(env, s, e.block, e.now).Accepted? then s.blocks[e.block.hash := e.block] else s.blocks
    ensures e.Submit? && Judge(env, s, e.block, e.now).Accepted? ==> e.block.hash !in s.blocks
  {
  }

  lemma LinealStep(env: Env, s: Ledger, e: Event)
    requires Lineal(LedgerStep(env, s, e).blocks)
    ensures Lineal(s.blocks)
  {
    StepBlocks(env, s, e);
    if LedgerStep(env, s, e).blocks != s.blocks {
      LinealBefore(s.blocks, e.block);
    }
  }

  lemma AcceptedKeepsOrder(env: Env, s: Ledger, b: Block, now: int)
    requires Consistent(s) && ChainsInOrder(s.chains) && Lineal(s.blocks[b.hash := b]) && Judge(env, s, b, now).Accepted?
    ensures ChainsInOrder(Store(s, b).chains)
  {
    AcceptedIffAdmissible(env, s, b, now);
    StoreKeepsOrder(env, s, b, now);
  }

  lemma StepKeepsOrder(env: Env, s: Ledger, e: Event)
    requires Consistent(s) && ChainsInOrder(s.chains) && Lineal(LedgerStep(env, s, e).blocks)
    ensures ChainsInOrder(LedgerStep(env, s, e).chains)
  {
    if e.Submit? && Judge(env, s, e.block, e.now).Accepted? {
      AcceptedKeepsOrder(env, s, e.block, e.now);
    } else {
      QuietStep(env, s, e);
    }
  }

  lemma {:induction false} LinealRunInOrder(env: Env, es: seq<Event>)
    requires AppendOnly(env, es) && Lineal(Run(env, es).ledger.blocks)
    ensures ChainsInOrder(Run(env, es).ledger.chains)
  {
    if es != [] {
      var s := Run(env, es[..|es| - 1]).ledger;
      LastStep(env, es);
      LinealStep(env, s, es[|es| - 1]);
      LinealRunInOrder(env, es[..|es| - 1]);
      AppendOnlyConsistent(env, es[..|es| - 1]);
      StepKeepsOrder(env, s, es[|es| - 1]);
    }
  }

  lemma PathGrows(blocks: map<Hash, Block>, p: Pub, chain: seq<Block>, i: nat)
    requires Keyed(blocks) && Linked(blocks) && ChainOf(blocks, p, chain) && InOrder(chain) && 0 < i < |chain|
    ensures Stored(blocks, chain[i]) && Stored(blocks, chain[i - 1]) && Path(blocks, chain[i]) == Path(blocks, chain[i - 1]) + [chain[i]]
  {
    ParentIsStored(blocks, chain[i]);
  }

  lemma {:induction false} PrefixIsPath(blocks: map<Hash, Block>, p: Pub, chain: seq<Block>, i: nat)
    requires Keyed(blocks) && Linked(blocks) && ChainOf(blocks, p, chain) && InOrder(chain) && i < |chain|
    ensures Stored(blocks, chain[i]) && Path(blocks, chain[i]) == chain[..i + 1]
  {
    assert chain[..i + 1] == chain[..i] + [chain[i]];
    if i > 0 {
      PrefixIsPath(blocks, p, chain, i - 1);
      PathGrows(blocks, p, chain, i);
    }
  }

  lemma WholeChainIsPath(blocks: map<Hash, Block>, p: Pub, chain: seq<Block>)
    requires Keyed(blocks) && Linked(blocks) && ChainOf(blocks, p, chain) && InOrder(chain) && chain != []
    ensures Stored(blocks, chain[|chain| - 1]) && Path(blocks, chain[|chain| - 1]) == chain
  {
    PrefixIsPath(blocks, p, chain, |chain| - 1);
    assert chain[..|chain|] == chain;
  }

  lemma ChainIsPath(s: Ledger, p: Pub)
    requires Keyed(s.blocks) && Linked(s.blocks) && Chained(s.blocks, s.chains) && ChainsInOrder(s.chains) && p in s.chains
    ensures Head(s, p).Some? && Stored(s.blocks, Head(s, p).value) && s.chains[p] == Path(s.blocks, Head(s, p).value)
  {
    assert s.chains[p] != [] && ChainOf(s.blocks, p, s.chains[p]) && InOrder(s.chains[p]);
    WholeChainIsPath(s.blocks, p, s.chains[p]);
  }

  // With same-account parents and no forks, the stored chain array is the path of its head.
  lemma ChainIsPathOfHead(env: Env, es: seq<Event>, p: Pub)
    requires AppendOnly(env, es) && Lineal(Run(env, es).ledger.blocks) && p in Run(env, es).ledger.chains
    ensures var s := Run(env, es).ledger;
            && Keyed(s.blocks) && Linked(s.blocks) && Head(s, p).Some? && Stored(s.blocks, Head(s, p).value)
            && s.chains[p] == Path(s.blocks, Head(s, p).value)
  {
    AppendOnlyConsistent(env, es);
    LinealRunInOrder(env, es);
    ChainIsPath(Run(env, es).ledger, p);
  }
}
