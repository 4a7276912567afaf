// Runs in which conservation and snapshot replay fail, as the theorems say they may.
module LedgerScenarios {
  import opened Basics
  import opened DagBlock
  import opened LedgerState
  import opened Nodes
  import opened Consistency
  import opened Lineage
  import opened Conservation
  import opened Snapshot
  import opened Scenarios

  predicate ParentAt(bs: seq<Block>, j: nat, i: nat)
    requires i < j < |bs|
  {
    bs[i].hash == bs[j].previousHash && bs[i].accountPub == bs[j].accountPub
  }

  // Every block but an opening is built on an earlier block of its account, and no earlier block shares its parent.
  ghost predicate LinealAt(bs: seq<Block>, j: nat)
    requires j < |bs|
  {
    bs[j].kind.Open? || ((exists i: nat :: i < j && ParentAt(bs, j, i)) && forall i :: 0 <= i < j ==> !ShareParent(bs[i], bs[j]))
  }

  ghost predicate LinealBlocks(bs: seq<Block>) {
    forall j: nat :: j < |bs| ==> LinealAt(bs, j)
  }

  lemma LinealTable(s: Ledger, bs: seq<Block>)
    requires HoldsExactly(s, bs) && LinealBlocks(bs)
    ensures Lineal(s.blocks)
  {
    forall h | h in s.blocks && !s.blocks[h].kind.Open? && s.blocks[h].previousHash in s.blocks
      ensures s.blocks[s.blocks[h].previousHash].accountPub == s.blocks[h].accountPub
    {
      var j: nat :| j < |bs| && bs[j] == s.blocks[h];
      assert LinealAt(bs, j);
      var i: nat :| i < j && ParentAt(bs, j, i);
      assert bs[i] in bs;
    }
    forall g, h | g in s.blocks && h in s.blocks && ShareParent(s.blocks[g], s.blocks[h])
      ensures g == h
    {
      var i: nat :| i < |bs| && bs[i] == s.blocks[g];
      var j: nat :| j < |bs| && bs[j] == s.blocks[h];
      assert LinealAt(bs, i) && LinealAt(bs, j);
    }
  }

  lemma LinealMore(bs: seq<Block>, b: Block, i: nat)
    requires LinealBlocks(bs) && i < |bs| && b.previousHash == bs[i].hash && b.accountPub == bs[i].accountPub
    requires forall k :: 0 <= k < |bs| && !bs[k].kind.Open? && bs[k].accountPub == b.accountPub ==> bs[k].previousHash != b.previousHash
    ensures LinealBlocks(bs + [b])
  {
    var more := bs + [b];
    assert ParentAt(more, |bs|, i);
    forall j: nat | j < |bs|
      ensures LinealAt(more, j)
    {
      assert LinealAt(bs, j);
      if k: nat :| k < j && ParentAt(bs, j, k) {
        assert ParentAt(more, j, k);
      }
    }
  }

  // Two openings and a send.
  lemma SendLineal(p: Block, q: Block, s: Block)
    requires IsOpening(p, "P", "1") && IsOpening(q, "Q", "2") && Builds(s, "P", p, Send, -5, "3")
    ensures LinealBlocks([p, q, s])
  {
    assert [p, q] + [s] == [p, q, s];
    LinealMore([p, q], s, 0);
  }

  lemma TransferLineal(x: Parties)
    requires Transferred(x)
    ensures LinealBlocks(Blocks(x))
  {
    var three := [x.openP, x.openQ, x.send];
    assert Blocks(x) == three + [x.receive];
    SendLineal(x.openP, x.openQ, x.send);
    LinealMore(three, x.receive, 1);
  }

  // The ledger of a game, as the ledger of a run.
  lemma GameRuns(env: Env, bs: seq<Block>, now: int) returns (es: seq<Event>)
    requires Plain(env) && Game(env, bs, now) && |bs| <= MAX_CHAIN_MEMORY
    ensures AppendOnly(env, es) && Run(env, es).ledger == Table(bs) && HoldsExactly(Table(bs), bs)
  {
    es := Submits(bs, now);
    Played(env, bs, now);
    StoredBlocks(env, bs);
  }

  // A send received twice: every block is accepted, there are no forks and no foreign parents, and the supply exceeds
  // what was minted.
  lemma ClaimedTwice(env: Env, now: int) returns (es: seq<Event>)
    requires Plain(env)
    ensures AppendOnly(env, es) && Lineal(Run(env, es).ledger.blocks)
    ensures !ClaimedOnce(Run(env, es).ledger.blocks) && Supply(Run(env, es).ledger) > Minted(Run(env, es).ledger)
  {
    var x := Transfer(env, now);
    var again := Receives(env, Blocks(x), x.receive, x.send, "5", now);
    var bs := Blocks(x) + [again];
    es := GameRuns(env, bs, now);
    TwiceLineal(env, x, again);
    LinealTable(Table(bs), bs);
    assert x.receive in bs && again in bs;
    assert SameClaim(Table(bs).blocks[x.receive.hash], Table(bs).blocks[again.hash]);
    SupplyConserved(env, es);
  }

  lemma TwiceLineal(env: Env, x: Parties, again: Block)
    requires Plain(env) && Transferred(x) && Builds(again, "Q", x.receive, Receive, 5, "5") && Tagged(env, Blocks(x) + [again])
    ensures LinealBlocks(Blocks(x) + [again])
  {
    TransferLineal(x);
    assert x.openQ in Blocks(x) + [again] && x.receive in Blocks(x) + [again];
    TagsTellHashes(env, x.receive, x.openQ);
    LinealMore(Blocks(x), again, 3);
  }

  lemma NoReceives(s: Ledger, bs: seq<Block>)
    requires HoldsExactly(s, bs) && forall b :: b in bs ==> !b.kind.Receive?
    ensures ClaimedOnce(s.blocks)
  {
  }

  lemma GameConserves(env: Env, bs: seq<Block>, now: int)
    requires Plain(env) && Game(env, bs, now) && |bs| <= MAX_CHAIN_MEMORY
    requires Lineal(Table(bs).blocks) && ClaimedOnce(Table(bs).blocks)
    ensures Supply(Table(bs)) == Minted(Table(bs))
  {
    Played(env, bs, now);
    SupplyConserved(env, Submits(bs, now));
  }

  lemma TableUnclaimed(env: Env, bs: seq<Block>)
    requires Plain(env) && Tagged(env, bs) && LinealBlocks(bs) && forall b :: b in bs ==> !b.kind.Receive?
    ensures Lineal(Table(bs).blocks) && ClaimedOnce(Table(bs).blocks)
  {
    StoredBlocks(env, bs);
    LinealUnclaimed(Table(bs), bs);
  }

  lemma LinealUnclaimed(s: Ledger, bs: seq<Block>)
    requires HoldsExactly(s, bs) && LinealBlocks(bs) && forall b :: b in bs ==> !b.kind.Receive?
    ensures Lineal(s.blocks) && ClaimedOnce(s.blocks)
  {
    LinealTable(s, bs);
    NoReceives(s, bs);
  }

  lemma GapShows(env: Env, bs: seq<Block>, f: Block, now: int)
    requires Plain(env) && Game(env, bs + [f], now) && |bs| < MAX_CHAIN_MEMORY && Supply(Table(bs)) == Minted(Table(bs))
    ensures Supply(Table(bs + [f])) == Minted(Table(bs + [f])) + Gap(Table(bs), f)
  {
    PlayableMore(env, bs, f, now);
    Played(env, bs, now);
    AppendOnlyConsistent(env, Submits(bs, now));
    SupplyAfterAccepted(env, Table(bs), f, now);
    TableMore(bs, f);
  }

  lemma HeadOfQ(p: Block, q: Block, s: Block)
    requires p.accountPub == "P" && q.accountPub == "Q" && s.accountPub == "P"
    ensures Chain(Table([p, q, s]), "Q") == [q]
  {
    ChainIsOf([p, q, s], "Q");
    assert [p, q, s][..2] == [p, q] && [p, q][..1] == [p] && [p][..0] == [];
    assert Of([p], "Q") == [];
    assert Of([p, q], "Q") == [q];
  }

  lemma GapOfForeign(t: Ledger, q: Block, s: Block, f: Block)
    requires Chain(t, "Q") == [q] && Lookup(t.blocks, s.hash) == Some(s)
    requires f.kind.Send? && f.accountPub == "Q" && f.previousHash == s.hash
    ensures Gap(t, f) == s.balance - q.balance
  {
  }

  lemma ForeignBlocksGap(env: Env, p: Block, q: Block, s: Block, f: Block)
    requires Plain(env) && Tagged(env, [p, q, s]) && f.kind.Send? && f.accountPub == "Q" && f.previousHash == s.hash
    requires p.accountPub == "P" && q.accountPub == "Q" && s.accountPub == "P"
    ensures Gap(Table([p, q, s]), f) == s.balance - q.balance
  {
    HeadOfQ(p, q, s);
    StoredBlocks(env, [p, q, s]);
    assert s in [p, q, s];
    GapOfForeign(Table([p, q, s]), q, s, f);
  }

  lemma OpeningsAndSend(env: Env, now: int) returns (p: Block, q: Block, s: Block)
    requires Plain(env)
    ensures IsOpening(p, "P", "1") && IsOpening(q, "Q", "2") && Builds(s, "P", p, Send, -5, "3") && Game(env, [p, q, s], now)
  {
    p, q := Openings(env, now);
    s := Sends(env, [p, q], "P", p, "Q", 5, "3", now);
    assert [p, q] + [s] == [p, q, s];
  }

  // P and Q open, P sends 5, and Q sends 1 on top of P's block.
  lemma ForeignBlocks(env: Env, now: int) returns (bs: seq<Block>, f: Block)
    requires Plain(env)
    ensures Game(env, bs, now) && Game(env, bs + [f], now) && |bs| == 3 && LinealBlocks(bs)
    ensures forall b :: b in bs + [f] ==> !b.kind.Receive?
    ensures Gap(Table(bs), f) == -5
  {
    var p, q, s := OpeningsAndSend(env, now);
    bs := [p, q, s];
    f := Sends(env, bs, "Q", s, "P", 1, "4", now);
    SendLineal(p, q, s);
    ForeignBlocksGap(env, p, q, s, f);
  }

  // A block of Q built on a block of P: it is accepted, no send is named twice, and the supply falls short of what was
  // minted.
  lemma ForeignParent(env: Env, now: int) returns (es: seq<Event>)
    requires Plain(env)
    ensures AppendOnly(env, es) && ClaimedOnce(Run(env, es).ledger.blocks)
    ensures Supply(Run(env, es).ledger) == Minted(Run(env, es).ledger) - 5
  {
    var bs, f := ForeignBlocks(env, now);
    TableUnclaimed(env, bs);
    GameConserves(env, bs, now);
    GapShows(env, bs, f, now);
    es := GameRuns(env, bs + [f], now);
    NoReceives(Table(bs + [f]), bs + [f]);
  }

  lemma HeadOfP(p: Block, q: Block, s: Block)
    requires p.accountPub == "P" && q.accountPub == "Q" && s.accountPub == "P"
    ensures Chain(Table([p, q, s]), "P") == [p, s]
  {
    ChainIsOf([p, q, s], "P");
    assert [p, q, s][..2] == [p, q] && [p, q][..1] == [p] && [p][..0] == [];
    assert Of([p], "P") == [p];
    assert Of([p, q], "P") == [p];
  }

  lemma GapOfFork(t: Ledger, p: Block, s: Block, f: Block)
    requires Chain(t, "P") == [p, s] && Lookup(t.blocks, p.hash) == Some(p)
    requires f.kind.Send? && f.accountPub == "P" && f.previousHash == p.hash
    ensures Gap(t, f) == p.balance - s.balance
  {
  }

  // P and Q open, P sends 5, and P sends 7 on top of its opening block.
  lemma ForkBlocks(env: Env, now: int) returns (bs: seq<Block>, f: Block)
    requires Plain(env)
    ensures Game(env, bs, now) && Game(env, bs + [f], now) && |bs| == 3 && LinealBlocks(bs)
    ensures forall b :: b in bs + [f] ==> !b.kind.Receive? && (b.kind.Open? || b.accountPub == "P")
    ensures Gap(Table(bs), f) == 5
  {
    var p, q, s := OpeningsAndSend(env, now);
    bs := [p, q, s];
    f := Sends(env, bs, "P", p, "Q", 7, "4", now);
    SendLineal(p, q, s);
    ForkBlocksGap(env, p, q, s, f);
  }

  lemma ForkBlocksGap(env: Env, p: Block, q: Block, s: Block, f: Block)
    requires Plain(env) && Tagged(env, [p, q, s]) && f.kind.Send? && f.accountPub == "P" && f.previousHash == p.hash
    requires p.accountPub == "P" && q.accountPub == "Q" && s.accountPub == "P"
    ensures Gap(Table([p, q, s]), f) == p.balance - s.balance
  {
    HeadOfP(p, q, s);
    StoredBlocks(env, [p, q, s]);
    assert p in [p, q, s];
    GapOfFork(Table([p, q, s]), p, s, f);
  }

  // A second block of P on its opening block: it is accepted, no send is named twice and no parent is another
  // account's, and the supply exceeds what was minted until the fork is resolved.
  lemma ForkedSupply(env: Env, now: int) returns (es: seq<Event>)
    requires Plain(env)
    ensures AppendOnly(env, es) && ClaimedOnce(Run(env, es).ledger.blocks)
    ensures Supply(Run(env, es).ledger) == Minted(Run(env, es).ledger) + 5
  {
    var bs, f := ForkBlocks(env, now);
    TableUnclaimed(env, bs);
    GameConserves(env, bs, now);
    GapShows(env, bs, f, now);
    es := GameRuns(env, bs + [f], now);
    NoReceives(Table(bs + [f]), bs + [f]);
  }

  // An opening without relay credentials is refused for just that, on the test network too: here is one.
  lemma OpeningNeedsCredential(env: Env, now: int) returns (b: Block)
    requires Plain(env)
    ensures b.relayCredentials == [] && b.kind.Open? && HashMatches(env, b) && SignatureValid(env, b, None) && Sound(b, None)
    ensures !env.mainnet && Judge(env, EMPTY, b, now) == Refused(TooFewCredentials)
  {
    var draft := Opening("P", "1").(relayCredentials := []);
    b := Sign(env, draft);
    assert HashInput(b) == HashInput(draft);
  }

  // An account that registers a quantum-safe key after a block whose quantum-safe signature nothing checked: a node's
  // own snapshot is not accepted back.
  lemma StaleSnapshot(env: Env, now: int) returns (es: seq<Event>)
    requires Plain(env)
    ensures AppendOnly(env, es)
    ensures var s := Run(env, es).ledger;
            Exportable(s) && |s.order| == 1 && !AllAccepted(env, EMPTY.(accounts := s.accounts), Export(s), now)
  {
    var draft := Opening("P", "1").(pqSignature := Some("signature"));
    var p := Sign(env, draft);
    OpeningEndorsed(env, "P", "1");
    assert Endorsements(env, draft) == Endorsements(env, Opening("P", "1"));
    Admitted(env, EMPTY, draft, now);
    var first := [Submit(p, now)];
    Submitted(env, [], p, now);
    assert [] + first == first;
    es := first + [Enroll("P", Account(0, 0, Some("key")))];
    assert es[..1] == first;
    StaleRefused(env, Run(env, es).ledger, p, now);
  }

  lemma StaleRefused(env: Env, s: Ledger, p: Block, now: int)
    requires Plain(env) && p.accountPub == "P" && p.pqSignature == Some("signature")
    requires s == Store(EMPTY, p).(accounts := map["P" := Account(0, 0, Some("key"))])
    ensures Exportable(s) && |s.order| == 1 && !AllAccepted(env, EMPTY.(accounts := s.accounts), Export(s), now)
  {
    var start := EMPTY.(accounts := s.accounts);
    assert s.order == [p.hash] && Export(s) == [p];
    assert Export(s)[..0] == [];
    assert !SignatureValid(env, p, PqOf(start, "P"));
  }
}
