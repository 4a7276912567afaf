// Runs with a conflict: what rejecting a block leaves behind, a decision at exactly two thirds, and a timeout that
// does not pick the earliest block.
module VoteScenarios {
  import opened Basics
  import opened DagBlock
  import opened LedgerState
  import opened Votes
  import opened Nodes
  import opened Consistency
  import opened Health
  import opened VoteSafety
  import opened VoteAgreement
  import opened Rejection
  import opened Scenarios

  // ----- The vote manager of a game ------------------------------------------------------------

  function Registered(bs: seq<Block>, now: int): VoteState {
    if bs == [] then NO_VOTES
    else Register(Registered(bs[..|bs| - 1], now), bs[|bs| - 1].hash, SlotOf(bs[|bs| - 1]), now)
  }

  // The hashes of a slot's blocks, in order.
  function Sharing(bs: seq<Block>, k: Slot): seq<Hash> {
    if bs == [] then []
    else Sharing(bs[..|bs| - 1], k) + if SlotOf(bs[|bs| - 1]) == k then [bs[|bs| - 1].hash] else []
  }

  lemma {:induction false} GameNode(env: Env, bs: seq<Block>, now: int)
    requires Playable(env, bs, now) && |bs| <= MAX_CHAIN_MEMORY
    ensures Run(env, Submits(bs, now)) == Node(Table(bs), Registered(bs, now))
  {
    if bs != [] {
      var init, b := bs[..|bs| - 1], bs[|bs| - 1];
      assert bs == init + [b];
      PlayableMore(env, init, b, now);
      GameNode(env, init, now);
      Played(env, init, now);
      ChainWithin(init, b.accountPub);
      Submitted(env, Submits(init, now), b, now);
    }
  }

  // Nothing is rejected, no signature has been seen, every tally is empty, and the slots list the blocks in order.
  ghost predicate Quiet(v: VoteState, bs: seq<Block>, now: int) {
    && v.rejected == {} && v.seen == []
    && (forall h :: h in v.tallies ==> v.tallies[h] == EmptyTally(now))
    && (forall h :: h in v.confirmed ==> exists b :: b in bs && b.hash == h)
    && (forall k :: Siblings(v, k) == Sharing(bs, k))
  }

  lemma ConfirmedOneMore(v: VoteState, bs: seq<Block>, b: Block, now: int)
    requires forall h :: h in v.confirmed ==> exists c :: c in bs && c.hash == h
    ensures forall h :: h in Register(v, b.hash, SlotOf(b), now).confirmed ==> exists c :: c in bs + [b] && c.hash == h
  {
    forall h | h in Register(v, b.hash, SlotOf(b), now).confirmed
      ensures exists c :: c in bs + [b] && c.hash == h
    {
      if h == b.hash {
        assert b in bs + [b];
      } else {
        var c :| c in bs && c.hash == h;
        assert c in bs + [b];
      }
    }
  }

  lemma QuietOneMore(v: VoteState, bs: seq<Block>, b: Block, now: int)
    requires Quiet(v, bs, now) && forall c :: c in bs ==> c.hash != b.hash
    requires forall k, h :: h in Sharing(bs, k) ==> exists c :: c in bs && c.hash == h
    ensures Quiet(Register(v, b.hash, SlotOf(b), now), bs + [b], now)
  {
    var u := Register(v, b.hash, SlotOf(b), now);
    assert (bs + [b])[..|bs|] == bs;
    assert b.hash !in v.confirmed && b.hash !in Sharing(bs, SlotOf(b));
    ConfirmedOneMore(v, bs, b, now);
    forall k
      ensures Siblings(u, k) == Sharing(bs + [b], k)
    {
      assert Siblings(v, k) == Sharing(bs, k);
    }
  }

  lemma {:induction false} SharingIsOf(bs: seq<Block>, k: Slot, h: Hash)
    requires h in Sharing(bs, k)
    ensures exists c :: c in bs && c.hash == h
  {
    var init, b := bs[..|bs| - 1], bs[|bs| - 1];
    if h in Sharing(init, k) {
      SharingIsOf(init, k, h);
      var c :| c in init && c.hash == h;
      assert c in bs;
    } else {
      assert b in bs;
    }
  }

  lemma {:induction false} GameQuiet(env: Env, bs: seq<Block>, now: int)
    requires Plain(env) && Tagged(env, bs)
    ensures Quiet(Registered(bs, now), bs, now)
  {
    if bs != [] {
      var init, b := bs[..|bs| - 1], bs[|bs| - 1];
      assert bs == init + [b];
      GameQuiet(env, init, now);
      forall c | c in init
        ensures c.hash != b.hash
      {
        TagsTellHashes(env, c, b);
      }
      forall k, h | h in Sharing(init, k)
        ensures exists c :: c in init && c.hash == h
      {
        SharingIsOf(init, k, h);
      }
      QuietOneMore(Registered(init, now), init, b, now);
    }
  }

  // A vote of an account's whole balance, shown by a stored block of the account.
  function Voting(h: Hash, head: Block, approve: bool, now: int): Vote {
    Vote(h, head.accountPub, approve, 0, now, head.accountPub, Some(head.hash), false)
  }

  // Casting it on a block under vote counts its balance, once.
  lemma VoteCounts(env: Env, es: seq<Event>, h: Hash, head: Block, approve: bool, now: int) returns (more: seq<Event>)
    requires var n := Run(env, es);
             && Lookup(n.ledger.blocks, head.hash) == Some(head) && head.hash != "" && head.balance > 0
             && h in n.votes.tallies && head.accountPub !in n.votes.tallies[h].votes && head.accountPub !in n.votes.seen
             && |n.votes.seen| < 10
    ensures more == es + [Cast(Voting(h, head, approve, now), now)]
    ensures var n := Run(env, es);
            var t := n.votes.tallies[h];
            Run(env, more) == n.(votes := n.votes.(
              seen := n.votes.seen + [head.accountPub],
              tallies := n.votes.tallies[h := Count(t, Voting(h, head, approve, now).(stake := head.balance))]))
  {
    more := es + [Cast(Voting(h, head, approve, now), now)];
    assert more[..|es|] == es;
  }

  lemma PlainIsCollisionFree(env: Env)
    requires Plain(env)
    ensures CollisionFree(env)
  {
  }

  // A slot with two blocks or more is under vote with empty tallies.
  lemma UnderVote(env: Env, bs: seq<Block>, k: Slot, now: int)
    requires Plain(env) && Game(env, bs, now) && |bs| <= MAX_CHAIN_MEMORY && |Sharing(bs, k)| > 1
    ensures var n := Run(env, Submits(bs, now));
            && n == Node(Table(bs), Registered(bs, now)) && HoldsExactly(n.ledger, bs)
            && (forall j :: Siblings(n.votes, j) == Sharing(bs, j)) && k in n.votes.siblings && n.votes.seen == []
            && forall h :: h in Sharing(bs, k) ==> h in n.votes.tallies && n.votes.tallies[h] == EmptyTally(now)
  {
    var es := Submits(bs, now);
    GameNode(env, bs, now);
    GameQuiet(env, bs, now);
    StoredBlocks(env, bs);
    PlainIsCollisionFree(env);
    EveryRunSafe(env, es);
    MustBeOpen(env, Run(env, es).votes, k);
  }

  lemma MustBeOpen(env: Env, v: VoteState, k: Slot)
    requires Safe(env, v) && v.rejected == {} && |Siblings(v, k)| > 1
    ensures k in v.siblings && OpenSlot(v, v.siblings[k])
  {
    var hs := v.siblings[k];
    assert SlotSettled(v, hs) && Distinct(hs) && hs[0] in hs && hs[1] in hs;
  }

  // A block alone in its slot is not rejected.
  lemma LoneSurvives(env: Env, es: seq<Event>, k: Slot, h: Hash, now: int)
    requires CollisionFree(env) && Siblings(Run(env, es).votes, k) == [h]
    ensures h !in ResolveConflicts(Run(env, es).votes, now).rejected
  {
    ResolutionOfReachable(env, es, k, now);
  }

  // When the second of two siblings has all the stake it wins and the first is rejected.
  lemma SecondWins(env: Env, es: seq<Event>, k: Slot, a: Hash, b: Hash, now: int)
    requires CollisionFree(env) && Siblings(Run(env, es).votes, k) == [a, b] && a != b
    requires AllTallied(Run(env, es).votes.tallies, [a, b])
    requires var t := Run(env, es).votes.tallies;
             t[a].approveStake == 0 && t[b].approveStake > 0 && t[b].rejectStake == 0 && t[b].totalStake == t[b].approveStake
    ensures var r := ResolveConflicts(Run(env, es).votes, now);
            a in r.rejected && b !in r.rejected && a in r.votes.rejected
  {
    OnlyApprovedWins(Run(env, es).votes.tallies, [a, b], b, now);
    ResolutionOfReachable(env, es, k, now);
    assert a in [a, b];
  }

  // ----- A rejected send -----------------------------------------------------------------------

  // After a transfer P sends 1 more; then a second child of P's opening block turns up, sending 7.
  predicate Forked(x: Parties, child: Block, fork: Block) {
    && Transferred(x) && Builds(child, "P", x.send, Send, -1, "5") && Builds(fork, "P", x.openP, Send, -7, "6")
  }

  function ForkedBlocks(x: Parties, child: Block, fork: Block): seq<Block> {
    [x.openP, x.openQ, x.send, x.receive, child, fork]
  }

  lemma ChildPlays(env: Env, now: int) returns (x: Parties, child: Block)
    requires Plain(env)
    ensures Transferred(x) && Builds(child, "P", x.send, Send, -1, "5")
    ensures Game(env, [x.openP, x.openQ, x.send, x.receive, child], now)
  {
    x := Transfer(env, now);
    child := Sends(env, Blocks(x), "P", x.send, "Q", 1, "5", now);
    assert Blocks(x) + [child] == [x.openP, x.openQ, x.send, x.receive, child];
  }

  lemma ForkedPlays(env: Env, now: int) returns (x: Parties, child: Block, fork: Block)
    requires Plain(env)
    ensures Forked(x, child, fork) && Game(env, ForkedBlocks(x, child, fork), now)
  {
    x, child := ChildPlays(env, now);
    var five := [x.openP, x.openQ, x.send, x.receive, child];
    fork := Sends(env, five, "P", x.openP, "Q", 7, "6", now);
    assert five + [fork] == ForkedBlocks(x, child, fork);
  }

  function One(b: Block, k: Slot): seq<Hash> {
    if SlotOf(b) == k then [b.hash] else []
  }

  lemma {:induction false} SharingJoins(bs: seq<Block>, cs: seq<Block>, k: Slot)
    ensures Sharing(bs + cs, k) == Sharing(bs, k) + Sharing(cs, k)
  {
    if cs == [] {
      assert bs + cs == bs;
    } else {
      SharingJoins(bs, cs[..|cs| - 1], k);
      assert (bs + cs)[..|bs + cs| - 1] == bs + cs[..|cs| - 1];
    }
  }

  lemma SharingThree(a: Block, b: Block, c: Block, k: Slot)
    ensures Sharing([a, b, c], k) == One(a, k) + One(b, k) + One(c, k)
  {
    assert [a, b, c][..2] == [a, b] && [a, b][..1] == [a] && [a][..0] == [];
    assert Sharing([a], k) == One(a, k);
    assert Sharing([a, b], k) == One(a, k) + One(b, k);
  }

  lemma SharingSix(a: Block, b: Block, c: Block, d: Block, e: Block, f: Block, k: Slot)
    ensures Sharing([a, b, c, d, e, f], k) == (One(a, k) + One(b, k) + One(c, k)) + (One(d, k) + One(e, k) + One(f, k))
  {
    SharingThree(a, b, c, k);
    SharingThree(d, e, f, k);
    SharingJoins([a, b, c], [d, e, f], k);
    assert [a, b, c] + [d, e, f] == [a, b, c, d, e, f];
  }

  // The blocks of P have other parents than those of Q, and no block has its own hash as its parent.
  lemma ForkedHashes(env: Env, x: Parties, child: Block, fork: Block)
    requires Plain(env) && Forked(x, child, fork) && Tagged(env, ForkedBlocks(x, child, fork))
    ensures x.send.hash != fork.hash && x.openP.hash != x.send.hash
    ensures x.openP.hash != ZERO_HASH && x.openQ.hash != ZERO_HASH && x.send.hash != ZERO_HASH
  {
    var bs := ForkedBlocks(x, child, fork);
    assert bs[0] in bs && bs[1] in bs && bs[2] in bs && bs[5] in bs;
    TagsTellHashes(env, x.openP, x.send);
    TagsTellHashes(env, x.send, fork);
  }

  lemma ForkedSlots(env: Env, x: Parties, child: Block, fork: Block)
    requires Plain(env) && Forked(x, child, fork) && Tagged(env, ForkedBlocks(x, child, fork))
    ensures var bs := ForkedBlocks(x, child, fork);
            && Sharing(bs, Slot("P", x.openP.hash)) == [x.send.hash, fork.hash] && x.send.hash != fork.hash
            && forall b :: b in {x.openP, x.openQ, x.receive, child} ==> Sharing(bs, SlotOf(b)) == [b.hash]
  {
    ForkedHashes(env, x, child, fork);
    ForkedSharing(x, child, fork);
  }

  lemma ForkedSharing(x: Parties, child: Block, fork: Block)
    requires Forked(x, child, fork) && x.openP.hash != x.send.hash
    requires x.openP.hash != ZERO_HASH && x.openQ.hash != ZERO_HASH && x.send.hash != ZERO_HASH
    ensures var bs := ForkedBlocks(x, child, fork);
            && Sharing(bs, Slot("P", x.openP.hash)) == [x.send.hash, fork.hash]
            && Sharing(bs, SlotOf(x.openP)) == [x.openP.hash] && Sharing(bs, SlotOf(x.openQ)) == [x.openQ.hash]
            && Sharing(bs, SlotOf(x.receive)) == [x.receive.hash] && Sharing(bs, SlotOf(child)) == [child.hash]
  {
    SharingSix(x.openP, x.openQ, x.send, x.receive, child, fork, Slot("P", x.openP.hash));
    SharingSix(x.openP, x.openQ, x.send, x.receive, child, fork, SlotOf(x.openP));
    SharingSix(x.openP, x.openQ, x.send, x.receive, child, fork, SlotOf(x.openQ));
    SharingSix(x.openP, x.openQ, x.send, x.receive, child, fork, SlotOf(x.receive));
    SharingSix(x.openP, x.openQ, x.send, x.receive, child, fork, SlotOf(child));
  }

  // The votes once Q, whose head is `head`, has voted for the fork.
  ghost predicate ForkVoted(v: VoteState, x: Parties, child: Block, fork: Block, now: int) {
    && (forall k :: Siblings(v, k) == Sharing(ForkedBlocks(x, child, fork), k))
    && x.send.hash in v.tallies && v.tallies[x.send.hash] == EmptyTally(now)
    && fork.hash in v.tallies && v.tallies[fork.hash].approveStake > 0 && v.tallies[fork.hash].rejectStake == 0
    && v.tallies[fork.hash].totalStake == v.tallies[fork.hash].approveStake
  }

  lemma ForkUnderVote(env: Env, x: Parties, child: Block, fork: Block, now: int)
    requires Plain(env) && Forked(x, child, fork) && Game(env, ForkedBlocks(x, child, fork), now)
    ensures var bs := ForkedBlocks(x, child, fork);
            var n := Run(env, Submits(bs, now));
            && n.ledger == Table(bs) && HoldsExactly(n.ledger, bs) && n.votes.seen == []
            && (forall k :: Siblings(n.votes, k) == Sharing(bs, k))
            && (forall h :: h in [x.send.hash, fork.hash] ==> h in n.votes.tallies && n.votes.tallies[h] == EmptyTally(now))
            && x.send.hash != fork.hash && x.receive.hash != "" && Lookup(n.ledger.blocks, x.receive.hash) == Some(x.receive)
  {
    var bs := ForkedBlocks(x, child, fork);
    ForkedSlots(env, x, child, fork);
    UnderVote(env, bs, Slot("P", x.openP.hash), now);
    assert bs[3] in bs && x.receive == Sign(env, x.receive);
  }

  lemma VoteForFork(env: Env, x: Parties, child: Block, fork: Block, now: int) returns (es: seq<Event>)
    requires Plain(env) && Forked(x, child, fork) && Game(env, ForkedBlocks(x, child, fork), now)
    ensures Run(env, es).ledger == Table(ForkedBlocks(x, child, fork)) && HoldsExactly(Run(env, es).ledger, ForkedBlocks(x, child, fork))
    ensures ForkVoted(Run(env, es).votes, x, child, fork, now)
  {
    var bs := ForkedBlocks(x, child, fork);
    ForkUnderVote(env, x, child, fork, now);
    assert [x.send.hash, fork.hash][0] == x.send.hash && [x.send.hash, fork.hash][1] == fork.hash;
    es := VoteCounts(env, Submits(bs, now), fork.hash, x.receive, true, now);
  }

  // The run up to the resolution: Q votes for the fork.
  lemma ForkWins(env: Env, now: int) returns (es: seq<Event>, x: Parties, child: Block, fork: Block)
    requires Plain(env)
    ensures Forked(x, child, fork) && HoldsExactly(Run(env, es).ledger, ForkedBlocks(x, child, fork))
    ensures Run(env, es).ledger == Table(ForkedBlocks(x, child, fork)) && Tagged(env, ForkedBlocks(x, child, fork))
    ensures var rejected := ResolveConflicts(Run(env, es).votes, now).rejected;
            && x.send.hash in rejected && x.send.hash in ResolveConflicts(Run(env, es).votes, now).votes.rejected
            && forall b :: b in {x.openP, x.openQ, x.receive, child, fork} ==> b.hash !in rejected
  {
    x, child, fork := ForkedPlays(env, now);
    es := VoteForFork(env, x, child, fork, now);
    ForkTakesSlot(env, es, x, child, fork, now);
  }

  lemma ForkTakesSlot(env: Env, es: seq<Event>, x: Parties, child: Block, fork: Block, now: int)
    requires Plain(env) && Forked(x, child, fork) && Tagged(env, ForkedBlocks(x, child, fork))
    requires ForkVoted(Run(env, es).votes, x, child, fork, now)
    ensures var rejected := ResolveConflicts(Run(env, es).votes, now).rejected;
            && x.send.hash in rejected && x.send.hash in ResolveConflicts(Run(env, es).votes, now).votes.rejected
            && forall b :: b in {x.openP, x.openQ, x.receive, child, fork} ==> b.hash !in rejected
  {
    PlainIsCollisionFree(env);
    ForkedSlots(env, x, child, fork);
    SecondWins(env, es, Slot("P", x.openP.hash), x.send.hash, fork.hash, now);
    forall b | b in {x.openP, x.openQ, x.receive, child}
      ensures b.hash !in ResolveConflicts(Run(env, es).votes, now).rejected
    {
      LoneSurvives(env, es, SlotOf(b), b.hash, now);
    }
  }

  // What the resolution leaves of the ledger.
  lemma OnlyTheSendGoes(s: Ledger, x: Parties, child: Block, fork: Block, rejected: seq<Hash>)
    requires HoldsExactly(s, ForkedBlocks(x, child, fork)) && x.send.hash in rejected
    requires forall b :: b in {x.openP, x.openQ, x.receive, child, fork} ==> b.hash !in rejected
    ensures var t := RejectAll(s, rejected);
            && x.send.hash !in t.blocks && t.accounts == map[]
            && forall b :: b in {x.openP, x.openQ, x.receive, child, fork} ==> Lookup(t.blocks, b.hash) == Some(b)
    ensures forall g :: g in rejected && g in s.blocks ==> s.blocks[g] == x.send
  {
    assert forall b :: b in ForkedBlocks(x, child, fork) <==> b == x.send || b in {x.openP, x.openQ, x.receive, child, fork};
    RejectAllBlocks(s, rejected);
    RejectAllAccounts(s, rejected);
  }

  lemma Aftermath(n: Node, x: Parties, child: Block, fork: Block, now: int)
    requires Forked(x, child, fork) && HoldsExactly(n.ledger, ForkedBlocks(x, child, fork))
    requires n.ledger == Table(ForkedBlocks(x, child, fork))
    requires var rejected := ResolveConflicts(n.votes, now).rejected;
             x.send.hash in rejected && forall b :: b in {x.openP, x.openQ, x.receive, child, fork} ==> b.hash !in rejected
    ensures var s := ProcessConflicts(n, now).ledger;
            && x.send.hash !in s.blocks && s.accounts == map[]
            && (forall b :: b in {x.openP, x.openQ, x.receive, child, fork} ==> Lookup(s.blocks, b.hash) == Some(b))
            && !AllBacked(s.blocks) && !Linked(s.blocks) && BalanceOf(s, "Q") == VERIFICATION_MINT_AMOUNT + 5
  {
    var s := ProcessConflicts(n, now).ledger;
    assert x.receive in ForkedBlocks(x, child, fork);
    OnlyTheSendGoes(n.ledger, x, child, fork, ResolveConflicts(n.votes, now).rejected);
    RejectedSendKeepsCredit(n, now, x.send.hash, x.receive.hash);
    HeadOfReceiver(x, child, fork);
    LostParent(s.blocks, child);
  }

  lemma LostParent(blocks: map<Hash, Block>, b: Block)
    requires Lookup(blocks, b.hash) == Some(b) && !b.kind.Open? && b.previousHash !in blocks
    ensures !Linked(blocks)
  {
    assert !Sound(blocks[b.hash], ParentIn(blocks, blocks[b.hash]));
  }

  lemma HeadOfReceiver(x: Parties, child: Block, fork: Block)
    requires Forked(x, child, fork)
    ensures BalanceOf(Table(ForkedBlocks(x, child, fork)), "Q") == x.receive.balance
  {
    var bs := ForkedBlocks(x, child, fork);
    ChainIsOf(bs, "Q");
    assert bs[..5] == Blocks(x) + [child] && bs[..5][..4] == Blocks(x);
    assert Of(bs, "Q") == Of(bs[..5], "Q") == Of(Blocks(x), "Q");
  }

  // A run in which P's send is received by Q and then loses to a fork: the send goes, and nothing that was built on it.
  // Q's receive stays without its send and Q's balance keeps the amount, while P keeps the fork; P's later block stays
  // without its parent.
  lemma RejectedChain(env: Env, now: int) returns (es: seq<Event>, x: Parties, child: Block, fork: Block)
    requires Plain(env)
    ensures Forked(x, child, fork)
    ensures var s := ProcessConflicts(Run(env, es), now).ledger;
            && x.send.hash !in s.blocks
            && (forall b :: b in {x.openP, x.openQ, x.receive, child, fork} ==> Lookup(s.blocks, b.hash) == Some(b))
            && !AllBacked(s.blocks) && !Linked(s.blocks) && BalanceOf(s, "Q") == VERIFICATION_MINT_AMOUNT + 5
  {
    es, x, child, fork := ForkWins(env, now);
    Aftermath(Run(env, es), x, child, fork, now);
  }

  lemma NextProcess(env: Env, es: seq<Event>, now: int)
    ensures Run(env, es + [Process(now)]) == ProcessConflicts(Run(env, es), now)
  {
    assert (es + [Process(now)])[..|es|] == es;
  }

  // Submitting the rejected send once more stores it again.
  lemma RejectedSendReturns(env: Env, now: int) returns (es: seq<Event>)
    requires Plain(env)
    ensures !NoResubmission(env, es) && !NoneRejected(Run(env, es))
  {
    var before, x, child, fork := ForkWins(env, now);
    Aftermath(Run(env, before), x, child, fork, now);
    NextProcess(env, before, now);
    assert x.send in ForkedBlocks(x, child, fork);
    es := Again(env, before + [Process(now)], x.openP, x.send, now);
  }

  lemma Again(env: Env, es: seq<Event>, parent: Block, b: Block, now: int) returns (more: seq<Event>)
    requires Plain(env) && b == Sign(env, b)
    requires var n := Run(env, es);
             n.ledger.accounts == map[] && b.hash !in n.ledger.blocks && Lookup(n.ledger.blocks, parent.hash) == Some(parent)
             && b.hash in n.votes.rejected
    requires Builds(b, "P", parent, Send, -5, "3") && b.recipient == Some("Q") && b.amount == Some(5)
    requires parent.balance == VERIFICATION_MINT_AMOUNT
    ensures !NoResubmission(env, more) && !NoneRejected(Run(env, more))
  {
    more := es + [Submit(b, now)];
    assert more[..|es|] == es;
    var n := Run(env, es);
    Admitted(env, n.ledger, b, now);
    EveryRunHealthy(env, es);
    ResubmissionStoresRejected(env, n, b, now);
  }

  // ----- Thresholds and timeouts ---------------------------------------------------------------

  // P opens, three others open, and P's opening block gets two children.
  datatype Contest = Contest(openP: Block, openQ: Block, openR: Block, openS: Block, one: Block, two: Block)

  predicate Contested(c: Contest) {
    && IsOpening(c.openP, "P", "1") && IsOpening(c.openQ, "Q", "2") && IsOpening(c.openR, "R", "3") && IsOpening(c.openS, "S", "4")
    && Builds(c.one, "P", c.openP, Send, -1, "5") && Builds(c.two, "P", c.openP, Send, -2, "6")
  }

  function ContestBlocks(c: Contest): seq<Block> {
    [c.openP, c.openQ, c.openR, c.openS, c.one, c.two]
  }

  lemma FourOpenings(env: Env, now: int) returns (p: Block, q: Block, r: Block, s: Block)
    requires Plain(env)
    ensures IsOpening(p, "P", "1") && IsOpening(q, "Q", "2") && IsOpening(r, "R", "3") && IsOpening(s, "S", "4")
    ensures Game(env, [p, q, r, s], now)
  {
    p, q := Openings(env, now);
    r := Opens(env, [p, q], "R", "3", now);
    assert [p, q] + [r] == [p, q, r];
    s := Opens(env, [p, q, r], "S", "4", now);
    assert [p, q, r] + [s] == [p, q, r, s];
  }

  lemma FirstChild(env: Env, p: Block, q: Block, r: Block, s: Block, now: int) returns (one: Block)
    requires Plain(env) && Game(env, [p, q, r, s], now) && IsOpening(p, "P", "1")
    requires IsOpening(q, "Q", "2") && IsOpening(r, "R", "3") && IsOpening(s, "S", "4")
    ensures Builds(one, "P", p, Send, -1, "5") && Game(env, [p, q, r, s, one], now)
  {
    one := Sends(env, [p, q, r, s], "P", p, "Q", 1, "5", now);
    assert [p, q, r, s] + [one] == [p, q, r, s, one];
  }

  lemma ContestPlays(env: Env, now: int) returns (c: Contest)
    requires Plain(env)
    ensures Contested(c) && Game(env, ContestBlocks(c), now)
  {
    var p, q, r, s := FourOpenings(env, now);
    var one := FirstChild(env, p, q, r, s, now);
    var two := Sends(env, [p, q, r, s, one], "P", p, "Q", 2, "6", now);
    c := Contest(p, q, r, s, one, two);
    assert [p, q, r, s, one] + [two] == ContestBlocks(c);
  }

  lemma ContestSlot(env: Env, c: Contest)
    requires Plain(env) && Contested(c) && Tagged(env, ContestBlocks(c))
    ensures Sharing(ContestBlocks(c), Slot("P", c.openP.hash)) == [c.one.hash, c.two.hash] && c.one.hash != c.two.hash
  {
    var bs := ContestBlocks(c);
    TagsTellHashes(env, c.one, c.two);
    assert c.openP == Sign(env, c.openP) && c.openP.hash != ZERO_HASH;
    SharingSix(c.openP, c.openQ, c.openR, c.openS, c.one, c.two, Slot("P", c.openP.hash));
  }

  // The state of the vote: `h` has so much approving and rejecting stake from the accounts that voted, the other nothing.
  ghost predicate Polled(n: Node, c: Contest, h: Hash, approve: int, reject: int, voted: seq<Pub>, now: int) {
    && HoldsExactly(n.ledger, ContestBlocks(c))
    && Siblings(n.votes, Slot("P", c.openP.hash)) == [c.one.hash, c.two.hash] && h in [c.one.hash, c.two.hash]
    && (forall g :: g in [c.one.hash, c.two.hash] ==>
          g in n.votes.tallies && n.votes.tallies[g].createdAt == now && (g != h ==> n.votes.tallies[g] == EmptyTally(now)))
    && var t := n.votes.tallies[h];
       && t.approveStake == approve && t.rejectStake == reject && t.totalStake == approve + reject
       && n.votes.seen == voted && t.votes.Keys == Elements(voted)
  }

  lemma PollStarts(env: Env, c: Contest, h: Hash, now: int)
    requires Plain(env) && Contested(c) && Game(env, ContestBlocks(c), now) && h in [c.one.hash, c.two.hash]
    ensures Polled(Run(env, Submits(ContestBlocks(c), now)), c, h, 0, 0, [], now)
  {
    ContestSlot(env, c);
    UnderVote(env, ContestBlocks(c), Slot("P", c.openP.hash), now);
    assert Elements<Pub>([]) == {};
  }

  lemma PollMore(env: Env, es: seq<Event>, c: Contest, h: Hash, head: Block, yes: bool, approve: int, reject: int, voted: seq<Pub>,
                 now: int) returns (more: seq<Event>)
    requires Polled(Run(env, es), c, h, approve, reject, voted, now) && |voted| < 10
    requires head in ContestBlocks(c) && head.hash != "" && head.balance > 0 && head.accountPub !in voted
    ensures Polled(Run(env, more), c, h, approve + (if yes then head.balance else 0), reject + (if yes then 0 else head.balance),
                   voted + [head.accountPub], now)
  {
    assert head.accountPub !in Elements(voted);
    more := VoteCounts(env, es, h, head, yes, now);
    assert Elements(voted + [head.accountPub]) == Elements(voted) + {head.accountPub};
  }

  // Two of three equal stakes approve: exactly two thirds of the conflict, and the slot is decided without a timeout.
  lemma TwoThirdsDecide(env: Env, now: int) returns (es: seq<Event>, k: Slot)
    requires Plain(env)
    ensures var v := Run(env, es).votes;
            var hs := Siblings(v, k);
            && |hs| == 2 && AllTallied(v.tallies, hs) && now == Oldest(v.tallies, hs)
            && hs[0] in v.tallies && 3 * v.tallies[hs[0]].approveStake == 2 * SlotStake(v.tallies, hs)
            && Decision(v.tallies, hs, now) == Some(hs[0])
  {
    var c := ContestPlays(env, now);
    var m := VERIFICATION_MINT_AMOUNT;
    ContestSlot(env, c);
    es := PollTwoThirds(env, c, now);
    k := Slot("P", c.openP.hash);
    PollDecides(Run(env, es), c, 2 * m, m, ["Q", "R", "S"], now);
  }

  // Everybody is ready to vote.
  lemma PollOpens(env: Env, c: Contest, h: Hash, now: int) returns (es: seq<Event>)
    requires Plain(env) && Contested(c) && Game(env, ContestBlocks(c), now) && h in [c.one.hash, c.two.hash]
    ensures es == Submits(ContestBlocks(c), now) && Polled(Run(env, es), c, h, 0, 0, [], now)
    ensures Voter(c.openQ, "Q", c) && Voter(c.openR, "R", c) && Voter(c.openS, "S", c)
  {
    VotersHold(env, c);
    PollStarts(env, c, h, now);
    es := Submits(ContestBlocks(c), now);
  }

  lemma PollLast(env: Env, es: seq<Event>, c: Contest, h: Hash, approve: int, now: int) returns (more: seq<Event>)
    requires Polled(Run(env, es), c, h, approve, 0, ["Q", "R"], now) && Voter(c.openS, "S", c)
    ensures Polled(Run(env, more), c, h, approve, VERIFICATION_MINT_AMOUNT, ["Q", "R", "S"], now)
  {
    assert ["Q", "R"] + ["S"] == ["Q", "R", "S"];
    more := PollMore(env, es, c, h, c.openS, false, approve, 0, ["Q", "R"], now);
  }

  lemma PollTwoThirds(env: Env, c: Contest, now: int) returns (es: seq<Event>)
    requires Plain(env) && Contested(c) && Game(env, ContestBlocks(c), now)
    ensures var m := VERIFICATION_MINT_AMOUNT; Polled(Run(env, es), c, c.one.hash, 2 * m, m, ["Q", "R", "S"], now)
  {
    var none := PollOpens(env, c, c.one.hash, now);
    var two := PollTwo(env, none, c, c.one.hash, true, now);
    es := PollLast(env, two, c, c.one.hash, 2 * VERIFICATION_MINT_AMOUNT, now);
  }

  predicate Voter(b: Block, pub: Pub, c: Contest) {
    b in ContestBlocks(c) && b.hash != "" && b.balance == VERIFICATION_MINT_AMOUNT && b.accountPub == pub
  }

  lemma VotersHold(env: Env, c: Contest)
    requires Plain(env) && Contested(c) && Tagged(env, ContestBlocks(c))
    ensures Voter(c.openQ, "Q", c) && Voter(c.openR, "R", c) && Voter(c.openS, "S", c)
  {
    assert forall b :: b in ContestBlocks(c) ==> b == Sign(env, b);
  }

  // Q approves, R approves or rejects.
  lemma PollTwo(env: Env, es: seq<Event>, c: Contest, h: Hash, yesR: bool, now: int) returns (more: seq<Event>)
    requires Polled(Run(env, es), c, h, 0, 0, [], now) && Voter(c.openQ, "Q", c) && Voter(c.openR, "R", c)
    ensures var m := VERIFICATION_MINT_AMOUNT;
            Polled(Run(env, more), c, h, if yesR then 2 * m else m, if yesR then 0 else m, ["Q", "R"], now)
  {
    assert [] + ["Q"] == ["Q"] && ["Q"] + ["R"] == ["Q", "R"];
    var one := PollMore(env, es, c, h, c.openQ, true, 0, 0, [], now);
    more := PollMore(env, one, c, h, c.openR, yesR, VERIFICATION_MINT_AMOUNT, 0, ["Q"], now);
  }

  // What the tallies of a poll decide for the first sibling.
  lemma PollDecides(n: Node, c: Contest, approve: int, reject: int, voted: seq<Pub>, now: int)
    requires Polled(n, c, c.one.hash, approve, reject, voted, now) && c.one.hash != c.two.hash
    requires approve > 0 && reject >= 0 && approve == 2 * reject
    ensures var hs := Siblings(n.votes, Slot("P", c.openP.hash));
            && AllTallied(n.votes.tallies, hs) && now == Oldest(n.votes.tallies, hs)
            && hs[0] in n.votes.tallies && 3 * n.votes.tallies[hs[0]].approveStake == 2 * SlotStake(n.votes.tallies, hs)
            && Decision(n.votes.tallies, hs, now) == Some(hs[0])
  {
    var hs := [c.one.hash, c.two.hash];
    assert hs[0] in hs && hs[1] in hs;
    StakeOfTwo(n.votes.tallies, hs);
    assert hs[..1] == [c.one.hash];
    assert Leader(n.votes.tallies, hs) == 0;
  }

  // One approves and one rejects the sibling that is not the earliest, and nobody votes on the earliest: nothing is
  // decided at first, and the timeout picks the later block.
  lemma TimeoutPicksLater(env: Env, now: int) returns (es: seq<Event>, k: Slot, later: Hash)
    requires Plain(env)
    ensures var n := Run(env, es);
            var hs := Siblings(n.votes, k);
            && later in hs && FullView(n.ledger.blocks, Elements(hs)) && !Approvable(n.ledger.blocks, Elements(hs), later)
            && Decision(n.votes.tallies, hs, now) == None
            && Decision(n.votes.tallies, hs, now + CONFLICT_RESOLVE_TIMEOUT_MS + 1) == Some(later)
  {
    var c := ContestPlays(env, now);
    ContestSlot(env, c);
    later := LaterOf(env, c);
    es := PollHalf(env, c, later, now);
    k := Slot("P", c.openP.hash);
    ContestView(Run(env, es).ledger, c, later);
    TimeoutDecides(Run(env, es), c, later, VERIFICATION_MINT_AMOUNT, ["Q", "R"], now);
  }

  // One of the two children is not approvable in the game's ledger.
  lemma LaterOf(env: Env, c: Contest) returns (later: Hash)
    requires Plain(env) && Tagged(env, ContestBlocks(c)) && c.one.hash != c.two.hash
    ensures later in [c.one.hash, c.two.hash]
    ensures forall view :: HoldsChildren(view, c) ==> !Approvable(view, {c.one.hash, c.two.hash}, later)
  {
    later := if Earlier(c.one, c.two) then c.two.hash else c.one.hash;
    BeforeIsTotal(c.one.hash, c.two.hash);
  }

  predicate HoldsChildren(view: map<Hash, Block>, c: Contest) {
    Lookup(view, c.one.hash) == Some(c.one) && Lookup(view, c.two.hash) == Some(c.two)
  }

  lemma ContestView(s: Ledger, c: Contest, later: Hash)
    requires HoldsExactly(s, ContestBlocks(c)) && later in [c.one.hash, c.two.hash]
    requires forall view :: HoldsChildren(view, c) ==> !Approvable(view, {c.one.hash, c.two.hash}, later)
    ensures var hs := [c.one.hash, c.two.hash];
            FullView(s.blocks, Elements(hs)) && later in s.blocks && !Approvable(s.blocks, Elements(hs), later)
  {
    assert c.one in ContestBlocks(c) && c.two in ContestBlocks(c);
    assert HoldsChildren(s.blocks, c);
    assert Elements([c.one.hash, c.two.hash]) == {c.one.hash, c.two.hash};
  }

  lemma PollHalf(env: Env, c: Contest, h: Hash, now: int) returns (es: seq<Event>)
    requires Plain(env) && Contested(c) && Game(env, ContestBlocks(c), now) && h in [c.one.hash, c.two.hash]
    ensures var m := VERIFICATION_MINT_AMOUNT; Polled(Run(env, es), c, h, m, m, ["Q", "R"], now)
  {
    var none := PollOpens(env, c, h, now);
    es := PollTwo(env, none, c, h, false, now);
  }

  lemma TimeoutDecides(n: Node, c: Contest, h: Hash, stake: int, voted: seq<Pub>, now: int)
    requires Polled(n, c, h, stake, stake, voted, now) && c.one.hash != c.two.hash && stake > 0
    ensures var hs := Siblings(n.votes, Slot("P", c.openP.hash));
            && Decision(n.votes.tallies, hs, now) == None
            && Decision(n.votes.tallies, hs, now + CONFLICT_RESOLVE_TIMEOUT_MS + 1) == Some(h)
  {
    var hs := [c.one.hash, c.two.hash];
    assert hs[0] in hs && hs[1] in hs;
    assert hs[..1] == [c.one.hash];
    assert hs[Leader(n.votes.tallies, hs)] == h;
    assert now == Oldest(n.votes.tallies, hs);
  }

  lemma StakeOfTwo(tallies: map<Hash, Tally>, hs: seq<Hash>)
    requires |hs| == 2 && AllTallied(tallies, hs)
    ensures hs[0] in hs && hs[1] in hs && SlotStake(tallies, hs) == tallies[hs[0]].totalStake + tallies[hs[1]].totalStake
  {
    assert hs[0] in hs && hs[1] in hs && hs[..1] == [hs[0]] && [hs[0]][..0] == [];
    assert SlotStake(tallies, hs[..1]) == tallies[hs[0]].totalStake;
  }

  // ----- One vote for each ---------------------------------------------------------------------

  lemma PollOne(env: Env, c: Contest, h: Hash, now: int) returns (es: seq<Event>)
    requires Plain(env) && Contested(c) && Game(env, ContestBlocks(c), now) && h in [c.one.hash, c.two.hash]
    ensures Polled(Run(env, es), c, h, VERIFICATION_MINT_AMOUNT, 0, ["Q"], now) && Voter(c.openR, "R", c)
    ensures CountedApproval(Run(env, es).votes, h) && Run(env, es).ledger == Table(ContestBlocks(c))
  {
    var none := PollOpens(env, c, h, now);
    UnderVoteTable(env, c, now);
    es := ApproveFirst(env, none, c, h, now);
  }

  lemma UnderVoteTable(env: Env, c: Contest, now: int)
    requires Plain(env) && Contested(c) && Game(env, ContestBlocks(c), now)
    ensures Run(env, Submits(ContestBlocks(c), now)).ledger == Table(ContestBlocks(c))
  {
    Played(env, ContestBlocks(c), now);
  }

  lemma ApproveFirst(env: Env, es: seq<Event>, c: Contest, h: Hash, now: int) returns (more: seq<Event>)
    requires Polled(Run(env, es), c, h, 0, 0, [], now) && Voter(c.openQ, "Q", c)
    ensures Polled(Run(env, more), c, h, VERIFICATION_MINT_AMOUNT, 0, ["Q"], now)
    ensures CountedApproval(Run(env, more).votes, h) && Run(env, more).ledger == Run(env, es).ledger
  {
    more := VoteCounts(env, es, h, c.openQ, true, now);
    assert Run(env, more).votes.tallies[h].votes["Q"] == Voting(h, c.openQ, true, now).(stake := VERIFICATION_MINT_AMOUNT);
    assert Elements(["Q"]) == {"Q"};
  }

  // The poll with an approval for each sibling.
  ghost predicate OneEach(n: Node, c: Contest, now: int) {
    && Siblings(n.votes, Slot("P", c.openP.hash)) == [c.one.hash, c.two.hash]
    && forall h :: h in [c.one.hash, c.two.hash] ==>
         && h in n.votes.tallies && n.votes.tallies[h].createdAt == now
         && n.votes.tallies[h].approveStake == n.votes.tallies[h].totalStake == VERIFICATION_MINT_AMOUNT
  }

  lemma ApproveOther(env: Env, es: seq<Event>, c: Contest, now: int) returns (more: seq<Event>)
    requires Polled(Run(env, es), c, c.one.hash, VERIFICATION_MINT_AMOUNT, 0, ["Q"], now) && Voter(c.openR, "R", c)
    requires c.one.hash != c.two.hash
    ensures OneEach(Run(env, more), c, now)
  {
    assert [c.one.hash, c.two.hash][1] in [c.one.hash, c.two.hash];
    more := VoteCounts(env, es, c.two.hash, c.openR, true, now);
  }

  lemma OneEachDecides(n: Node, c: Contest, now: int)
    requires OneEach(n, c, now)
    ensures var hs := [c.one.hash, c.two.hash];
            && AllTallied(n.votes.tallies, hs) && now == Oldest(n.votes.tallies, hs)
            && (forall h :: h in hs ==> 2 * n.votes.tallies[h].approveStake == SlotStake(n.votes.tallies, hs) && !Quorum(n.votes.tallies, hs, h))
            && Decision(n.votes.tallies, hs, now) == Some(hs[0])
  {
    var hs := [c.one.hash, c.two.hash];
    StakeOfTwo(n.votes.tallies, hs);
    assert hs[..1] == [c.one.hash];
    assert Leader(n.votes.tallies, hs) == 0;
  }

  // One approves the first sibling and one the second, with equal stakes: the slot is decided at once, although the
  // winner has exactly half of the stake.
  lemma HalfDecides(env: Env, now: int) returns (es: seq<Event>, k: Slot)
    requires Plain(env)
    ensures var v := Run(env, es).votes;
            var hs := Siblings(v, k);
            && |hs| == 2 && AllTallied(v.tallies, hs) && now == Oldest(v.tallies, hs)
            && (forall h :: h in hs ==> 2 * v.tallies[h].approveStake == SlotStake(v.tallies, hs) && !Quorum(v.tallies, hs, h))
            && Decision(v.tallies, hs, now) == Some(hs[0])
  {
    var c := ContestPlays(env, now);
    ContestSlot(env, c);
    var one := PollOne(env, c, c.one.hash, now);
    es := ApproveOther(env, one, c, now);
    k := Slot("P", c.openP.hash);
    OneEachDecides(Run(env, es), c, now);
  }

  lemma OneDecides(n: Node, c: Contest, h: Hash, now: int)
    requires Polled(n, c, h, VERIFICATION_MINT_AMOUNT, 0, ["Q"], now) && c.one.hash != c.two.hash
    ensures Decision(n.votes.tallies, Siblings(n.votes, Slot("P", c.openP.hash)), now) == Some(h)
  {
    var hs := [c.one.hash, c.two.hash];
    assert hs[0] in hs && hs[1] in hs;
    OnlyApprovedWins(n.votes.tallies, hs, h, now);
  }

  // Two nodes with equal ledgers and siblings, each of which has counted one approval of an ordinary account, but not of
  // the same block: they decide at once for different siblings. One of the votes does not follow the rule.
  lemma NetworkSplits(env: Env, now: int) returns (es: seq<Event>, fs: seq<Event>, k: Slot, g: Hash, h: Hash)
    requires Plain(env)
    ensures Run(env, es).ledger == Run(env, fs).ledger && Siblings(Run(env, es).votes, k) == Siblings(Run(env, fs).votes, k)
    ensures CountedApproval(Run(env, es).votes, g) && CountedApproval(Run(env, fs).votes, h) && g != h
    ensures Decision(Run(env, es).votes.tallies, Siblings(Run(env, es).votes, k), now) == Some(g)
    ensures Decision(Run(env, fs).votes.tallies, Siblings(Run(env, fs).votes, k), now) == Some(h)
    ensures var siblings := Elements(Siblings(Run(env, es).votes, k));
            forall view :: FullView(view, siblings) ==>
              !(CountsRuled(Run(env, es).votes, view, siblings) && CountsRuled(Run(env, fs).votes, view, siblings))
  {
    var c := ContestPlays(env, now);
    ContestSlot(env, c);
    g, h, k := c.one.hash, c.two.hash, Slot("P", c.openP.hash);
    es := PollOne(env, c, g, now);
    fs := PollOne(env, c, h, now);
    OneDecides(Run(env, es), c, g, now);
    OneDecides(Run(env, fs), c, h, now);
    SplitBreaksRule(env, es, fs, k, g, h);
  }

  lemma SplitBreaksRule(env: Env, es: seq<Event>, fs: seq<Event>, k: Slot, g: Hash, h: Hash)
    requires Plain(env) && Siblings(Run(env, es).votes, k) == Siblings(Run(env, fs).votes, k) == [g, h] && g != h
    requires CountedApproval(Run(env, es).votes, g) && CountedApproval(Run(env, fs).votes, h)
    ensures var siblings := Elements(Siblings(Run(env, es).votes, k));
            forall view :: FullView(view, siblings) ==>
              !(CountsRuled(Run(env, es).votes, view, siblings) && CountsRuled(Run(env, fs).votes, view, siblings))
  {
    var siblings := Elements([g, h]);
    assert [g, h][0] in siblings && [g, h][1] in siblings;
    PlainIsCollisionFree(env);
    forall view | FullView(view, siblings) && CountsRuled(Run(env, es).votes, view, siblings) && CountsRuled(Run(env, fs).votes, view, siblings)
      ensures false
    {
      NodesAgree(env, es, fs, k, view, siblings, g, h, 0, 0);
    }
  }
}
