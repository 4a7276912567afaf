// src/network/node.ts: voting on conflicting blocks, and bootstrapping from a snapshot.
module NeuronNode {
  import opened Basics
  import opened DagBlock
  import opened LedgerState
  import opened Votes
  import opened Nodes
  import opened VoteSafety
  import opened VoteAgreement
  import opened Snapshot
  import VM = VoteManager
  import DL = DagLedger

  // The signature createVote puts on a vote's other fields.
  type Signer = Vote -> string

  function Ballot(s: Ledger, b: Block, pub: Pub, approve: bool, abstain: bool, now: int, sign: Signer): Vote {
    var head := match Head(s, pub) case Some(h) => Some(h.hash) case None => None;
    var unsigned := Vote(b.hash, pub, approve, BalanceOf(s, pub), now, "", head, abstain);
    unsigned.(signature := sign(unsigned))
  }

  // One vote from every local account with a balance, in turn.
  function VoteAll(n: Node, b: Block, pubs: seq<Pub>, approve: bool, abstain: bool, now: int, sign: Signer): Node {
    if pubs == [] then n
    else
      var before := VoteAll(n, b, pubs[..|pubs| - 1], approve, abstain, now, sign);
      var pub := pubs[|pubs| - 1];
      if BalanceOf(n.ledger, pub) <= 0 then before
      else CastVote(before, Ballot(n.ledger, b, pub, approve, abstain, now, sign), now)
  }

  lemma VoteAllMore(n: Node, b: Block, pubs: seq<Pub>, i: nat, approve: bool, abstain: bool, now: int, sign: Signer)
    requires i < |pubs|
    ensures var before := VoteAll(n, b, pubs[..i], approve, abstain, now, sign);
            VoteAll(n, b, pubs[..i + 1], approve, abstain, now, sign) ==
            if BalanceOf(n.ledger, pubs[i]) <= 0 then before
            else CastVote(before, Ballot(n.ledger, b, pubs[i], approve, abstain, now, sign), now)
  {
    assert pubs[..i + 1][..i] == pubs[..i];
  }

  predicate HasParentContext(s: Ledger, b: Block) {
    b.index == 0 || b.previousHash in s.blocks
  }

  // Approve unless the account is locked out or a stored competitor has a smaller timestamp, or the same and a smaller hash.
  predicate Approved(s: Ledger, b: Block, competitors: seq<Hash>, locked: bool) {
    !locked && forall h :: h in competitors && h in s.blocks ==>
      !(s.blocks[h].timestamp < b.timestamp || (s.blocks[h].timestamp == b.timestamp && Before(h, b.hash)))
  }

  function ConflictVotes(n: Node, b: Block, pubs: seq<Pub>, locked: bool, now: int, sign: Signer): Node {
    if GetStatus(n.votes, b.hash) != InConflict then n
    else if !HasParentContext(n.ledger, b) then VoteAll(n, b, pubs, false, true, now, sign)
    else VoteAll(n, b, pubs, Approved(n.ledger, b, VM.CompetitorsIn(n.votes, n.votes.slotOrder, b.hash), locked), false, now, sign)
  }

  lemma {:induction false} VotingKeepsLedger(n: Node, b: Block, pubs: seq<Pub>, approve: bool, abstain: bool, now: int, sign: Signer)
    ensures VoteAll(n, b, pubs, approve, abstain, now, sign).ledger == n.ledger
  {
    if pubs != [] {
      VotingKeepsLedger(n, b, pubs[..|pubs| - 1], approve, abstain, now, sign);
    }
  }

  // ----- The votes of a node follow the rule ---------------------------------------------------

  lemma {:induction false} CompetitorsAreSiblings(env: Env, v: VoteState, slots: seq<Slot>, h: Hash)
    requires SiblingsAtHome(env, v.siblings)
    ensures VM.CompetitorsIn(v, slots, h) ==
            if Home(env, h) in slots && h in Siblings(v, Home(env, h)) && |Siblings(v, Home(env, h))| > 1 then
              Losers(Siblings(v, Home(env, h)), h)
            else []
  {
    if slots != [] {
      CompetitorsAreSiblings(env, v, slots[1..], h);
      assert slots == [slots[0]] + slots[1..];
      assert h in Siblings(v, slots[0]) ==> slots[0] in v.siblings && Home(env, h) == slots[0];
    }
  }

  lemma StateAppliesRule(env: Env, n: Node, b: Block, locked: bool)
    requires Safe(env, n.votes) && StoredListed(n) && Home(env, b.hash) == SlotOf(b)
    requires GetStatus(n.votes, b.hash) == InConflict && Lookup(n.ledger.blocks, b.hash) == Some(b)
    ensures Approved(n.ledger, b, VM.CompetitorsIn(n.votes, n.votes.slotOrder, b.hash), locked) <==>
            !locked && Approvable(n.ledger.blocks, Elements(Siblings(n.votes, SlotOf(b))), b.hash)
  {
    var hs := Siblings(n.votes, SlotOf(b));
    assert b.hash in hs && SlotSettled(n.votes, hs);
    assert SlotOf(b) in n.votes.slotOrder;
    CompetitorsAreSiblings(env, n.votes, n.votes.slotOrder, b.hash);
    LosersAreTheOthers(hs, b.hash);
    assert forall h :: h in hs && h in n.ledger.blocks ==> n.ledger.blocks[h].hash == h;
    assert forall h :: h in Losers(hs, b.hash) <==> h in Elements(hs) && h != b.hash;
  }

  // In every reachable state of a node that stores a block under vote, what the node approves is exactly what the rule
  // approves of the siblings it stores, unless the account is locked out.
  lemma NodeAppliesRule(env: Env, es: seq<Event>, b: Block, locked: bool)
    requires CollisionFree(env) && HashMatches(env, b)
    requires var n := Run(env, es);
             && GetStatus(n.votes, b.hash) == InConflict && Lookup(n.ledger.blocks, b.hash) == Some(b)
    ensures var n := Run(env, es);
            Approved(n.ledger, b, VM.CompetitorsIn(n.votes, n.votes.slotOrder, b.hash), locked) <==>
            !locked && Approvable(n.ledger.blocks, Elements(Siblings(n.votes, SlotOf(b))), b.hash)
  {
    EveryRunSafe(env, es);
    EveryRunListed(env, es);
    HomeOfBlock(env, b);
    StateAppliesRule(env, Run(env, es), b, locked);
  }

  // The votes VoteAll casts, as steps of a run.
  function Ballots(s: Ledger, b: Block, pubs: seq<Pub>, approve: bool, abstain: bool, now: int, sign: Signer): seq<Event> {
    if pubs == [] then []
    else
      var pub := pubs[|pubs| - 1];
      Ballots(s, b, pubs[..|pubs| - 1], approve, abstain, now, sign)
        + if BalanceOf(s, pub) <= 0 then [] else [Cast(Ballot(s, b, pub, approve, abstain, now, sign), now)]
  }

  lemma {:induction false} VotingIsCasting(env: Env, es: seq<Event>, b: Block, pubs: seq<Pub>, approve: bool, abstain: bool,
                                           now: int, sign: Signer)
    ensures var n := Run(env, es);
            Run(env, es + Ballots(n.ledger, b, pubs, approve, abstain, now, sign)) == VoteAll(n, b, pubs, approve, abstain, now, sign)
    ensures forall e :: e in Ballots(Run(env, es).ledger, b, pubs, approve, abstain, now, sign) ==>
              e.Cast? && e.vote.blockHash == b.hash && e.vote.approve == approve && e.vote.abstain == abstain
  {
    var s := Run(env, es).ledger;
    var all := es + Ballots(s, b, pubs, approve, abstain, now, sign);
    if pubs == [] {
      assert all == es;
    } else {
      var init, pub := pubs[..|pubs| - 1], pubs[|pubs| - 1];
      var before := es + Ballots(s, b, init, approve, abstain, now, sign);
      VotingIsCasting(env, es, b, init, approve, abstain, now, sign);
      if BalanceOf(s, pub) <= 0 {
        assert all == before;
      } else {
        assert all == before + [Cast(Ballot(s, b, pub, approve, abstain, now, sign), now)];
        assert all[..|all| - 1] == before;
      }
    }
  }

  // The votes voteIfConflict casts on a block of an unlocked account.
  function NodeBallots(n: Node, b: Block, pubs: seq<Pub>, now: int, sign: Signer): seq<Event> {
    if GetStatus(n.votes, b.hash) != InConflict then []
    else if !HasParentContext(n.ledger, b) then Ballots(n.ledger, b, pubs, false, true, now, sign)
    else Ballots(n.ledger, b, pubs, Approved(n.ledger, b, VM.CompetitorsIn(n.votes, n.votes.slotOrder, b.hash), false), false, now, sign)
  }

  // A node that has the block under vote and stores all its siblings, as the view has them.
  ghost predicate SeesSiblings(env: Env, es: seq<Event>, b: Block, view: map<Hash, Block>, siblings: set<Hash>) {
    var n := Run(env, es);
    && HashMatches(env, b) && GetStatus(n.votes, b.hash) == InConflict && Lookup(n.ledger.blocks, b.hash) == Some(b)
    && Elements(Siblings(n.votes, SlotOf(b))) == siblings
    && forall h :: h in siblings ==> h in n.ledger.blocks && Lookup(view, h) == Some(n.ledger.blocks[h])
  }

  // voteIfConflict, in every reachable state of such a node and for an unlocked account, is a sequence of votes that
  // follow the rule: what the agreement theorems ask of the votes that reach a node.
  lemma NodeVotesFollowRule(env: Env, es: seq<Event>, b: Block, pubs: seq<Pub>, now: int, sign: Signer,
                            view: map<Hash, Block>, siblings: set<Hash>)
    requires CollisionFree(env) && SeesSiblings(env, es, b, view, siblings)
    ensures var cast := NodeBallots(Run(env, es), b, pubs, now, sign);
            && Run(env, es + cast) == ConflictVotes(Run(env, es), b, pubs, false, now, sign)
            && b.hash in siblings && siblings <= view.Keys && FollowsRule(cast, view, siblings)
            && forall e :: e in cast ==> e.Cast? && e.vote.blockHash == b.hash
  {
    var n := Run(env, es);
    var blind := !HasParentContext(n.ledger, b);
    var approve := !blind && Approved(n.ledger, b, VM.CompetitorsIn(n.votes, n.votes.slotOrder, b.hash), false);
    SeenIsSibling(env, es, b, view, siblings);
    VotingIsCasting(env, es, b, pubs, approve, blind, now, sign);
  }

  // The block is one of the siblings, and the node's approval is the rule's, on the view as on its own ledger.
  lemma SeenIsSibling(env: Env, es: seq<Event>, b: Block, view: map<Hash, Block>, siblings: set<Hash>)
    requires CollisionFree(env) && SeesSiblings(env, es, b, view, siblings)
    ensures b.hash in siblings && siblings <= view.Keys
    ensures var n := Run(env, es);
            Approved(n.ledger, b, VM.CompetitorsIn(n.votes, n.votes.slotOrder, b.hash), false) <==> Approvable(view, siblings, b.hash)
  {
    NodeAppliesRule(env, es, b, false);
    EveryRunListed(env, es);
  }

  // ----- A network -----------------------------------------------------------------------------

  // The vote was cast by some node that sees all siblings, whatever stake it claimed.
  ghost predicate FromNode(env: Env, vote: Vote, view: map<Hash, Block>, siblings: set<Hash>) {
    exists es, b, pubs, now, sign, claimed ::
      SeesSiblings(env, es, b, view, siblings) && Cast(vote.(stake := claimed), now) in NodeBallots(Run(env, es), b, pubs, now, sign)
  }

  // Every vote counted on one of the siblings was.
  ghost predicate CountsNodes(env: Env, v: VoteState, view: map<Hash, Block>, siblings: set<Hash>) {
    forall h, p :: h in siblings && h in v.tallies && p in v.tallies[h].votes ==> FromNode(env, v.tallies[h].votes[p], view, siblings)
  }

  lemma FromNodeIsRuled(env: Env, vote: Vote, view: map<Hash, Block>, siblings: set<Hash>)
    requires CollisionFree(env) && FromNode(env, vote, view, siblings)
    ensures siblings <= view.Keys && vote.blockHash in view && RuledVote(vote, view, siblings)
  {
    var es, b, pubs, now, sign, claimed :|
      SeesSiblings(env, es, b, view, siblings) && Cast(vote.(stake := claimed), now) in NodeBallots(Run(env, es), b, pubs, now, sign);
    NodeVotesFollowRule(env, es, b, pubs, now, sign, view, siblings);
    assert RuledVote(Cast(vote.(stake := claimed), now).vote, view, siblings);
  }

  lemma NodesCountRuled(env: Env, es: seq<Event>, view: map<Hash, Block>, siblings: set<Hash>)
    requires CollisionFree(env) && siblings <= view.Keys && CountsNodes(env, Run(env, es).votes, view, siblings)
    ensures CountsRuled(Run(env, es).votes, view, siblings)
  {
    var v := Run(env, es).votes;
    EveryTallyAccounted(env, es);
    forall h, p | h in siblings && h in v.tallies && p in v.tallies[h].votes
      ensures v.tallies[h].votes[p].blockHash == h && RuledVote(v.tallies[h].votes[p], view, siblings)
    {
      assert TallyFits(env, es, h, v.tallies[h]) && WasCast(env, es, h, p, v.tallies[h].votes[p]);
      FromNodeIsRuled(env, v.tallies[h].votes[p], view, siblings);
    }
  }

  // A network in which every vote counted on a conflict was cast by voteIfConflict of some node that stores all the
  // siblings, for an unlocked account: any two nodes that have counted an approval confirm the same sibling at their
  // next resolution and reject all others, in whatever order blocks and votes arrived and whatever their clocks say.
  lemma NetworkAgrees(env: Env, es: seq<Event>, fs: seq<Event>, k: Slot, view: map<Hash, Block>, siblings: set<Hash>,
                      g: Hash, h: Hash, now: int, later: int)
    requires CollisionFree(env) && k in Run(env, es).votes.siblings && k in Run(env, fs).votes.siblings
    requires Elements(Run(env, es).votes.siblings[k]) == siblings == Elements(Run(env, fs).votes.siblings[k])
    requires FullView(view, siblings)
    requires CountsNodes(env, Run(env, es).votes, view, siblings) && CountsNodes(env, Run(env, fs).votes, view, siblings)
    requires g in siblings && CountedApproval(Run(env, es).votes, g)
    requires h in siblings && CountedApproval(Run(env, fs).votes, h)
    ensures g == h && Approvable(view, siblings, g)
    ensures DecidedSlot(ProcessConflicts(Run(env, es), now).votes, Run(env, es).votes.siblings[k], g)
    ensures DecidedSlot(ProcessConflicts(Run(env, fs), later).votes, Run(env, fs).votes.siblings[k], g)
  {
    NodesCountRuled(env, es, view, siblings);
    NodesCountRuled(env, fs, view, siblings);
    ApprovalMeansApprovable(env, es, g, view, siblings);
    NodesAgree(env, es, fs, k, view, siblings, g, h, now, later);
    NodesConfirmSame(env, es, fs, k, view, siblings, g, h, now, later);
  }

  // A parsed snapshot; its network is the main network or the test network.
  datatype LedgerSnapshot = LedgerSnapshot(mainnet: bool, accounts: seq<(Pub, Account)>, blocks: seq<Block>)

  class NeuronNode {
    const ledger: DL.DAGLedger
    const localKeys: seq<Pub>
    const sign: Signer

    constructor (ledger: DL.DAGLedger, localKeys: seq<Pub>, sign: Signer)
      ensures this.ledger == ledger && this.localKeys == localKeys && this.sign == sign
    {
      this.ledger, this.localKeys, this.sign := ledger, localKeys, sign;
    }

    method DecideApproval(block: Block, isLocked: bool) returns (approve: bool)
      ensures var n := ledger.State();
              approve <==> Approved(n.ledger, block, VM.CompetitorsIn(n.votes, n.votes.slotOrder, block.hash), isLocked)
    {
      var siblings := ledger.votes.GetSiblings(block.hash);
      approve := !isLocked;
      if approve {
        for i := 0 to |siblings|
          invariant Approved(ledger.Books(), block, siblings[..i], isLocked)
        {
          assert siblings[..i + 1] == siblings[..i] + [siblings[i]];
          var sibHash := siblings[i];
          if sibHash in ledger.allBlocks {
            var sib := ledger.allBlocks[sibHash];
            if sib.timestamp < block.timestamp || (sib.timestamp == block.timestamp && Before(sibHash, block.hash)) {
              return false;
            }
          }
        }
        assert siblings[..|siblings|] == siblings;
      }
    }

    // The vote of one local account, if it has a balance.
    method CastLocalVote(block: Block, pub: Pub, approve: bool, abstain: bool, now: int)
      modifies ledger.votes
      ensures ledger.Books() == old(ledger.Books())
      ensures var s := ledger.Books();
              ledger.State() == if BalanceOf(s, pub) <= 0 then old(ledger.State())
                                else CastVote(old(ledger.State()), Ballot(s, block, pub, approve, abstain, now, sign), now)
    {
      var chain := if pub in ledger.accountChains then ledger.accountChains[pub] else [];
      if chain != [] && chain[|chain| - 1].balance > 0 {
        var head := chain[|chain| - 1];
        var unsigned := Vote(block.hash, pub, approve, head.balance, now, "", Some(head.hash), abstain);
        ledger.CastVote(unsigned.(signature := sign(unsigned)), now);
      }
    }

    method CastLocalVotes(block: Block, approve: bool, abstain: bool, now: int)
      modifies ledger.votes
      ensures ledger.State() == VoteAll(old(ledger.State()), block, localKeys, approve, abstain, now, sign)
    {
      for i := 0 to |localKeys|
        invariant ledger.State() == VoteAll(old(ledger.State()), block, localKeys[..i], approve, abstain, now, sign)
        invariant ledger.Books() == old(ledger.Books())
      {
        VoteAllMore(old(ledger.State()), block, localKeys, i, approve, abstain, now, sign);
        CastLocalVote(block, localKeys[i], approve, abstain, now);
      }
      assert localKeys[..|localKeys|] == localKeys;
    }

    method VoteIfConflict(block: Block, isLocked: bool, now: int)
      modifies ledger.votes
      ensures ledger.State() == ConflictVotes(old(ledger.State()), block, localKeys, isLocked, now, sign)
    {
      if block.hash in ledger.votes.confirmedBlocks || block.hash in ledger.votes.rejectedBlocks
         || block.hash !in ledger.votes.tallies { return; }
      if block.index != 0 && block.previousHash !in ledger.allBlocks {
        CastLocalVotes(block, false, true, now);
        return;
      }
      var approve := DecideApproval(block, isLocked);
      CastLocalVotes(block, approve, false, now);
    }

    // applySnapshot, for the snapshot the data parse to, if they parse.
    method ApplySnapshot(snap: Option<LedgerSnapshot>, now: int) returns (applied: bool)
      modifies ledger, ledger.votes
      ensures applied <==> old(ledger.allBlocks) == map[] && snap.Some? && snap.value.mainnet == ledger.env.mainnet
      ensures ledger.Books() == if applied then Replay(ledger.env, Enrolled(old(ledger.Books()), snap.value.accounts), snap.value.blocks, now)
                                else old(ledger.Books())
    {
      if ledger.allBlocks != map[] { return false; }
      if snap.None? || snap.value.mainnet != ledger.env.mainnet { return false; }
      var accounts, blocks := snap.value.accounts, snap.value.blocks;
      for i := 0 to |accounts|
        invariant ledger.Books() == Enrolled(old(ledger.Books()), accounts[..i])
      {
        assert accounts[..i + 1][..i] == accounts[..i];
        ledger.RegisterAccount(accounts[i].0, accounts[i].1);
      }
      assert accounts[..|accounts|] == accounts;
      ghost var start := Enrolled(old(ledger.Books()), accounts);
      for i := 0 to |blocks|
        invariant ledger.Books() == Replay(ledger.env, start, blocks[..i], now)
      {
        assert blocks[..i + 1][..i] == blocks[..i];
        var verdict := ledger.AddBlock(blocks[i], now);
      }
      assert blocks[..|blocks|] == blocks;
      return true;
    }
  }
}
