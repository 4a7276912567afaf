// The votes of a node's own accounts count: each account with a balance that has not voted on a block under vote is in its
// tally after voteIfConflict, with its balance and the stance of the node.
module NodeVotes {
  import opened Basics
  import opened DagBlock
  import opened LedgerState
  import opened Votes
  import opened Nodes
  import opened Consistency
  import opened Health
  import opened VoteAgreement
  import opened VoteCounting
  import opened NeuronNode

  predicate Funded(s: Ledger, pub: Pub) {
    && pub in s.chains && s.chains[pub] != []
    && s.chains[pub][|s.chains[pub]| - 1].balance > 0 && s.chains[pub][|s.chains[pub]| - 1].hash != ""
  }

  // The text an account signs for its vote: its whole balance, shown by its chain head.
  function Paper(s: Ledger, b: Block, pub: Pub, approve: bool, abstain: bool, now: int): Vote
    requires Funded(s, pub)
  {
    var head := s.chains[pub][|s.chains[pub]| - 1];
    Vote(b.hash, pub, approve, head.balance, now, "", Some(head.hash), abstain)
  }

  // The account's signature is new to the node, and no other local account's is the same.
  ghost predicate NewSignature(n: Node, b: Block, pubs: seq<Pub>, pub: Pub, approve: bool, abstain: bool, now: int, sign: Signer) {
    Funded(n.ledger, pub) ==>
      && sign(Paper(n.ledger, b, pub, approve, abstain, now)) !in n.votes.seen
      && forall q :: q in pubs && q != pub && Funded(n.ledger, q) ==>
           sign(Paper(n.ledger, b, q, approve, abstain, now)) != sign(Paper(n.ledger, b, pub, approve, abstain, now))
  }

  // The vote of the account is recorded with its balance and the stance.
  predicate Recorded(n: Node, b: Block, pub: Pub, approve: bool, abstain: bool) {
    && Funded(n.ledger, pub) && b.hash in n.votes.tallies && pub in n.votes.tallies[b.hash].votes
    && var v := n.votes.tallies[b.hash].votes[pub];
       && v.blockHash == b.hash && v.approve == approve && v.abstain == abstain
       && v.stake == n.ledger.chains[pub][|n.ledger.chains[pub]| - 1].balance
  }

  // The ballot is the signed paper, and shows the account's balance.
  lemma BallotIs(s: Ledger, b: Block, pub: Pub, approve: bool, abstain: bool, now: int, sign: Signer)
    requires ChainsStored(s.blocks, s.chains) && Funded(s, pub)
    ensures var paper := Paper(s, b, pub, approve, abstain, now);
            var ballot := Ballot(s, b, pub, approve, abstain, now, sign);
            && ballot == paper.(signature := sign(paper)) && BalanceOf(s, pub) > 0
            && ShowsOwn(s, ballot) && ShownStake(s, ballot) == s.chains[pub][|s.chains[pub]| - 1].balance
  {
    assert ChainOf(s.blocks, pub, s.chains[pub]);
  }

  // One vote more: it is recorded if it is new, and no recorded vote is lost.
  lemma BallotRecorded(n: Node, b: Block, pub: Pub, approve: bool, abstain: bool, now: int, sign: Signer)
    requires ChainsStored(n.ledger.blocks, n.ledger.chains) && Funded(n.ledger, pub)
    requires b.hash in n.votes.tallies && pub !in n.votes.tallies[b.hash].votes
    requires sign(Paper(n.ledger, b, pub, approve, abstain, now)) !in n.votes.seen
    ensures Recorded(CastVote(n, Ballot(n.ledger, b, pub, approve, abstain, now, sign), now), b, pub, approve, abstain)
  {
    BallotIs(n.ledger, b, pub, approve, abstain, now, sign);
    CountedIff(n, Ballot(n.ledger, b, pub, approve, abstain, now, sign), now);
  }

  lemma RecordedStays(n: Node, b: Block, pub: Pub, approve: bool, abstain: bool, vote: Vote, now: int)
    requires Recorded(n, b, pub, approve, abstain)
    ensures Recorded(CastVote(n, vote, now), b, pub, approve, abstain)
  {
    CountedIff(n, vote, now);
  }

  // While others vote, an account's place in the tally and its signature stay free.
  lemma {:induction false} PlaceStaysFree(n: Node, b: Block, pubs: seq<Pub>, pub: Pub, approve: bool, abstain: bool, now: int, sign: Signer)
    requires ChainsStored(n.ledger.blocks, n.ledger.chains) && Funded(n.ledger, pub) && pub !in pubs
    requires b.hash in n.votes.tallies && pub !in n.votes.tallies[b.hash].votes
    requires NewSignature(n, b, pubs, pub, approve, abstain, now, sign)
    ensures var m := VoteAll(n, b, pubs, approve, abstain, now, sign);
            && m.ledger == n.ledger && b.hash in m.votes.tallies && pub !in m.votes.tallies[b.hash].votes
            && sign(Paper(n.ledger, b, pub, approve, abstain, now)) !in m.votes.seen
  {
    if pubs != [] {
      var init, q := pubs[..|pubs| - 1], pubs[|pubs| - 1];
      PlaceStaysFree(n, b, init, pub, approve, abstain, now, sign);
      var before := VoteAll(n, b, init, approve, abstain, now, sign);
      var ballot := Ballot(n.ledger, b, q, approve, abstain, now, sign);
      CountedIff(before, ballot, now);
      OthersBallot(n, b, pubs, pub, q, approve, abstain, now, sign);
    }
  }

  // Another account's ballot, if it counts for anything, bears another signature.
  lemma OthersBallot(n: Node, b: Block, pubs: seq<Pub>, pub: Pub, q: Pub, approve: bool, abstain: bool, now: int, sign: Signer)
    requires ChainsStored(n.ledger.blocks, n.ledger.chains) && Funded(n.ledger, pub) && q in pubs && q != pub
    requires NewSignature(n, b, pubs, pub, approve, abstain, now, sign)
    ensures var ballot := Ballot(n.ledger, b, q, approve, abstain, now, sign);
            && ballot.voterPub == q && ballot.blockHash == b.hash
            && (ShownStake(n.ledger, ballot) > 0 && ShowsOwn(n.ledger, ballot) ==>
                  ballot.signature != sign(Paper(n.ledger, b, pub, approve, abstain, now)))
  {
    if Funded(n.ledger, q) {
      BallotIs(n.ledger, b, q, approve, abstain, now, sign);
    } else {
      Unfunded(n.ledger, b, q, approve, abstain, now, sign);
    }
  }

  lemma Unfunded(s: Ledger, b: Block, q: Pub, approve: bool, abstain: bool, now: int, sign: Signer)
    requires ChainsStored(s.blocks, s.chains) && !Funded(s, q)
    ensures ShownStake(s, Ballot(s, b, q, approve, abstain, now, sign)) <= 0
  {
    assert q in s.chains ==> ChainOf(s.blocks, q, s.chains[q]);
  }

  lemma {:induction false} VoteAllRecords(n: Node, b: Block, pubs: seq<Pub>, pub: Pub, approve: bool, abstain: bool, now: int, sign: Signer)
    requires ChainsStored(n.ledger.blocks, n.ledger.chains) && Funded(n.ledger, pub) && pub in pubs
    requires b.hash in n.votes.tallies && pub !in n.votes.tallies[b.hash].votes
    requires NewSignature(n, b, pubs, pub, approve, abstain, now, sign)
    ensures Recorded(VoteAll(n, b, pubs, approve, abstain, now, sign), b, pub, approve, abstain)
  {
    var init, q := pubs[..|pubs| - 1], pubs[|pubs| - 1];
    var before := VoteAll(n, b, init, approve, abstain, now, sign);
    VotingKeepsLedger(n, b, init, approve, abstain, now, sign);
    if pub in init {
      VoteAllRecords(n, b, init, pub, approve, abstain, now, sign);
      RecordedStays(before, b, pub, approve, abstain, Ballot(n.ledger, b, q, approve, abstain, now, sign), now);
    } else {
      assert q == pub;
      PlaceStaysFree(n, b, init, pub, approve, abstain, now, sign);
      BallotIs(n.ledger, b, pub, approve, abstain, now, sign);
      BallotRecorded(before, b, pub, approve, abstain, now, sign);
    }
  }

  // ----- In every run --------------------------------------------------------------------------

  // The node lacks the block's parent.
  predicate Blind(s: Ledger, b: Block) {
    b.index != 0 && b.previousHash !in s.blocks
  }

  // A local account whose vote on the block is still to come.
  ghost predicate MayVote(n: Node, b: Block, pubs: seq<Pub>, pub: Pub, now: int, sign: Signer) {
    && pub in pubs && Funded(n.ledger, pub) && b.hash in n.votes.tallies && pub !in n.votes.tallies[b.hash].votes
    && forall approve, abstain :: NewSignature(n, b, pubs, pub, approve, abstain, now, sign)
  }

  // In every run: after voteIfConflict on a block under vote, the vote of every local account that may vote is in the
  // block's tally, with the account's balance; it abstains exactly when the node lacks the parent, and otherwise says what
  // the node's own blocks say.
  lemma LocalVoteCounts(env: Env, es: seq<Event>, b: Block, pubs: seq<Pub>, locked: bool, now: int, sign: Signer, pub: Pub)
    requires GetStatus(Run(env, es).votes, b.hash) == InConflict && MayVote(Run(env, es), b, pubs, pub, now, sign)
    ensures var n := Run(env, es);
            Recorded(ConflictVotes(n, b, pubs, locked, now, sign), b, pub,
                     !Blind(n.ledger, b) && Approved(n.ledger, b, VM.CompetitorsIn(n.votes, n.votes.slotOrder, b.hash), locked),
                     Blind(n.ledger, b))
  {
    var n := Run(env, es);
    var approve := !Blind(n.ledger, b) && Approved(n.ledger, b, VM.CompetitorsIn(n.votes, n.votes.slotOrder, b.hash), locked);
    EveryRunHealthy(env, es);
    assert NewSignature(n, b, pubs, pub, approve, Blind(n.ledger, b), now, sign);
    VoteAllRecords(n, b, pubs, pub, approve, Blind(n.ledger, b), now, sign);
  }

  // For a stored block the stance is the rule's: approve it unless the account is locked out or a stored sibling is earlier.
  lemma LocalVoteSays(env: Env, es: seq<Event>, b: Block, pubs: seq<Pub>, locked: bool, now: int, sign: Signer, pub: Pub)
    requires CollisionFree(env) && HashMatches(env, b) && Lookup(Run(env, es).ledger.blocks, b.hash) == Some(b)
    requires GetStatus(Run(env, es).votes, b.hash) == InConflict && MayVote(Run(env, es), b, pubs, pub, now, sign)
    ensures var n := Run(env, es);
            Recorded(ConflictVotes(n, b, pubs, locked, now, sign), b, pub,
                     !Blind(n.ledger, b) && !locked && Approvable(n.ledger.blocks, Elements(Siblings(n.votes, SlotOf(b))), b.hash),
                     Blind(n.ledger, b))
  {
    LocalVoteCounts(env, es, b, pubs, locked, now, sign, pub);
    NodeAppliesRule(env, es, b, locked);
  }

  // Voting by the rule keeps the counted votes ruled.
  lemma {:induction false} VoteAllKeepsRuled(n: Node, b: Block, pubs: seq<Pub>, approve: bool, abstain: bool, now: int, sign: Signer,
                                             view: map<Hash, Block>, siblings: set<Hash>)
    requires siblings <= view.Keys && CountsRuled(n.votes, view, siblings)
    requires b.hash in siblings && (abstain || (approve <==> Approvable(view, siblings, b.hash)))
    ensures var m := VoteAll(n, b, pubs, approve, abstain, now, sign);
            CountsRuled(m.votes, view, siblings) && m.votes.siblings == n.votes.siblings
  {
    if pubs != [] {
      var init := pubs[..|pubs| - 1];
      VoteAllKeepsRuled(n, b, init, approve, abstain, now, sign, view, siblings);
      var before := VoteAll(n, b, init, approve, abstain, now, sign);
      var ballot := Ballot(n.ledger, b, pubs[|pubs| - 1], approve, abstain, now, sign);
      CountedIff(before, ballot, now);
      RuledMore(before.votes, CastVote(before, ballot, now).votes, ballot, ShownStake(before.ledger, ballot), view, siblings);
    }
  }

  lemma RuledMore(v: VoteState, u: VoteState, vote: Vote, stake: int, view: map<Hash, Block>, siblings: set<Hash>)
    requires siblings <= view.Keys && CountsRuled(v, view, siblings) && vote.blockHash in view && RuledVote(vote, view, siblings)
    requires u.tallies == v.tallies || (vote.blockHash in v.tallies && vote.blockHash in u.tallies
             && u.tallies == v.tallies[vote.blockHash := u.tallies[vote.blockHash]]
             && u.tallies[vote.blockHash].votes == v.tallies[vote.blockHash].votes[vote.voterPub := vote.(stake := stake)])
    ensures CountsRuled(u, view, siblings)
  {
    assert RuledVote(vote.(stake := stake), view, siblings);
  }

  // A node that stores all siblings and the parent, and receives the approvable one for an unlocked account, has counted
  // its own approval once one of its accounts may vote, and decides for that sibling at any clock.
  lemma ApprovingNodeDecides(env: Env, es: seq<Event>, b: Block, pubs: seq<Pub>, now: int, sign: Signer, pub: Pub,
                             view: map<Hash, Block>, siblings: set<Hash>, later: int)
    requires CollisionFree(env) && SeesSiblings(env, es, b, view, siblings) && FullView(view, siblings)
    requires b.hash in view && Approvable(view, siblings, b.hash) && !Blind(Run(env, es).ledger, b) && MayVote(Run(env, es), b, pubs, pub, now, sign)
    requires CountsRuled(Run(env, es).votes, view, siblings)
    ensures var m := ConflictVotes(Run(env, es), b, pubs, false, now, sign);
            && CountedApproval(m.votes, b.hash)
            && Decision(m.votes.tallies, Siblings(m.votes, SlotOf(b)), later) == Some(b.hash)
  {
    var n := Run(env, es);
    var cast := NodeBallots(n, b, pubs, now, sign);
    var m := Run(env, es + cast);
    SeenIsSibling(env, es, b, view, siblings);
    LocalVoteCounts(env, es, b, pubs, false, now, sign, pub);
    NodeVotesFollowRule(env, es, b, pubs, now, sign, view, siblings);
    VoteAllKeepsRuled(n, b, pubs, true, false, now, sign, view, siblings);
    assert StanceOf(m.votes.tallies[b.hash].votes[pub]) == Approves;
    assert SlotOf(b) in m.votes.siblings;
    DecidesForApprovable(env, es + cast, SlotOf(b), view, b.hash, later);
  }
}
