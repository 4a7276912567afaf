// Exactly which votes a node counts, with what stake, and which signatures it remembers.
module VoteCounting {
  import opened Basics
  import opened DagBlock
  import opened LedgerState
  import opened Votes
  import opened Nodes
  import opened VoteSafety
  import VA = VoteAgreement

  // The stake a vote shows by the block it names as the voter's chain head: the named block's balance if the node stores
  // it, otherwise the balance the node knows for the voter; nothing if no block is named.
  function ShownStake(s: Ledger, vote: Vote): int {
    if vote.chainHeadHash.None? || vote.chainHeadHash.value == "" then 0
    else if vote.chainHeadHash.value in s.blocks then s.blocks[vote.chainHeadHash.value].balance
    else if vote.voterPub in s.chains && s.chains[vote.voterPub] != [] then
      s.chains[vote.voterPub][|s.chains[vote.voterPub]| - 1].balance
    else 0
  }

  // A stored block of another account shows nothing.
  predicate ShowsOwn(s: Ledger, vote: Vote) {
    vote.chainHeadHash.Some? && vote.chainHeadHash.value in s.blocks && vote.chainHeadHash.value != "" ==>
      s.blocks[vote.chainHeadHash.value].accountPub == vote.voterPub
  }

  // The vote is on a block under vote, its voter has no vote on it yet, and its signature has not been seen.
  predicate Considered(n: Node, vote: Vote) {
    && vote.blockHash in n.votes.tallies && vote.voterPub !in n.votes.tallies[vote.blockHash].votes
    && vote.signature !in n.votes.seen && ShowsOwn(n.ledger, vote) && ShownStake(n.ledger, vote) > 0
  }

  // Besides, it is no older than a minute.
  predicate Counts(n: Node, vote: Vote, now: int) {
    Considered(n, vote) && now - vote.timestamp <= 60_000
  }

  // The tally with the vote recorded and its stake added on its side.
  predicate Added(t: Tally, u: Tally, vote: Vote, stake: int) {
    && u.votes == t.votes[vote.voterPub := vote.(stake := stake)] && u.createdAt == t.createdAt
    && u.approveStake == t.approveStake + (if !vote.abstain && vote.approve then stake else 0)
    && u.rejectStake == t.rejectStake + (if !vote.abstain && !vote.approve then stake else 0)
    && u.abstainStake == t.abstainStake + (if vote.abstain then stake else 0)
  }

  // A vote is counted exactly under these conditions, with the stake it shows; any other vote changes no tally. A vote
  // changes nothing else but the signatures seen, of which the oldest is forgotten beyond fifty thousand.
  lemma CountedIff(n: Node, vote: Vote, now: int)
    ensures var m, h := CastVote(n, vote, now), vote.blockHash;
            && m.ledger == n.ledger && m.votes.confirmed == n.votes.confirmed && m.votes.rejected == n.votes.rejected
            && m.votes.siblings == n.votes.siblings && m.votes.slotOrder == n.votes.slotOrder
            && (Counts(n, vote, now) ==>
                  && m.votes.tallies == n.votes.tallies[h := m.votes.tallies[h]]
                  && Added(n.votes.tallies[h], m.votes.tallies[h], vote, ShownStake(n.ledger, vote)))
            && (!Counts(n, vote, now) ==> m.votes.tallies == n.votes.tallies)
            && m.votes.seen ==
               (if !Considered(n, vote) then n.votes.seen
                else if |n.votes.seen| >= 50_000 then (n.votes.seen + [vote.signature])[1..]
                else n.votes.seen + [vote.signature])
  {
    StakeIs(n.ledger, vote);
  }

  lemma StakeIs(s: Ledger, vote: Vote)
    ensures VerifiedStake(s, vote) == if ShowsOwn(s, vote) then Some(ShownStake(s, vote)) else None
  {
  }

  // ----- Signatures seen -----------------------------------------------------------------------

  predicate SeenKept(seen: seq<string>) {
    |seen| <= 50_000 && Distinct(seen)
  }

  lemma {:induction false} ResolveKeepsSeen(v: VoteState, slots: seq<Slot>, now: int)
    ensures ResolveSlots(v, slots, now).votes.seen == v.seen
  {
    if slots != [] {
      ResolveKeepsSeen(v, slots[..|slots| - 1], now);
    }
  }

  lemma SeenMore(seen: seq<string>, signature: string)
    requires SeenKept(seen) && signature !in seen
    ensures SeenKept(if |seen| >= 50_000 then (seen + [signature])[1..] else seen + [signature])
  {
  }

  // In every run a node remembers at most fifty thousand signatures, each once.
  lemma {:induction false} SeenBounded(env: Env, es: seq<Event>)
    ensures SeenKept(Run(env, es).votes.seen)
  {
    if es != [] {
      var n := Run(env, es[..|es| - 1]);
      SeenBounded(env, es[..|es| - 1]);
      match es[|es| - 1]
      case Submit(_, _) =>
      case Enroll(_, _) =>
      case Cast(vote, now) =>
        CountedIff(n, vote, now);
        if Considered(n, vote) {
          SeenMore(n.votes.seen, vote.signature);
        }
      case Process(now) => ResolveKeepsSeen(n.votes, n.votes.slotOrder, now);
    }
  }

  // ----- When a tally was opened ---------------------------------------------------------------

  // A tally keeps the clock of the submission that opened it; until then the block had none.
  lemma StepOpens(env: Env, n: Node, e: Event, h: Hash)
    requires h in Step(env, n, e).votes.tallies
    ensures var t := Step(env, n, e).votes.tallies[h];
            if h in n.votes.tallies then t.createdAt == n.votes.tallies[h].createdAt
            else e.Submit? && t.createdAt == e.now && t.votes == map[]
  {
    match e
    case Submit(b, now) =>
      if ReachesVotes(env, n.ledger, b, now) {
        VA.RegisterOpensEmpty(n.votes, b.hash, SlotOf(b), now, h);
      }
    case Enroll(_, _) =>
    case Cast(vote, now) => CountedIff(n, vote, now);
    case Process(now) => VA.ResolveOnlyRemoves(n.votes, n.votes.slotOrder, now);
  }

  // The block has had a tally since the step at position i, a submission.
  ghost predicate TalliedSince(env: Env, es: seq<Event>, h: Hash, i: nat) {
    && i < |es| && es[i].Submit? && h !in Run(env, es[..i]).votes.tallies
    && forall j :: i < j <= |es| ==> h in Run(env, es[..j]).votes.tallies
  }

  lemma StillTallied(env: Env, es: seq<Event>, e: Event, h: Hash, i: nat)
    requires TalliedSince(env, es, h, i) && h in Run(env, es + [e]).votes.tallies
    ensures TalliedSince(env, es + [e], h, i)
  {
    var more := es + [e];
    assert more[..i] == es[..i] && more[..|more|] == more;
    forall j | i < j <= |more|
      ensures h in Run(env, more[..j]).votes.tallies
    {
      assert j <= |es| ==> more[..j] == es[..j];
    }
  }

  // In every run the age of a tally counts from the submission since which the block has been under vote.
  lemma {:induction false} TallyOpened(env: Env, es: seq<Event>, h: Hash) returns (i: nat)
    requires h in Run(env, es).votes.tallies
    ensures TalliedSince(env, es, h, i) && Run(env, es).votes.tallies[h].createdAt == es[i].now
  {
    var init, e := es[..|es| - 1], es[|es| - 1];
    assert es == init + [e];
    StepOpens(env, Run(env, init), e, h);
    if h in Run(env, init).votes.tallies {
      i := TallyOpened(env, init, h);
      StillTallied(env, init, e, h, i);
      assert es[i] == init[i];
    } else {
      i := |init|;
      TalliedNow(env, init, e, h);
    }
  }

  lemma TalliedNow(env: Env, es: seq<Event>, e: Event, h: Hash)
    requires e.Submit? && h !in Run(env, es).votes.tallies && h in Run(env, es + [e]).votes.tallies
    ensures TalliedSince(env, es + [e], h, |es|)
  {
    var more := es + [e];
    assert more[..|es|] == es && more[..|more|] == more;
  }
}
