// Tallies are exact, voters that see all siblings approve exactly one, and nodes that have counted such an approval agree.
module VoteAgreement {
  import opened Basics
  import opened DagBlock
  import opened Votes
  import opened Nodes
  import opened VoteSafety

  // ----- Tally accounting ----------------------------------------------------------------------

  datatype Stance = Approves | Rejects | Abstains

  function StanceOf(vote: Vote): Stance {
    if vote.abstain then Abstains else if vote.approve then Approves else Rejects
  }

  // The stakes of a tally's recorded votes of one stance, by voter.
  ghost function Stakes(votes: map<Pub, Vote>, stance: Stance): map<Pub, int> {
    map p | p in votes && StanceOf(votes[p]) == stance :: votes[p].stake
  }

  ghost predicate Accounted(t: Tally) {
    && t.approveStake == Sum(Stakes(t.votes, Approves))
    && t.rejectStake == Sum(Stakes(t.votes, Rejects))
    && t.abstainStake == Sum(Stakes(t.votes, Abstains))
    && t.totalStake == t.approveStake + t.rejectStake
    && t.voterCount == |t.votes|
  }

  lemma StakesAfter(votes: map<Pub, Vote>, vote: Vote, stance: Stance)
    requires vote.voterPub !in votes
    ensures Sum(Stakes(votes[vote.voterPub := vote], stance)) ==
            Sum(Stakes(votes, stance)) + if StanceOf(vote) == stance then vote.stake else 0
  {
    var after := votes[vote.voterPub := vote];
    if StanceOf(vote) == stance {
      assert Stakes(after, stance) == Stakes(votes, stance)[vote.voterPub := vote.stake];
      SumPut(Stakes(votes, stance), vote.voterPub, vote.stake);
    } else {
      assert Stakes(after, stance) == Stakes(votes, stance);
    }
  }

  lemma CountKeepsAccounted(t: Tally, vote: Vote)
    requires Accounted(t) && vote.voterPub !in t.votes
    ensures Accounted(Count(t, vote))
  {
    StakesAfter(t.votes, vote, Approves);
    StakesAfter(t.votes, vote, Rejects);
    StakesAfter(t.votes, vote, Abstains);
  }

  lemma EmptyAccounted(now: int)
    ensures Accounted(EmptyTally(now))
  {
  }

  // The vote of the i-th step of a run, counted with the stake the node verified in the state that step found.
  predicate CastAt(env: Env, es: seq<Event>, i: nat, vote: Vote)
    requires i < |es|
  {
    && es[i].Cast? && es[i].vote == vote.(stake := es[i].vote.stake)
    && VerifiedStake(Run(env, es[..i]).ledger, es[i].vote) == Some(vote.stake)
  }

  // A recorded vote was cast in the run, and its recorded stake is positive and was verified when it was cast.
  ghost predicate WasCast(env: Env, es: seq<Event>, h: Hash, p: Pub, vote: Vote) {
    && vote.blockHash == h && vote.voterPub == p && vote.stake > 0
    && exists i: nat :: i < |es| && CastAt(env, es, i, vote)
  }

  ghost predicate TallyFits(env: Env, es: seq<Event>, h: Hash, t: Tally) {
    Accounted(t) && forall p :: p in t.votes ==> WasCast(env, es, h, p, t.votes[p])
  }

  ghost predicate TalliesFit(env: Env, es: seq<Event>, tallies: map<Hash, Tally>) {
    forall h :: h in tallies ==> TallyFits(env, es, h, tallies[h])
  }

  lemma StillCast(env: Env, es: seq<Event>, e: Event, h: Hash, p: Pub, vote: Vote)
    requires WasCast(env, es, h, p, vote)
    ensures WasCast(env, es + [e], h, p, vote)
  {
    var i: nat :| i < |es| && CastAt(env, es, i, vote);
    assert (es + [e])[..i] == es[..i];
    assert CastAt(env, es + [e], i, vote);
  }

  lemma MoreEvents(env: Env, es: seq<Event>, e: Event, tallies: map<Hash, Tally>)
    requires TalliesFit(env, es, tallies)
    ensures TalliesFit(env, es + [e], tallies)
  {
    forall h, p | h in tallies && p in tallies[h].votes
      ensures WasCast(env, es + [e], h, p, tallies[h].votes[p])
    {
      assert TallyFits(env, es, h, tallies[h]);
      StillCast(env, es, e, h, p, tallies[h].votes[p]);
    }
  }

  lemma OpenedFits(env: Env, es: seq<Event>, v: VoteState, b: Block, now: int)
    requires TalliesFit(env, es, v.tallies)
    ensures TalliesFit(env, es, Register(v, b.hash, SlotOf(b), now).tallies)
  {
    var u := Register(v, b.hash, SlotOf(b), now);
    EmptyAccounted(now);
    forall h | h in u.tallies
      ensures TallyFits(env, es, h, u.tallies[h])
    {
      RegisterOpensEmpty(v, b.hash, SlotOf(b), now, h);
    }
  }

  lemma RegisterOpensEmpty(v: VoteState, h: Hash, k: Slot, now: int, g: Hash)
    requires g in Register(v, h, k, now).tallies
    ensures Register(v, h, k, now).tallies[g] == if g in v.tallies then v.tallies[g] else EmptyTally(now)
  {
  }

  lemma CountFits(env: Env, es: seq<Event>, t: Tally, vote: Vote)
    requires TallyFits(env, es, vote.blockHash, t) && vote.voterPub !in t.votes
    requires WasCast(env, es, vote.blockHash, vote.voterPub, vote)
    ensures TallyFits(env, es, vote.blockHash, Count(t, vote))
  {
    CountKeepsAccounted(t, vote);
  }

  // addVote changes at most the voted block's tally, and counts only a voter's first vote.
  lemma AddVoteCounts(v: VoteState, vote: Vote, now: int)
    ensures var u := AddVote(v, vote, now);
            || u.tallies == v.tallies
            || (&& vote.blockHash in v.tallies && vote.voterPub !in v.tallies[vote.blockHash].votes
                && u.tallies == v.tallies[vote.blockHash := Count(v.tallies[vote.blockHash], vote)])
  {
  }

  lemma AddVoteFits(env: Env, es: seq<Event>, v: VoteState, vote: Vote, now: int)
    requires TalliesFit(env, es, v.tallies) && WasCast(env, es, vote.blockHash, vote.voterPub, vote)
    ensures TalliesFit(env, es, AddVote(v, vote, now).tallies)
  {
    AddVoteCounts(v, vote, now);
    if vote.blockHash in v.tallies && vote.voterPub !in v.tallies[vote.blockHash].votes {
      CountFits(env, es, v.tallies[vote.blockHash], vote);
    }
  }

  lemma CastIsCast(env: Env, es: seq<Event>, vote: Vote, now: int)
    requires VerifiedStake(Run(env, es).ledger, vote).Some? && VerifiedStake(Run(env, es).ledger, vote).value > 0
    ensures WasCast(env, es + [Cast(vote, now)], vote.blockHash, vote.voterPub,
                    vote.(stake := VerifiedStake(Run(env, es).ledger, vote).value))
  {
    var more := es + [Cast(vote, now)];
    var counted := vote.(stake := VerifiedStake(Run(env, es).ledger, vote).value);
    assert more[..|es|] == es && more[|es|].vote == counted.(stake := vote.stake);
    assert CastAt(env, more, |es|, counted);
  }

  lemma CastFits(env: Env, es: seq<Event>, vote: Vote, now: int)
    requires TalliesFit(env, es, Run(env, es).votes.tallies)
    ensures TalliesFit(env, es + [Cast(vote, now)], CastVote(Run(env, es), vote, now).votes.tallies)
  {
    var n := Run(env, es);
    var more := es + [Cast(vote, now)];
    MoreEvents(env, es, Cast(vote, now), n.votes.tallies);
    var stake := VerifiedStake(n.ledger, vote);
    if stake.Some? && stake.value > 0 {
      CastIsCast(env, es, vote, now);
      AddVoteFits(env, more, n.votes, vote.(stake := stake.value), now);
    }
  }

  lemma {:induction false} ResolveOnlyRemoves(v: VoteState, slots: seq<Slot>, now: int)
    ensures forall h :: h in ResolveSlots(v, slots, now).votes.tallies ==>
              h in v.tallies && ResolveSlots(v, slots, now).votes.tallies[h] == v.tallies[h]
  {
    if slots != [] {
      ResolveOnlyRemoves(v, slots[..|slots| - 1], now);
    }
  }

  // In every run, every tally is the sum of its recorded votes, one per voter, each cast before and counted with the
  // stake the node verified when it was cast.
  lemma {:induction false} EveryTallyAccounted(env: Env, es: seq<Event>)
    ensures TalliesFit(env, es, Run(env, es).votes.tallies)
  {
    if es != [] {
      var init, e := es[..|es| - 1], es[|es| - 1];
      var n := Run(env, init);
      EveryTallyAccounted(env, init);
      assert es == init + [e];
      MoreEvents(env, init, e, n.votes.tallies);
      match e
      case Submit(b, now) => OpenedFits(env, es, n.votes, b, now);
      case Enroll(_, _) =>
      case Cast(vote, now) => CastFits(env, init, vote, now);
      case Process(now) => ResolveOnlyRemoves(n.votes, n.votes.slotOrder, now);
    }
  }

  // The counted stake does not depend on the stake a vote claims.
  lemma ClaimedStakeIrrelevant(n: Node, vote: Vote, claimed: int, now: int)
    ensures CastVote(n, vote.(stake := claimed), now) == CastVote(n, vote, now)
  {
  }

  // A voter counts once per block, even when the vote comes under a signature that has been forgotten or is new.
  lemma SecondVoteIgnored(v: VoteState, vote: Vote, now: int)
    requires vote.blockHash in v.tallies && vote.voterPub in v.tallies[vote.blockHash].votes
    ensures AddVote(v, vote, now).tallies == v.tallies
  {
  }

  // ----- The approval rule ---------------------------------------------------------------------

  // JavaScript string order.
  predicate Before(a: string, b: string) {
    b != [] && (a == [] || a[0] < b[0] || (a[0] == b[0] && Before(a[1..], b[1..])))
  }

  lemma {:induction false} BeforeIsTotal(a: string, b: string)
    ensures Before(a, b) || Before(b, a) || a == b
    ensures !(Before(a, b) && Before(b, a)) && !Before(a, a)
  {
    if a != [] {
      BeforeIsTotal(a[1..], a[1..]);
      if b != [] {
        BeforeIsTotal(a[1..], b[1..]);
        if a[1..] == b[1..] && a[0] == b[0] {
          assert a == [a[0]] + a[1..] && b == [b[0]] + b[1..];
        }
      }
    }
  }

  lemma {:induction false} BeforeIsTransitive(a: string, b: string, c: string)
    requires Before(a, b) && Before(b, c)
    ensures Before(a, c)
  {
    if a != [] && a[0] == b[0] && b[0] == c[0] {
      BeforeIsTransitive(a[1..], b[1..], c[1..]);
    }
  }

  // The sibling voteIfConflict prefers: smaller timestamp, ties by hash.
  predicate Earlier(a: Block, b: Block) {
    a.timestamp < b.timestamp || (a.timestamp == b.timestamp && Before(a.hash, b.hash))
  }

  // voteIfConflict for an unlocked account: approve unless a stored sibling is earlier.
  predicate Approvable(view: map<Hash, Block>, siblings: set<Hash>, h: Hash)
    requires h in view
  {
    forall s :: s in siblings && s != h && s in view ==> !Earlier(view[s], view[h])
  }

  ghost predicate FullView(view: map<Hash, Block>, siblings: set<Hash>) {
    siblings <= view.Keys && forall h :: h in view ==> view[h].hash == h
  }

  lemma AtMostOneApprovable(view: map<Hash, Block>, siblings: set<Hash>, g: Hash, h: Hash)
    requires FullView(view, siblings) && g in siblings && h in siblings
    requires Approvable(view, siblings, g) && Approvable(view, siblings, h)
    ensures g == h
  {
    BeforeIsTotal(g, h);
  }

  lemma EarlierIsOrder(a: Block, b: Block, c: Block)
    ensures Earlier(a, b) && Earlier(b, c) ==> Earlier(a, c)
    ensures !Earlier(a, a)
  {
    BeforeIsTotal(a.hash, a.hash);
    if Before(a.hash, b.hash) && Before(b.hash, c.hash) {
      BeforeIsTransitive(a.hash, b.hash, c.hash);
    }
  }

  lemma {:induction false} SomeApprovable(view: map<Hash, Block>, siblings: set<Hash>) returns (m: Hash)
    requires FullView(view, siblings) && siblings != {}
    ensures m in siblings && Approvable(view, siblings, m)
    decreases |siblings|
  {
    var h :| h in siblings;
    var rest := siblings - {h};
    if rest == {} {
      m := h;
      assert siblings == {h};
    } else {
      var best := SomeApprovable(view, rest);
      if Earlier(view[h], view[best]) {
        m := h;
        forall s | s in siblings && s != m
          ensures !Earlier(view[s], view[m])
        {
          EarlierIsOrder(view[s], view[m], view[best]);
        }
      } else {
        m := best;
      }
    }
  }

  // Exactly one of the stored siblings of an unlocked account can be approved.
  lemma ExactlyOneApprovable(view: map<Hash, Block>, siblings: set<Hash>)
    requires FullView(view, siblings) && siblings != {}
    ensures exists m :: m in siblings && Approvable(view, siblings, m)
                        && forall h :: h in siblings && Approvable(view, siblings, h) ==> h == m
  {
    var m := SomeApprovable(view, siblings);
    forall h | h in siblings && Approvable(view, siblings, h)
      ensures h == m
    {
      AtMostOneApprovable(view, siblings, h, m);
    }
  }

  // ----- Agreement -----------------------------------------------------------------------------

  // Every vote cast in the run on one of the siblings follows the rule against the full set of siblings, or abstains.
  ghost predicate FollowsRule(es: seq<Event>, view: map<Hash, Block>, siblings: set<Hash>)
    requires siblings <= view.Keys
  {
    forall e :: e in es && e.Cast? && e.vote.blockHash in siblings ==> RuledVote(e.vote, view, siblings)
  }

  predicate RuledVote(vote: Vote, view: map<Hash, Block>, siblings: set<Hash>)
    requires vote.blockHash in view
  {
    vote.abstain || (vote.approve <==> Approvable(view, siblings, vote.blockHash))
  }

  // Every vote the node has counted on one of the siblings follows the rule.
  ghost predicate CountsRuled(v: VoteState, view: map<Hash, Block>, siblings: set<Hash>)
    requires siblings <= view.Keys
  {
    forall h, p :: h in siblings && h in v.tallies && p in v.tallies[h].votes ==>
      v.tallies[h].votes[p].blockHash == h && RuledVote(v.tallies[h].votes[p], view, siblings)
  }

  // It is enough that every vote cast follows the rule.
  lemma CastRuledCountsRuled(env: Env, es: seq<Event>, view: map<Hash, Block>, siblings: set<Hash>)
    requires siblings <= view.Keys && FollowsRule(es, view, siblings)
    ensures CountsRuled(Run(env, es).votes, view, siblings)
  {
    var v := Run(env, es).votes;
    EveryTallyAccounted(env, es);
    forall h, p | h in siblings && h in v.tallies && p in v.tallies[h].votes
      ensures v.tallies[h].votes[p].blockHash == h && RuledVote(v.tallies[h].votes[p], view, siblings)
    {
      assert TallyFits(env, es, h, v.tallies[h]) && WasCast(env, es, h, p, v.tallies[h].votes[p]);
      RecordedVoteRuled(env, es, h, p, v.tallies[h].votes[p], view, siblings);
    }
  }

  lemma RecordedVoteRuled(env: Env, es: seq<Event>, h: Hash, p: Pub, vote: Vote, view: map<Hash, Block>, siblings: set<Hash>)
    requires siblings <= view.Keys && FollowsRule(es, view, siblings) && WasCast(env, es, h, p, vote) && h in siblings
    ensures vote.blockHash == h && RuledVote(vote, view, siblings)
  {
    var i: nat :| i < |es| && CastAt(env, es, i, vote);
    assert es[i] in es && RuledVote(es[i].vote, view, siblings);
  }

  // The node has counted an approval of the block.
  ghost predicate CountedApproval(v: VoteState, h: Hash) {
    h in v.tallies && exists p :: p in v.tallies[h].votes && StanceOf(v.tallies[h].votes[p]) == Approves
  }

  lemma {:induction false} PositiveSum<K(!new)>(m: map<K, int>)
    requires forall k :: k in m ==> m[k] > 0
    ensures Sum(m) >= 0 && (Sum(m) == 0 <==> m == map[])
    decreases |m|
  {
    if m != map[] {
      var k :| k in m;
      SumWithout(m, k);
      PositiveSum(m - {k});
    }
  }

  lemma StakesPositive(env: Env, es: seq<Event>, h: Hash, t: Tally, stance: Stance)
    requires TallyFits(env, es, h, t)
    ensures Sum(Stakes(t.votes, stance)) >= 0
    ensures Sum(Stakes(t.votes, stance)) == 0 <==> forall p :: p in t.votes ==> StanceOf(t.votes[p]) != stance
  {
    assert forall p :: p in t.votes ==> WasCast(env, es, h, p, t.votes[p]);
    PositiveSum(Stakes(t.votes, stance));
    if p :| p in t.votes && StanceOf(t.votes[p]) == stance {
      assert p in Stakes(t.votes, stance);
    }
  }

  // All approve stake is on the approvable sibling and no reject stake is.
  lemma StakeGoesToApprovable(env: Env, es: seq<Event>, v: VoteState, h: Hash, view: map<Hash, Block>, siblings: set<Hash>)
    requires siblings <= view.Keys && CountsRuled(v, view, siblings) && h in v.tallies && TallyFits(env, es, h, v.tallies[h])
    requires h in siblings
    ensures var t := v.tallies[h];
            if Approvable(view, siblings, h) then t.rejectStake == 0 && t.approveStake >= 0 else t.approveStake == 0
  {
    var t := v.tallies[h];
    assert forall p :: p in t.votes ==> RuledVote(t.votes[p], view, siblings) && t.votes[p].blockHash == h;
    StakesPositive(env, es, h, t, Approves);
    StakesPositive(env, es, h, t, Rejects);
  }

  // A node all of whose counted votes follow the rule, and that has counted an approval, decides for the
  // approvable sibling at any clock, without the timeout.
  lemma DecidesForApprovable(env: Env, es: seq<Event>, k: Slot, view: map<Hash, Block>, m: Hash, now: int)
    requires CollisionFree(env) && k in Run(env, es).votes.siblings
    requires var siblings := Elements(Run(env, es).votes.siblings[k]);
             && FullView(view, siblings) && CountsRuled(Run(env, es).votes, view, siblings) && m in siblings && Approvable(view, siblings, m)
    requires CountedApproval(Run(env, es).votes, m)
    ensures Decision(Run(env, es).votes.tallies, Run(env, es).votes.siblings[k], now) == Some(m)
  {
    var v := Run(env, es).votes;
    var hs := v.siblings[k];
    EveryRunSafe(env, es);
    EveryTallyAccounted(env, es);
    assert SlotSettled(v, hs) && m in hs;
    assert OpenSlot(v, hs);
    forall h | h in hs
      ensures TallyFits(env, es, h, v.tallies[h])
      ensures if h == m then v.tallies[h].rejectStake == 0 && v.tallies[h].approveStake > 0 else v.tallies[h].approveStake == 0
    {
      StakeOfSibling(env, es, v, h, m, view, Elements(hs));
    }
    OnlyApprovedWins(v.tallies, hs, m, now);
  }

  lemma StakeOfSibling(env: Env, es: seq<Event>, v: VoteState, h: Hash, m: Hash, view: map<Hash, Block>, siblings: set<Hash>)
    requires FullView(view, siblings) && CountsRuled(v, view, siblings) && TalliesFit(env, es, v.tallies)
    requires h in siblings && h in v.tallies && m in siblings && Approvable(view, siblings, m) && CountedApproval(v, m)
    ensures TallyFits(env, es, h, v.tallies[h])
    ensures if h == m then v.tallies[h].rejectStake == 0 && v.tallies[h].approveStake > 0 else v.tallies[h].approveStake == 0
  {
    StakeGoesToApprovable(env, es, v, h, view, siblings);
    if h == m {
      StakesPositive(env, es, m, v.tallies[m], Approves);
    } else if Approvable(view, siblings, h) {
      AtMostOneApprovable(view, siblings, h, m);
    }
  }

  // When one sibling has approve stake, no reject stake, and no other sibling has approve stake, it wins at once.
  lemma OnlyApprovedWins(tallies: map<Hash, Tally>, hs: seq<Hash>, m: Hash, now: int)
    requires |hs| > 1 && AllTallied(tallies, hs) && m in hs
    requires tallies[m].approveStake > 0 && tallies[m].rejectStake == 0
    requires tallies[m].totalStake == tallies[m].approveStake + tallies[m].rejectStake
    requires forall h :: h in hs && h != m ==> tallies[h].approveStake == 0
    ensures Decision(tallies, hs, now) == Some(m)
  {
  }

  // A node that has counted an abstention on the block.
  ghost predicate CountedAbstention(v: VoteState, h: Hash) {
    h in v.tallies && exists p :: p in v.tallies[h].votes && StanceOf(v.tallies[h].votes[p]) == Abstains
  }

  lemma NoApproveStake(env: Env, es: seq<Event>, v: VoteState, hs: seq<Hash>, m: Hash, view: map<Hash, Block>)
    requires FullView(view, Elements(hs)) && CountsRuled(v, view, Elements(hs)) && TalliesFit(env, es, v.tallies)
    requires m in hs && Approvable(view, Elements(hs), m) && AllTallied(v.tallies, hs) && !CountedApproval(v, m)
    ensures forall h :: h in hs ==> v.tallies[h].approveStake == 0 && v.tallies[h].totalStake >= 0
    ensures v.tallies[m].totalStake == 0
    ensures v.tallies[m].abstainStake != 0 ==> CountedAbstention(v, m)
  {
    forall h | h in hs
      ensures v.tallies[h].approveStake == 0 && v.tallies[h].totalStake >= 0
    {
      StakeGoesToApprovable(env, es, v, h, view, Elements(hs));
      StakesPositive(env, es, h, v.tallies[h], Approves);
      StakesPositive(env, es, h, v.tallies[h], Rejects);
      if Approvable(view, Elements(hs), h) {
        AtMostOneApprovable(view, Elements(hs), h, m);
      }
    }
    StakeGoesToApprovable(env, es, v, m, view, Elements(hs));
    StakesPositive(env, es, m, v.tallies[m], Abstains);
  }

  // When nobody has approve stake, only a timeout with a vote on every sibling decides, for the first registered one.
  lemma DecidesWithoutStake(tallies: map<Hash, Tally>, hs: seq<Hash>, now: int)
    requires |hs| > 1 && AllTallied(tallies, hs)
    requires forall h :: h in hs ==> tallies[h].approveStake == 0 && tallies[h].totalStake >= 0
    ensures var timedOut := now - Oldest(tallies, hs) > CONFLICT_RESOLVE_TIMEOUT_MS;
            Decision(tallies, hs, now) == if timedOut && AllVoted(tallies, hs) then Some(hs[0]) else None
  {
    assert hs[0] in hs;
    var best := Leader(tallies, hs);
    assert hs[best] in hs;
    assert best == 0;
  }

  // The outcome of a slot under vote whose voters follow the rule, in full: the approvable sibling, at any clock, once
  // an approval is counted; before that nothing, except that a timeout when every sibling has a vote, so that the
  // approvable one has an abstention, picks the first registered.
  lemma DecidesExactly(env: Env, es: seq<Event>, k: Slot, view: map<Hash, Block>, m: Hash, now: int)
    requires CollisionFree(env) && k in Run(env, es).votes.siblings && OpenSlot(Run(env, es).votes, Run(env, es).votes.siblings[k])
    requires var siblings := Elements(Run(env, es).votes.siblings[k]);
             && FullView(view, siblings) && CountsRuled(Run(env, es).votes, view, siblings) && m in siblings && Approvable(view, siblings, m)
    ensures var v := Run(env, es).votes;
            var hs := v.siblings[k];
            var waited := now - Oldest(v.tallies, hs) > CONFLICT_RESOLVE_TIMEOUT_MS && AllVoted(v.tallies, hs);
            && Decision(v.tallies, hs, now) ==
               (if CountedApproval(v, m) then Some(m) else if waited then Some(hs[0]) else None)
            && (waited && !CountedApproval(v, m) ==> CountedAbstention(v, m))
  {
    var v := Run(env, es).votes;
    var hs := v.siblings[k];
    if CountedApproval(v, m) {
      DecidesForApprovable(env, es, k, view, m, now);
    } else {
      EveryTallyAccounted(env, es);
      NoApproveStake(env, es, v, hs, m, view);
      DecidesWithoutStake(v.tallies, hs, now);
    }
  }

  // Any two nodes that hold the same siblings and have each counted an approval decide for the same sibling, in
  // whatever order blocks and votes arrived and whatever their clocks say.
  lemma NodesAgree(env: Env, es: seq<Event>, fs: seq<Event>, k: Slot, view: map<Hash, Block>, siblings: set<Hash>,
                   g: Hash, h: Hash, now: int, later: int)
    requires CollisionFree(env) && k in Run(env, es).votes.siblings && k in Run(env, fs).votes.siblings
    requires Elements(Run(env, es).votes.siblings[k]) == siblings == Elements(Run(env, fs).votes.siblings[k])
    requires FullView(view, siblings) && CountsRuled(Run(env, es).votes, view, siblings) && CountsRuled(Run(env, fs).votes, view, siblings)
    requires g in siblings && CountedApproval(Run(env, es).votes, g)
    requires h in siblings && CountedApproval(Run(env, fs).votes, h)
    ensures g == h
    ensures Decision(Run(env, es).votes.tallies, Run(env, es).votes.siblings[k], now) == Some(g)
    ensures Decision(Run(env, fs).votes.tallies, Run(env, fs).votes.siblings[k], later) == Some(g)
  {
    ApprovalMeansApprovable(env, es, g, view, siblings);
    ApprovalMeansApprovable(env, fs, h, view, siblings);
    AtMostOneApprovable(view, siblings, g, h);
    DecidesForApprovable(env, es, k, view, g, now);
    DecidesForApprovable(env, fs, k, view, g, later);
  }

  lemma ApprovalMeansApprovable(env: Env, es: seq<Event>, h: Hash, view: map<Hash, Block>, siblings: set<Hash>)
    requires siblings <= view.Keys && CountsRuled(Run(env, es).votes, view, siblings) && h in siblings && CountedApproval(Run(env, es).votes, h)
    ensures Approvable(view, siblings, h)
  {
    var v := Run(env, es).votes;
    var p :| p in v.tallies[h].votes && StanceOf(v.tallies[h].votes[p]) == Approves;
    assert RuledVote(v.tallies[h].votes[p], view, siblings);
  }

  // After its next resolution each of the two nodes has that sibling confirmed and every other one rejected.
  lemma NodesConfirmSame(env: Env, es: seq<Event>, fs: seq<Event>, k: Slot, view: map<Hash, Block>, siblings: set<Hash>,
                         g: Hash, h: Hash, now: int, later: int)
    requires CollisionFree(env) && k in Run(env, es).votes.siblings && k in Run(env, fs).votes.siblings
    requires Elements(Run(env, es).votes.siblings[k]) == siblings == Elements(Run(env, fs).votes.siblings[k])
    requires FullView(view, siblings) && CountsRuled(Run(env, es).votes, view, siblings) && CountsRuled(Run(env, fs).votes, view, siblings)
    requires g in siblings && CountedApproval(Run(env, es).votes, g)
    requires h in siblings && CountedApproval(Run(env, fs).votes, h)
    ensures DecidedSlot(ProcessConflicts(Run(env, es), now).votes, Run(env, es).votes.siblings[k], g)
    ensures DecidedSlot(ProcessConflicts(Run(env, fs), later).votes, Run(env, fs).votes.siblings[k], g)
  {
    NodesAgree(env, es, fs, k, view, siblings, g, h, now, later);
    ResolutionOfReachable(env, es, k, now);
    ResolutionOfReachable(env, fs, k, later);
  }

  // ----- Where the documented rule differs -----------------------------------------------------

  // The non-abstain stake of a whole conflict.
  function SlotStake(tallies: map<Hash, Tally>, hs: seq<Hash>): int
    requires AllTallied(tallies, hs)
  {
    if hs == [] then 0
    else
      assert hs[|hs| - 1] in hs && forall h :: h in hs[..|hs| - 1] ==> h in hs;
      SlotStake(tallies, hs[..|hs| - 1]) + tallies[hs[|hs| - 1]].totalStake
  }

  // The documented rule: a side holds more than two thirds of the non-abstain stake.
  predicate Quorum(tallies: map<Hash, Tally>, hs: seq<Hash>, h: Hash)
    requires AllTallied(tallies, hs) && h in hs
  {
    3 * tallies[h].approveStake > 2 * SlotStake(tallies, hs)
  }

  // No stake is negative, and approvals are part of the total.
  predicate Staked(tallies: map<Hash, Tally>, hs: seq<Hash>)
    requires AllTallied(tallies, hs)
  {
    forall h :: h in hs ==> 0 <= tallies[h].approveStake <= tallies[h].totalStake
  }

  lemma {:induction false} SlotStakeBounds(tallies: map<Hash, Tally>, hs: seq<Hash>, i: nat, j: nat)
    requires AllTallied(tallies, hs) && Staked(tallies, hs) && i <= j < |hs|
    ensures hs[i] in hs && hs[j] in hs
    ensures tallies[hs[j]].totalStake + (if i < j then tallies[hs[i]].totalStake else 0) <= SlotStake(tallies, hs)
  {
    var n := |hs| - 1;
    var init := hs[..n];
    assert hs[i] in hs && hs[j] in hs && hs[n] in hs && forall h :: h in init ==> h in hs;
    if j < n {
      SlotStakeBounds(tallies, init, i, j);
    } else if i < n {
      SlotStakeBounds(tallies, init, i, i);
    } else if n > 0 {
      SlotStakeBounds(tallies, init, 0, 0);
      assert init[0] == hs[0] && hs[0] in hs;
    }
  }

  // A quorum is the sibling the code decides for, at any clock.
  lemma QuorumDecides(tallies: map<Hash, Tally>, hs: seq<Hash>, i: nat, now: int)
    requires |hs| > 1 && Distinct(hs) && AllTallied(tallies, hs) && Staked(tallies, hs)
    requires i < |hs| && hs[i] in hs && Quorum(tallies, hs, hs[i])
    ensures Decision(tallies, hs, now) == Some(hs[i])
  {
    var best := Leader(tallies, hs);
    assert hs[best] in hs;
    SlotStakeBounds(tallies, hs, best, best);
    if best < i {
      SlotStakeBounds(tallies, hs, best, i);
    } else if i < best {
      SlotStakeBounds(tallies, hs, i, best);
    }
  }

  // The code looks at the leader's own tally. Before the timeout it decides without a quorum exactly when the leader has
  // at least two thirds of its own tally but at most two thirds of the whole conflict.
  lemma WithoutQuorumIff(tallies: map<Hash, Tally>, hs: seq<Hash>, now: int)
    requires |hs| > 1 && Distinct(hs) && AllTallied(tallies, hs) && Staked(tallies, hs)
    requires now - Oldest(tallies, hs) <= 10_000
    ensures hs[Leader(tallies, hs)] in hs
    ensures var best := tallies[hs[Leader(tallies, hs)]];
            Decision(tallies, hs, now).Some? && (forall h :: h in hs ==> !Quorum(tallies, hs, h)) <==>
            best.totalStake > 0 && 2 * best.totalStake <= 3 * best.approveStake <= 2 * SlotStake(tallies, hs)
  {
    var best := Leader(tallies, hs);
    assert hs[best] in hs;
    forall h | h in hs && Quorum(tallies, hs, h)
      ensures Quorum(tallies, hs, hs[best])
    {
      var i :| 0 <= i < |hs| && hs[i] == h;
      QuorumDecides(tallies, hs, i, now);
    }
  }

  lemma RunStaked(env: Env, es: seq<Event>, hs: seq<Hash>)
    requires AllTallied(Run(env, es).votes.tallies, hs)
    ensures Staked(Run(env, es).votes.tallies, hs)
  {
    var v := Run(env, es).votes;
    EveryTallyAccounted(env, es);
    forall h | h in hs
      ensures 0 <= v.tallies[h].approveStake <= v.tallies[h].totalStake
    {
      StakesPositive(env, es, h, v.tallies[h], Approves);
      StakesPositive(env, es, h, v.tallies[h], Rejects);
    }
  }

  // In every reachable state, for every slot under vote: a quorum decides the slot for its side at any clock; and before
  // the timeout the code decides without one exactly in the range between the two bounds. So the documented rule never
  // decides where or for whom the code does not, and the converse fails exactly there.
  lemma QuorumAndCode(env: Env, es: seq<Event>, k: Slot, now: int)
    requires CollisionFree(env) && k in Run(env, es).votes.siblings && OpenSlot(Run(env, es).votes, Run(env, es).votes.siblings[k])
    ensures var t, hs := Run(env, es).votes.tallies, Run(env, es).votes.siblings[k];
            && (forall h :: h in hs && Quorum(t, hs, h) ==> Decision(t, hs, now) == Some(h))
            && hs[Leader(t, hs)] in hs
            && var best := t[hs[Leader(t, hs)]];
               (now - Oldest(t, hs) <= 10_000 ==>
                 (Decision(t, hs, now).Some? && (forall h :: h in hs ==> !Quorum(t, hs, h)) <==>
                  best.totalStake > 0 && 2 * best.totalStake <= 3 * best.approveStake <= 2 * SlotStake(t, hs)))
  {
    var t, hs := Run(env, es).votes.tallies, Run(env, es).votes.siblings[k];
    EveryRunSafe(env, es);
    assert Distinct(hs);
    RunStaked(env, es, hs);
    QuorumOfSlot(t, hs, now);
  }

  lemma QuorumOfSlot(t: map<Hash, Tally>, hs: seq<Hash>, now: int)
    requires |hs| > 1 && Distinct(hs) && AllTallied(t, hs) && Staked(t, hs)
    ensures forall h :: h in hs && Quorum(t, hs, h) ==> Decision(t, hs, now) == Some(h)
    ensures hs[Leader(t, hs)] in hs
    ensures var best := t[hs[Leader(t, hs)]];
            now - Oldest(t, hs) <= 10_000 ==>
              (Decision(t, hs, now).Some? && (forall h :: h in hs ==> !Quorum(t, hs, h)) <==>
               best.totalStake > 0 && 2 * best.totalStake <= 3 * best.approveStake <= 2 * SlotStake(t, hs))
  {
    forall h | h in hs && Quorum(t, hs, h)
      ensures Decision(t, hs, now) == Some(h)
    {
      var i :| 0 <= i < |hs| && hs[i] == h;
      QuorumDecides(t, hs, i, now);
    }
    assert hs[Leader(t, hs)] in hs;
    if now - Oldest(t, hs) <= 10_000 {
      WithoutQuorumIff(t, hs, now);
    }
  }

  // Exactly when a slot resolves: two thirds of the leader's tally approve, or some tally is older than ten seconds and
  // either the leader has an approval or every sibling has a vote.
  lemma DecidesIff(tallies: map<Hash, Tally>, hs: seq<Hash>, now: int)
    requires |hs| > 1 && AllTallied(tallies, hs)
    ensures hs[Leader(tallies, hs)] in hs
    ensures var best := tallies[hs[Leader(tallies, hs)]];
            Decision(tallies, hs, now).Some? <==>
            || (best.totalStake > 0 && 3 * best.approveStake >= 2 * best.totalStake)
            || ((exists h :: h in hs && now - tallies[h].createdAt > 10_000) &&
                (best.approveStake > 0 || forall h :: h in hs ==> tallies[h].totalStake + tallies[h].abstainStake != 0))
  {
    assert hs[Leader(tallies, hs)] in hs;
    OldestIsLeast(tallies, hs);
  }

  lemma {:induction false} OldestIsLeast(tallies: map<Hash, Tally>, hs: seq<Hash>)
    requires hs != [] && AllTallied(tallies, hs)
    ensures forall h :: h in hs ==> Oldest(tallies, hs) <= tallies[h].createdAt
    ensures exists h :: h in hs && Oldest(tallies, hs) == tallies[h].createdAt
  {
    var n := |hs| - 1;
    assert hs[n] in hs && forall h :: h in hs[..n] ==> h in hs;
    assert hs == hs[..n] + [hs[n]];
    if n > 0 {
      OldestIsLeast(tallies, hs[..n]);
      OldestOneMore(tallies, hs, n);
    }
  }

  lemma OldestOneMore(tallies: map<Hash, Tally>, hs: seq<Hash>, n: nat)
    requires 0 < n == |hs| - 1 && AllTallied(tallies, hs) && AllTallied(tallies, hs[..n])
    ensures hs[n] in hs
    ensures Oldest(tallies, hs) == Min(Oldest(tallies, hs[..n]), tallies[hs[n]].createdAt)
  {
    assert hs[n] in hs;
  }

  // A decision, after the timeout as before, names a sibling exactly when it has the greatest approve stake and every
  // sibling registered before it has less: the earliest block wins only if it is that one.
  lemma DecidesForIff(tallies: map<Hash, Tally>, hs: seq<Hash>, i: nat, now: int)
    requires Distinct(hs) && i < |hs| && Decision(tallies, hs, now).Some?
    ensures forall j :: 0 <= j < |hs| ==> hs[j] in tallies
    ensures Decision(tallies, hs, now) == Some(hs[i]) <==>
            && (forall j :: 0 <= j < |hs| ==> tallies[hs[j]].approveStake <= tallies[hs[i]].approveStake)
            && (forall j :: 0 <= j < i ==> tallies[hs[j]].approveStake < tallies[hs[i]].approveStake)
  {
    assert forall j :: 0 <= j < |hs| ==> hs[j] in hs;
    var best := Leader(tallies, hs);
    if best < i {
      assert tallies[hs[i]].approveStake <= tallies[hs[best]].approveStake;
    }
  }
}
