// Slot safety and finality of conflict voting, over every run of a node.
module VoteSafety {
  import opened Basics
  import opened DagBlock
  import opened LedgerState
  import opened Votes
  import opened Nodes
  import opened Health

  // The slot a hash belongs to: the account and parent of the block that has this hash.
  ghost function Home(env: Env, h: Hash): Slot {
    if exists b: Block :: HashMatches(env, b) && b.hash == h then
      var b: Block :| HashMatches(env, b) && b.hash == h;
      SlotOf(b)
    else Slot("", "")
  }

  lemma HomeOfBlock(env: Env, b: Block)
    requires CollisionFree(env) && HashMatches(env, b)
    ensures Home(env, b.hash) == SlotOf(b)
  {
  }

  // ----- The states of a slot ------------------------------------------------------------------

  // A conflict under vote: every sibling has a tally and none is confirmed.
  predicate OpenSlot(v: VoteState, hs: seq<Hash>) {
    |hs| > 1 && forall h :: h in hs ==> h in v.tallies && h !in v.confirmed
  }

  // Exactly one sibling is confirmed, the others are rejected, and no tally is left.
  predicate DecidedSlot(v: VoteState, hs: seq<Hash>, winner: Hash) {
    && winner in hs && winner in v.confirmed
    && forall h :: h in hs ==> h !in v.tallies && (h != winner ==> h !in v.confirmed && h in v.rejected)
  }

  ghost predicate SlotSettled(v: VoteState, hs: seq<Hash>) {
    OpenSlot(v, hs) || exists w :: DecidedSlot(v, hs, w)
  }

  predicate Distinct<T(==)>(xs: seq<T>) {
    forall i, j :: 0 <= i < j < |xs| ==> xs[i] != xs[j]
  }

  ghost predicate SlotsListed(v: VoteState) {
    Distinct(v.slotOrder) && forall k :: k in v.slotOrder <==> k in v.siblings
  }

  ghost predicate SiblingsAtHome(env: Env, siblings: map<Slot, seq<Hash>>) {
    && (forall k :: k in siblings ==> siblings[k] != [] && Distinct(siblings[k]))
    && (forall k, h :: k in siblings && h in siblings[k] ==> Home(env, h) == k)
  }

  // Every hash with a status is listed under its own slot.
  ghost predicate StatusListed(env: Env, v: VoteState) {
    forall h :: h in v.confirmed || h in v.rejected || h in v.tallies ==> h in Siblings(v, Home(env, h))
  }

  ghost predicate WellListed(env: Env, v: VoteState) {
    SlotsListed(v) && SiblingsAtHome(env, v.siblings) && StatusListed(env, v)
  }

  ghost predicate Safe(env: Env, v: VoteState) {
    WellListed(env, v) && forall k :: k in v.siblings ==> SlotSettled(v, v.siblings[k])
  }

  // Two vote states that treat the hashes of one slot alike.
  ghost predicate SameOn(v: VoteState, u: VoteState, hs: seq<Hash>) {
    forall h :: h in hs ==>
      && (h in v.confirmed <==> h in u.confirmed) && (h in v.rejected <==> h in u.rejected)
      && Lookup(v.tallies, h) == Lookup(u.tallies, h)
  }

  lemma SameOnSettled(v: VoteState, u: VoteState, hs: seq<Hash>)
    requires SameOn(v, u, hs)
    ensures SlotSettled(v, hs) ==> SlotSettled(u, hs)
    ensures forall w :: DecidedSlot(v, hs, w) ==> DecidedSlot(u, hs, w)
  {
    assert forall h :: h in hs ==> (h in v.tallies <==> Lookup(v.tallies, h).Some?) && (h in u.tallies <==> Lookup(u.tallies, h).Some?);
    forall w | DecidedSlot(v, hs, w)
      ensures DecidedSlot(u, hs, w)
    {
    }
  }

  // At most one block per (account, parent) is confirmed, and no confirmed block has an open tally.
  lemma SafeMeansOneWinner(env: Env, v: VoteState, g: Hash, h: Hash)
    requires Safe(env, v) && g in v.confirmed && h in v.confirmed && Home(env, g) == Home(env, h)
    ensures g == h && g !in v.tallies
  {
  }

  // ----- registerBlock -------------------------------------------------------------------------

  lemma RegisterKeepsSlots(env: Env, v: VoteState, h: Hash, k: Slot, now: int)
    requires SlotsListed(v) && SiblingsAtHome(env, v.siblings) && Home(env, h) == k
    ensures SlotsListed(Register(v, h, k, now)) && SiblingsAtHome(env, Register(v, h, k, now).siblings)
  {
    var joined := Joined(v, h, k);
    assert k in v.siblings ==> Distinct(v.siblings[k]);
    assert joined != [] && Distinct(joined) && forall g :: g in joined ==> g == h || (k in v.siblings && g in v.siblings[k]);
    assert SiblingsAtHome(env, v.siblings[k := joined]);
  }

  lemma RegisterAddsStatuses(v: VoteState, h: Hash, k: Slot, now: int, g: Hash)
    ensures var u := Register(v, h, k, now);
            && (g in u.confirmed || g in u.rejected || g in u.tallies ==>
                  g in v.confirmed || g in v.rejected || g in v.tallies || g in Siblings(u, k))
            && forall j :: Siblings(v, j) <= Siblings(u, j)
  {
  }

  lemma RegisterKeepsStatuses(env: Env, v: VoteState, h: Hash, k: Slot, now: int)
    requires SiblingsAtHome(env, Register(v, h, k, now).siblings) && StatusListed(env, v)
    ensures StatusListed(env, Register(v, h, k, now))
  {
    var u := Register(v, h, k, now);
    forall g | g in u.confirmed || g in u.rejected || g in u.tallies
      ensures g in Siblings(u, Home(env, g))
    {
      RegisterAddsStatuses(v, h, k, now, g);
    }
  }

  lemma RegisterElsewhere(env: Env, v: VoteState, h: Hash, k: Slot, now: int, j: Slot)
    requires SiblingsAtHome(env, v.siblings) && Home(env, h) == k && j != k && j in v.siblings
    ensures Siblings(Register(v, h, k, now), j) == v.siblings[j] && SameOn(v, Register(v, h, k, now), v.siblings[j])
  {
    forall g | g in v.siblings[j]
      ensures g !in Joined(v, h, k)
    {
      assert Home(env, g) == j && (k in v.siblings && g in v.siblings[k] ==> Home(env, g) == k);
    }
  }

  lemma RegisterAgain(v: VoteState, h: Hash, k: Slot, now: int)
    requires h in Siblings(v, k) && SlotSettled(v, v.siblings[k])
    ensures Register(v, h, k, now) == v
  {
  }

  lemma RegisterNew(v: VoteState, h: Hash, k: Slot, now: int)
    requires h !in Siblings(v, k) && h !in v.confirmed && h !in v.rejected
    ensures var u := Register(v, h, k, now);
            && Siblings(u, k) == Siblings(v, k) + [h]
            && (Siblings(v, k) == [] && h !in v.tallies ==> DecidedSlot(u, [h], h))
            && (Siblings(v, k) != [] ==> OpenSlot(u, Siblings(u, k)))
  {
  }

  // Registering settles the block's own slot: it stays as it is unless a further sibling joins and reopens it.
  lemma RegisterHere(env: Env, v: VoteState, h: Hash, k: Slot, now: int)
    requires Safe(env, v) && Home(env, h) == k
    ensures var u := Register(v, h, k, now);
            && h in Siblings(u, k) && SlotSettled(u, Siblings(u, k))
            && (h in Siblings(v, k) ==> u == v)
            && (h !in Siblings(v, k) ==> Siblings(u, k) == Siblings(v, k) + [h])
            && (h !in Siblings(v, k) && Siblings(v, k) == [] ==> DecidedSlot(u, [h], h))
            && (h !in Siblings(v, k) && Siblings(v, k) != [] ==> OpenSlot(u, Siblings(u, k)))
  {
    if h in Siblings(v, k) {
      RegisterAgain(v, h, k, now);
    } else {
      assert h !in v.confirmed && h !in v.rejected && h !in v.tallies;
      RegisterNew(v, h, k, now);
      assert [] + [h] == [h];
    }
  }

  lemma RegisterKeepsSafe(env: Env, v: VoteState, h: Hash, k: Slot, now: int)
    requires Safe(env, v) && Home(env, h) == k
    ensures Safe(env, Register(v, h, k, now))
  {
    var u := Register(v, h, k, now);
    RegisterKeepsSlots(env, v, h, k, now);
    RegisterKeepsStatuses(env, v, h, k, now);
    RegisterHere(env, v, h, k, now);
    forall j | j in u.siblings
      ensures SlotSettled(u, u.siblings[j])
    {
      if j != k {
        RegisterElsewhere(env, v, h, k, now, j);
        SameOnSettled(v, u, v.siblings[j]);
      }
    }
  }

  // ----- addVote -------------------------------------------------------------------------------

  // Votes change tallies only, and never which hashes have one.
  lemma VoteKeepsStatus(v: VoteState, vote: Vote, now: int)
    ensures var u := AddVote(v, vote, now);
            && u.confirmed == v.confirmed && u.rejected == v.rejected && u.siblings == v.siblings && u.slotOrder == v.slotOrder
            && u.tallies.Keys == v.tallies.Keys
  {
  }

  lemma VoteKeepsSafe(env: Env, v: VoteState, vote: Vote, now: int)
    requires Safe(env, v)
    ensures Safe(env, AddVote(v, vote, now))
    ensures forall hs, w :: DecidedSlot(v, hs, w) ==> DecidedSlot(AddVote(v, vote, now), hs, w)
  {
    var u := AddVote(v, vote, now);
    VoteKeepsStatus(v, vote, now);
    forall hs, w | DecidedSlot(v, hs, w)
      ensures DecidedSlot(u, hs, w)
    {
    }
    forall k | k in v.siblings
      ensures SlotSettled(u, v.siblings[k])
    {
      assert SlotSettled(v, v.siblings[k]);
      if OpenSlot(v, v.siblings[k]) {
        assert OpenSlot(u, v.siblings[k]);
      }
    }
  }

  // ----- resolveConflicts ----------------------------------------------------------------------

  lemma {:induction false} LosersAreTheOthers(hs: seq<Hash>, winner: Hash)
    ensures forall h :: h in Losers(hs, winner) <==> h in hs && h != winner
  {
    if hs != [] {
      var n := |hs| - 1;
      LosersAreTheOthers(hs[..n], winner);
      assert hs == hs[..n] + [hs[n]];
    }
  }

  // What a resolution has done to a slot, starting from `v`: nothing, or exactly what the slot's own tallies decide.
  ghost predicate ResolvedAs(v: VoteState, r: Resolution, hs: seq<Hash>, winner: Option<Hash>) {
    match winner
    case None => SameOn(v, r.votes, hs) && forall h :: h in hs ==> h !in r.confirmed && h !in r.rejected
    case Some(w) =>
      && DecidedSlot(r.votes, hs, w) && w in r.confirmed && w !in r.rejected
      && (w in r.votes.rejected <==> w in v.rejected)
      && forall h :: h in hs && h != w ==> h in r.rejected && h !in r.confirmed
  }

  lemma ResolveHere(v: VoteState, r: Resolution, k: Slot, now: int)
    requires k in v.siblings && r.votes.siblings == v.siblings && SlotSettled(v, v.siblings[k])
    requires ResolvedAs(v, r, v.siblings[k], None)
    ensures ResolvedAs(v, ResolveSlot(r, k, now), v.siblings[k], Decision(v.tallies, v.siblings[k], now))
  {
    var hs := v.siblings[k];
    SameDecision(v.tallies, r.votes.tallies, hs, now);
    var w := Decision(v.tallies, hs, now);
    if w.Some? {
      LosersAreTheOthers(hs, w.value);
    }
  }

  // Resolving one slot leaves the hashes of another alone.
  lemma ResolveThere(v: VoteState, r: Resolution, k: Slot, now: int, hs: seq<Hash>, winner: Option<Hash>)
    requires forall h :: h in hs ==> h !in Siblings(r.votes, k)
    requires ResolvedAs(v, r, hs, winner)
    ensures ResolvedAs(v, ResolveSlot(r, k, now), hs, winner)
  {
    var ks := Siblings(r.votes, k);
    var w := Decision(r.votes.tallies, ks, now);
    if w.Some? {
      LosersAreTheOthers(ks, w.value);
      var s := ResolveSlot(r, k, now);
      assert forall h :: h in hs ==> (h in s.votes.tallies <==> h in r.votes.tallies);
    }
  }

  lemma {:induction false} SameLeader(t: map<Hash, Tally>, u: map<Hash, Tally>, hs: seq<Hash>)
    requires hs != [] && AllTallied(t, hs) && forall h :: h in hs ==> Lookup(t, h) == Lookup(u, h)
    ensures AllTallied(u, hs) && Leader(t, hs) == Leader(u, hs) && Oldest(t, hs) == Oldest(u, hs)
  {
    assert forall h :: h in hs ==> Lookup(t, h) == Some(t[h]);
    assert forall h :: h in hs ==> h in u && u[h] == t[h];
    if |hs| > 1 {
      assert forall h :: h in hs[..|hs| - 1] ==> h in hs;
      SameLeader(t, u, hs[..|hs| - 1]);
    }
  }

  lemma SameDecision(t: map<Hash, Tally>, u: map<Hash, Tally>, hs: seq<Hash>, now: int)
    requires forall h :: h in hs ==> Lookup(t, h) == Lookup(u, h)
    ensures Decision(t, hs, now) == Decision(u, hs, now)
  {
    assert forall h :: h in hs ==> (h in t <==> Lookup(t, h).Some?) && (h in u <==> Lookup(u, h).Some?);
    if |hs| > 1 && AllTallied(t, hs) {
      SameLeader(t, u, hs);
      assert forall h :: h in hs ==> Lookup(t, h) == Some(t[h]) && u[h] == t[h];
    }
  }

  // The part of the work done after resolving some of the slots.
  ghost predicate ResolvedSoFar(v: VoteState, r: Resolution, slots: seq<Slot>, k: Slot, now: int)
    requires k in v.siblings
  {
    ResolvedAs(v, r, v.siblings[k], if k in slots then Decision(v.tallies, v.siblings[k], now) else None)
  }

  lemma ResolveOneMore(env: Env, v: VoteState, r: Resolution, init: seq<Slot>, k: Slot, now: int, j: Slot)
    requires Safe(env, v) && k in v.siblings && j in v.siblings && r.votes.siblings == v.siblings && k !in init
    requires ResolvedSoFar(v, r, init, j, now)
    ensures ResolvedSoFar(v, ResolveSlot(r, k, now), init + [k], j, now)
  {
    assert j in init + [k] <==> j in init || j == k;
    if j == k {
      ResolveHere(v, r, k, now);
    } else {
      OtherSlotDisjoint(env, v.siblings, j, k);
      ResolveThere(v, r, k, now, v.siblings[j], if j in init then Decision(v.tallies, v.siblings[j], now) else None);
    }
  }

  ghost predicate ResolvedUpTo(v: VoteState, r: Resolution, slots: seq<Slot>, now: int) {
    && r.votes.siblings == v.siblings && r.votes.slotOrder == v.slotOrder
    && (forall k :: k in v.siblings ==> ResolvedSoFar(v, r, slots, k, now))
  }

  lemma ResolveNext(env: Env, v: VoteState, r: Resolution, init: seq<Slot>, k: Slot, now: int)
    requires Safe(env, v) && k in v.siblings && k !in init && ResolvedUpTo(v, r, init, now)
    ensures ResolvedUpTo(v, ResolveSlot(r, k, now), init + [k], now)
  {
    forall j | j in v.siblings
      ensures ResolvedSoFar(v, ResolveSlot(r, k, now), init + [k], j, now)
    {
      ResolveOneMore(env, v, r, init, k, now, j);
    }
  }

  lemma LastOfPrefix(env: Env, v: VoteState, slots: seq<Slot>)
    requires Safe(env, v) && slots <= v.slotOrder && slots != []
    ensures slots[..|slots| - 1] <= v.slotOrder
    ensures slots[|slots| - 1] in v.siblings && slots[|slots| - 1] !in slots[..|slots| - 1]
    ensures slots == slots[..|slots| - 1] + [slots[|slots| - 1]]
  {
  }

  lemma {:induction false} ResolvePrefix(env: Env, v: VoteState, slots: seq<Slot>, now: int)
    requires Safe(env, v) && slots <= v.slotOrder
    ensures ResolvedUpTo(v, ResolveSlots(v, slots, now), slots, now)
  {
    if slots == [] {
      ResolveNone(v, now);
    } else {
      LastOfPrefix(env, v, slots);
      ResolvePrefix(env, v, slots[..|slots| - 1], now);
      ResolveNext(env, v, ResolveSlots(v, slots[..|slots| - 1], now), slots[..|slots| - 1], slots[|slots| - 1], now);
    }
  }

  lemma ResolveNone(v: VoteState, now: int)
    ensures ResolvedUpTo(v, ResolveSlots(v, [], now), [], now)
  {
  }

  lemma OtherSlotDisjoint(env: Env, siblings: map<Slot, seq<Hash>>, j: Slot, k: Slot)
    requires SiblingsAtHome(env, siblings) && j in siblings && k in siblings && j != k
    ensures forall h :: h in siblings[j] ==> h !in siblings[k]
  {
    forall h | h in siblings[j]
      ensures h !in siblings[k]
    {
      assert Home(env, h) == j && (h in siblings[k] ==> Home(env, h) == k);
    }
  }

  // Each slot resolves by its own tallies alone, whatever the order of the slots: a decided slot gets the sibling
  // Decision names as its one winner and all others rejected, and every other slot is left as it was.
  lemma ResolvesSlotBySlot(env: Env, v: VoteState, k: Slot, now: int)
    requires Safe(env, v) && k in v.siblings
    ensures var r := ResolveConflicts(v, now);
            r.votes.siblings == v.siblings && ResolvedAs(v, r, v.siblings[k], Decision(v.tallies, v.siblings[k], now))
  {
    ResolvePrefix(env, v, v.slotOrder, now);
    assert ResolvedSoFar(v, ResolveConflicts(v, now), v.slotOrder, k, now);
  }

  lemma ResolveKeepsSafe(env: Env, v: VoteState, now: int)
    requires Safe(env, v)
    ensures Safe(env, ResolveConflicts(v, now).votes)
  {
    var u := ResolveConflicts(v, now).votes;
    ResolvePrefix(env, v, v.slotOrder, now);
    ResolveKeepsStatuses(env, v, v.slotOrder, now);
    forall k | k in u.siblings
      ensures SlotSettled(u, u.siblings[k])
    {
      ResolvesSlotBySlot(env, v, k, now);
      if Decision(v.tallies, v.siblings[k], now).None? {
        SameOnSettled(v, u, v.siblings[k]);
      }
    }
  }

  lemma ResolveSlotKeepsStatuses(env: Env, r: Resolution, k: Slot, now: int)
    requires SiblingsAtHome(env, r.votes.siblings) && StatusListed(env, r.votes)
    ensures StatusListed(env, ResolveSlot(r, k, now).votes)
  {
    var hs := Siblings(r.votes, k);
    var w := Decision(r.votes.tallies, hs, now);
    if w.Some? {
      LosersAreTheOthers(hs, w.value);
      forall h | h in hs
        ensures h in Siblings(r.votes, Home(env, h))
      {
        assert Home(env, h) == k;
      }
    }
  }

  lemma {:induction false} ResolveKeepsStatuses(env: Env, v: VoteState, slots: seq<Slot>, now: int)
    requires SiblingsAtHome(env, v.siblings) && StatusListed(env, v)
    ensures var u := ResolveSlots(v, slots, now).votes; u.siblings == v.siblings && StatusListed(env, u)
  {
    if slots != [] {
      ResolveKeepsStatuses(env, v, slots[..|slots| - 1], now);
      ResolveSlotKeepsStatuses(env, ResolveSlots(v, slots[..|slots| - 1], now), slots[|slots| - 1], now);
    }
  }

  // ----- Runs ----------------------------------------------------------------------------------

  lemma SubmitKeepsSafe(env: Env, n: Node, b: Block, now: int)
    requires CollisionFree(env) && Safe(env, n.votes)
    ensures Safe(env, SubmitBlock(env, n, b, now).votes)
  {
    if ReachesVotes(env, n.ledger, b, now) {
      HomeOfBlock(env, b);
      RegisterKeepsSafe(env, n.votes, b.hash, SlotOf(b), now);
    }
  }

  lemma CastKeepsSafe(env: Env, n: Node, vote: Vote, now: int)
    requires Safe(env, n.votes)
    ensures Safe(env, CastVote(n, vote, now).votes)
  {
    var stake := VerifiedStake(n.ledger, vote);
    if stake.Some? && stake.value > 0 {
      VoteKeepsSafe(env, n.votes, vote.(stake := stake.value), now);
    }
  }

  lemma {:induction false} EveryRunSafe(env: Env, es: seq<Event>)
    requires CollisionFree(env)
    ensures Safe(env, Run(env, es).votes)
  {
    if es != [] {
      var n := Run(env, es[..|es| - 1]);
      EveryRunSafe(env, es[..|es| - 1]);
      match es[|es| - 1]
      case Submit(b, now) => SubmitKeepsSafe(env, n, b, now);
      case Enroll(_, _) =>
      case Cast(vote, now) => CastKeepsSafe(env, n, vote, now);
      case Process(now) => ResolveKeepsSafe(env, n.votes, now);
    }
  }

  // In every reachable state at most one block per (account, parent) is confirmed, none of them under vote.
  lemma OneConfirmedPerSlot(env: Env, es: seq<Event>, a: Block, b: Block)
    requires CollisionFree(env) && HashMatches(env, a) && HashMatches(env, b) && SlotOf(a) == SlotOf(b)
    requires a.hash in Run(env, es).votes.confirmed && b.hash in Run(env, es).votes.confirmed
    ensures a.hash == b.hash && a.hash !in Run(env, es).votes.tallies
  {
    EveryRunSafe(env, es);
    HomeOfBlock(env, a);
    HomeOfBlock(env, b);
    SafeMeansOneWinner(env, Run(env, es).votes, a.hash, b.hash);
  }

  // One resolution of a reachable state: every slot that resolves confirms one sibling of maximal approve stake and
  // rejects all others; every other slot keeps its state.
  lemma ResolutionOfReachable(env: Env, es: seq<Event>, k: Slot, now: int)
    requires CollisionFree(env) && k in Run(env, es).votes.siblings
    ensures var v := Run(env, es).votes;
            var r, hs, w := ResolveConflicts(v, now), v.siblings[k], Decision(v.tallies, v.siblings[k], now);
            && ResolvedAs(v, r, hs, w)
            && (w.Some? ==> OpenSlot(v, hs) && forall h :: h in hs ==> v.tallies[h].approveStake <= v.tallies[w.value].approveStake)
  {
    var v := Run(env, es).votes;
    EveryRunSafe(env, es);
    ResolvesSlotBySlot(env, v, k, now);
    assert SlotSettled(v, v.siblings[k]);
  }

  // ----- Finality ------------------------------------------------------------------------------

  // A decided slot keeps its list of siblings and its winner, or a further sibling has joined.
  predicate StaysDecided(u: VoteState, k: Slot, hs: seq<Hash>, winner: Hash) {
    hs <= Siblings(u, k) && (Siblings(u, k) == hs ==> DecidedSlot(u, hs, winner))
  }

  lemma SubmitKeepsDecision(env: Env, n: Node, b: Block, now: int, k: Slot, winner: Hash)
    requires CollisionFree(env) && Safe(env, n.votes) && DecidedSlot(n.votes, Siblings(n.votes, k), winner)
    ensures StaysDecided(SubmitBlock(env, n, b, now).votes, k, Siblings(n.votes, k), winner)
  {
    var v := n.votes;
    if ReachesVotes(env, n.ledger, b, now) {
      HomeOfBlock(env, b);
      RegisterHere(env, v, b.hash, SlotOf(b), now);
      if SlotOf(b) != k {
        RegisterElsewhere(env, v, b.hash, SlotOf(b), now, k);
        SameOnSettled(v, Register(v, b.hash, SlotOf(b), now), v.siblings[k]);
      }
    }
  }

  lemma ResolveKeepsDecision(env: Env, v: VoteState, now: int, k: Slot, winner: Hash)
    requires Safe(env, v) && DecidedSlot(v, Siblings(v, k), winner)
    ensures StaysDecided(ResolveConflicts(v, now).votes, k, Siblings(v, k), winner)
  {
    ResolvesSlotBySlot(env, v, k, now);
    assert Decision(v.tallies, v.siblings[k], now).None?;
    SameOnSettled(v, ResolveConflicts(v, now).votes, v.siblings[k]);
  }

  lemma CastKeepsDecision(env: Env, n: Node, vote: Vote, now: int, k: Slot, winner: Hash)
    requires Safe(env, n.votes) && DecidedSlot(n.votes, Siblings(n.votes, k), winner)
    ensures StaysDecided(CastVote(n, vote, now).votes, k, Siblings(n.votes, k), winner)
  {
    var stake := VerifiedStake(n.ledger, vote);
    if stake.Some? && stake.value > 0 {
      VoteKeepsStatus(n.votes, vote.(stake := stake.value), now);
    }
  }

  lemma StepKeepsDecision(env: Env, n: Node, e: Event, k: Slot, winner: Hash)
    requires CollisionFree(env) && Safe(env, n.votes) && DecidedSlot(n.votes, Siblings(n.votes, k), winner)
    ensures StaysDecided(Step(env, n, e).votes, k, Siblings(n.votes, k), winner)
  {
    match e
    case Submit(b, now) => SubmitKeepsDecision(env, n, b, now, k, winner);
    case Enroll(_, _) =>
    case Cast(vote, now) => CastKeepsDecision(env, n, vote, now, k, winner);
    case Process(now) => ResolveKeepsDecision(env, n.votes, now, k, winner);
  }

  lemma SiblingsOnlyGrow(env: Env, n: Node, e: Event, k: Slot)
    requires CollisionFree(env) && Safe(env, n.votes)
    ensures Siblings(n.votes, k) <= Siblings(Step(env, n, e).votes, k)
  {
    match e
    case Submit(b, now) =>
    case Enroll(_, _) =>
    case Cast(vote, now) =>
    case Process(now) => ResolvePrefix(env, n.votes, n.votes.slotOrder, now);
  }

  // Once a slot is decided it stays decided for the same winner under all later calls, unless a further
  // distinct sibling has been registered for it.
  lemma {:induction false} DecisionIsFinal(env: Env, es: seq<Event>, fs: seq<Event>, k: Slot, winner: Hash)
    requires CollisionFree(env) && DecidedSlot(Run(env, es).votes, Siblings(Run(env, es).votes, k), winner)
    ensures StaysDecided(Run(env, es + fs).votes, k, Siblings(Run(env, es).votes, k), winner)
  {
    if fs == [] {
      assert es + fs == es;
    } else {
      var init := es + fs[..|fs| - 1];
      assert (es + fs)[..|es + fs| - 1] == init;
      var n, e, hs := Run(env, init), fs[|fs| - 1], Siblings(Run(env, es).votes, k);
      DecisionIsFinal(env, es, fs[..|fs| - 1], k, winner);
      EveryRunSafe(env, init);
      SiblingsOnlyGrow(env, n, e, k);
      if Siblings(n.votes, k) == hs {
        StepKeepsDecision(env, n, e, k, winner);
      }
    }
  }

  // ----- Stored blocks and their status --------------------------------------------------------

  ghost predicate NoneRejected(n: Node) {
    forall h :: h in n.ledger.blocks ==> h !in n.votes.rejected
  }

  // In every state the run passes through, no stored block is among the rejected ones.
  ghost predicate NeverStoresRejected(env: Env, es: seq<Event>) {
    NoneRejected(Run(env, es)) && (es != [] ==> NeverStoresRejected(env, es[..|es| - 1]))
  }

  // Nobody gets a rejected block accepted again.
  predicate NoResubmission(env: Env, es: seq<Event>) {
    es != [] ==>
      && NoResubmission(env, es[..|es| - 1])
      && var n, e := Run(env, es[..|es| - 1]), es[|es| - 1];
         (e.Submit? && Judge(env, n.ledger, e.block, e.now).Accepted? ==> e.block.hash !in n.votes.rejected)
  }

  // Every stored block is listed with the vote manager under its slot.
  ghost predicate StoredListed(n: Node) {
    forall h :: h in n.ledger.blocks ==> n.ledger.blocks[h].hash == h && h in Siblings(n.votes, SlotOf(n.ledger.blocks[h]))
  }

  lemma AddBlocks(env: Env, s: Ledger, b: Block, now: int)
    ensures forall h :: h in AddBlock(env, s, b, now).blocks ==>
              (if h in s.blocks && (h != b.hash || !Judge(env, s, b, now).Accepted?) then AddBlock(env, s, b, now).blocks[h] == s.blocks[h]
               else h == b.hash && Judge(env, s, b, now).Accepted? && AddBlock(env, s, b, now).blocks[h] == b)
  {
  }

  lemma {:induction false} RejectAllBlocks(s: Ledger, hs: seq<Hash>)
    ensures forall h :: h in RejectAll(s, hs).blocks <==> h in s.blocks && h !in hs
    ensures forall h :: h in RejectAll(s, hs).blocks ==> RejectAll(s, hs).blocks[h] == s.blocks[h]
  {
    if hs != [] {
      RejectAllBlocks(s, hs[..|hs| - 1]);
      assert hs == hs[..|hs| - 1] + [hs[|hs| - 1]];
    }
  }

  lemma SubmitKeepsListed(env: Env, n: Node, b: Block, now: int)
    requires CollisionFree(env) && Safe(env, n.votes) && StoredListed(n)
    requires forall k :: Siblings(n.votes, k) <= Siblings(SubmitBlock(env, n, b, now).votes, k)
    ensures StoredListed(SubmitBlock(env, n, b, now))
  {
    AddBlocks(env, n.ledger, b, now);
    if ReachesVotes(env, n.ledger, b, now) {
      HomeOfBlock(env, b);
      RegisterHere(env, n.votes, b.hash, SlotOf(b), now);
    }
  }

  lemma CastKeepsListed(n: Node, vote: Vote, now: int)
    requires StoredListed(n)
    ensures StoredListed(CastVote(n, vote, now))
  {
    var stake := VerifiedStake(n.ledger, vote);
    if stake.Some? && stake.value > 0 {
      VoteKeepsStatus(n.votes, vote.(stake := stake.value), now);
    }
  }

  lemma ProcessKeepsListed(env: Env, n: Node, now: int)
    requires Safe(env, n.votes) && StoredListed(n)
    ensures StoredListed(ProcessConflicts(n, now))
  {
    ResolvePrefix(env, n.votes, n.votes.slotOrder, now);
    RejectAllBlocks(n.ledger, ResolveConflicts(n.votes, now).rejected);
  }

  lemma StepKeepsListed(env: Env, n: Node, e: Event)
    requires CollisionFree(env) && Safe(env, n.votes) && StoredListed(n)
    ensures StoredListed(Step(env, n, e))
  {
    match e
    case Submit(b, now) =>
      forall k
        ensures Siblings(n.votes, k) <= Siblings(SubmitBlock(env, n, b, now).votes, k)
      {
        SiblingsOnlyGrow(env, n, e, k);
      }
      SubmitKeepsListed(env, n, b, now);
    case Enroll(_, _) =>
    case Cast(vote, now) => CastKeepsListed(n, vote, now);
    case Process(now) => ProcessKeepsListed(env, n, now);
  }

  lemma {:induction false} EveryRunListed(env: Env, es: seq<Event>)
    requires CollisionFree(env)
    ensures StoredListed(Run(env, es))
  {
    if es != [] {
      EveryRunListed(env, es[..|es| - 1]);
      EveryRunSafe(env, es[..|es| - 1]);
      StepKeepsListed(env, Run(env, es[..|es| - 1]), es[|es| - 1]);
    }
  }

  // A resolution removes from the store whatever it rejects.
  lemma ProcessKeepsNoneRejected(env: Env, n: Node, now: int)
    requires Safe(env, n.votes) && StoredListed(n) && NoneRejected(n)
    ensures NoneRejected(ProcessConflicts(n, now))
  {
    var v, r := n.votes, ResolveConflicts(n.votes, now);
    RejectAllBlocks(n.ledger, r.rejected);
    forall h | h in n.ledger.blocks && h !in r.rejected
      ensures h !in r.votes.rejected
    {
      var k := SlotOf(n.ledger.blocks[h]);
      ResolvesSlotBySlot(env, v, k, now);
      assert ResolvedAs(v, r, v.siblings[k], Decision(v.tallies, v.siblings[k], now));
    }
  }

  lemma SubmitKeepsNoneRejected(env: Env, n: Node, b: Block, now: int)
    requires NoneRejected(n) && (Judge(env, n.ledger, b, now).Accepted? ==> b.hash !in n.votes.rejected)
    ensures NoneRejected(SubmitBlock(env, n, b, now))
  {
  }

  // addBlock stores a block the vote manager has rejected; it is then stored and rejected at once.
  lemma ResubmissionStoresRejected(env: Env, n: Node, b: Block, now: int)
    requires ChainsStored(n.ledger.blocks, n.ledger.chains) && Judge(env, n.ledger, b, now).Accepted?
    requires b.hash in n.votes.rejected
    ensures !NoneRejected(SubmitBlock(env, n, b, now))
  {
  }

  lemma SubmitKeepsNoneRejectedIff(env: Env, n: Node, b: Block, now: int)
    requires NoneRejected(n) && ChainsStored(n.ledger.blocks, n.ledger.chains)
    ensures NoneRejected(SubmitBlock(env, n, b, now)) <==>
            !(Judge(env, n.ledger, b, now).Accepted? && b.hash in n.votes.rejected)
  {
    if Judge(env, n.ledger, b, now).Accepted? && b.hash in n.votes.rejected {
      ResubmissionStoresRejected(env, n, b, now);
    } else {
      SubmitKeepsNoneRejected(env, n, b, now);
    }
  }

  lemma CastKeepsNoneRejected(n: Node, vote: Vote, now: int)
    requires NoneRejected(n)
    ensures NoneRejected(CastVote(n, vote, now))
  {
    var stake := VerifiedStake(n.ledger, vote);
    if stake.Some? && stake.value > 0 {
      VoteKeepsStatus(n.votes, vote.(stake := stake.value), now);
    }
  }

  lemma StepKeepsNoneRejected(env: Env, n: Node, e: Event)
    requires Safe(env, n.votes) && StoredListed(n) && NoneRejected(n) && ChainsStored(n.ledger.blocks, n.ledger.chains)
    ensures NoneRejected(Step(env, n, e)) <==>
            !(e.Submit? && Judge(env, n.ledger, e.block, e.now).Accepted? && e.block.hash in n.votes.rejected)
  {
    match e
    case Submit(b, now) => SubmitKeepsNoneRejectedIff(env, n, b, now);
    case Enroll(_, _) =>
    case Cast(vote, now) => CastKeepsNoneRejected(n, vote, now);
    case Process(now) => ProcessKeepsNoneRejected(env, n, now);
  }

  // Rejected blocks stay out of the store in every state of a run exactly when no rejected block is accepted again.
  lemma {:induction false} RejectedStayOutIff(env: Env, es: seq<Event>)
    requires CollisionFree(env)
    ensures NeverStoresRejected(env, es) <==> NoResubmission(env, es)
  {
    if es != [] {
      var init := es[..|es| - 1];
      RejectedStayOutIff(env, init);
      EveryRunSafe(env, init);
      EveryRunListed(env, init);
      EveryRunHealthy(env, init);
      if NeverStoresRejected(env, init) {
        assert NoneRejected(Run(env, init));
        StepKeepsNoneRejected(env, Run(env, init), es[|es| - 1]);
      }
    }
  }

  lemma SettledStatus(v: VoteState, hs: seq<Hash>, h: Hash)
    requires SlotSettled(v, hs) && h in hs && h !in v.rejected
    ensures GetStatus(v, h) == if OpenSlot(v, hs) then InConflict else IsConfirmed
    ensures !OpenSlot(v, hs) ==> forall g :: g in hs && g != h ==> g in v.rejected
  {
  }

  // Then every stored block is confirmed or under vote, and two stored blocks that share an account and a parent
  // are both under vote. What was built on the one that loses, or received from it, is not removed with it.
  lemma StoredSiblingsAreUnderVote(env: Env, es: seq<Event>, g: Hash, h: Hash)
    requires CollisionFree(env) && NoResubmission(env, es)
    requires g in Run(env, es).ledger.blocks && h in Run(env, es).ledger.blocks && g != h
    requires SlotOf(Run(env, es).ledger.blocks[g]) == SlotOf(Run(env, es).ledger.blocks[h])
    ensures GetStatus(Run(env, es).votes, g) == InConflict && GetStatus(Run(env, es).votes, h) == InConflict
  {
    var n := Run(env, es);
    var k := SlotOf(n.ledger.blocks[g]);
    RejectedStayOutIff(env, es);
    EveryRunSafe(env, es);
    EveryRunListed(env, es);
    assert NoneRejected(n) && SlotSettled(n.votes, n.votes.siblings[k]);
    SettledStatus(n.votes, n.votes.siblings[k], g);
    SettledStatus(n.votes, n.votes.siblings[k], h);
  }
}
