// The vote manager of src/core/vote.ts as a value. The class in VoteManager.dfy is proved equal to it.
module Votes {
  import opened Basics
  import opened DagBlock

  const CONFLICT_RESOLVE_TIMEOUT_MS := 10_000
  const VOTE_MAX_AGE_MS := 60_000
  const MAX_SEEN_SIGS := 50_000

  // The competing-blocks key "accountPub:previousHash".
  datatype Slot = Slot(account: Pub, previousHash: Hash)

  datatype Vote = Vote(
    blockHash: Hash, voterPub: Pub, approve: bool, stake: int, timestamp: int, signature: string,
    chainHeadHash: Option<Hash>, abstain: bool)

  datatype Tally = Tally(
    approveStake: int, rejectStake: int, abstainStake: int, totalStake: int, voterCount: int,
    votes: map<Pub, Vote>, createdAt: int)

  // `siblings` lists each slot's hashes in registration order; `slotOrder` and `seen` are insertion orders.
  datatype VoteState = VoteState(
    confirmed: set<Hash>, rejected: set<Hash>,
    siblings: map<Slot, seq<Hash>>, slotOrder: seq<Slot>,
    tallies: map<Hash, Tally>, seen: seq<string>)

  const NO_VOTES := VoteState({}, {}, map[], [], map[], [])

  function EmptyTally(now: int): Tally {
    Tally(0, 0, 0, 0, 0, map[], now)
  }

  function Siblings(v: VoteState, k: Slot): seq<Hash> {
    Lookup(v.siblings, k).GetOr([])
  }

  function Opened(tallies: map<Hash, Tally>, hs: seq<Hash>, now: int): map<Hash, Tally> {
    map h | h in hs && h !in tallies :: EmptyTally(now)
  }

  // ----- registerBlock -------------------------------------------------------------------------

  datatype Registration = Confirmed | Conflict

  function Outcome(v: VoteState, h: Hash, k: Slot): Registration {
    if h in v.confirmed then Confirmed
    else if h in v.rejected then Conflict
    else if |Joined(v, h, k)| == 1 then Confirmed
    else Conflict
  }

  function Joined(v: VoteState, h: Hash, k: Slot): seq<Hash> {
    if h in Siblings(v, k) then Siblings(v, k) else Siblings(v, k) + [h]
  }

  function Register(v: VoteState, h: Hash, k: Slot, now: int): VoteState {
    if h in v.confirmed || h in v.rejected then v
    else
      var joined := Joined(v, h, k);
      var listed := v.(siblings := v.siblings[k := joined],
                       slotOrder := if k in v.siblings then v.slotOrder else v.slotOrder + [k]);
      if |joined| == 1 then listed.(confirmed := v.confirmed + {h})
      else listed.(confirmed := v.confirmed - Elements(joined), tallies := v.tallies + Opened(v.tallies, joined, now))
  }

  // ----- addVote -------------------------------------------------------------------------------

  function Count(t: Tally, vote: Vote): Tally {
    var recorded := t.(votes := t.votes[vote.voterPub := vote], voterCount := t.voterCount + 1);
    if vote.abstain then recorded.(abstainStake := t.abstainStake + vote.stake)
    else if vote.approve then
      recorded.(approveStake := t.approveStake + vote.stake, totalStake := t.totalStake + vote.stake)
    else recorded.(rejectStake := t.rejectStake + vote.stake, totalStake := t.totalStake + vote.stake)
  }

  // A seen signature is remembered even when its vote then turns out to be stale; the oldest is evicted.
  function Remember(seen: seq<string>, signature: string): seq<string> {
    if |seen| + 1 > MAX_SEEN_SIGS then (seen + [signature])[1..] else seen + [signature]
  }

  function AddVote(v: VoteState, vote: Vote, now: int): VoteState {
    if vote.blockHash !in v.tallies || vote.voterPub in v.tallies[vote.blockHash].votes || vote.signature in v.seen then v
    else
      var noted := v.(seen := Remember(v.seen, vote.signature));
      if now - vote.timestamp > VOTE_MAX_AGE_MS then noted
      else noted.(tallies := v.tallies[vote.blockHash := Count(v.tallies[vote.blockHash], vote)])
  }

  // ----- resolveConflicts ----------------------------------------------------------------------

  predicate AllTallied(tallies: map<Hash, Tally>, hs: seq<Hash>) {
    forall h :: h in hs ==> h in tallies
  }

  // The index of the first hash with the greatest approve stake.
  function Leader(tallies: map<Hash, Tally>, hs: seq<Hash>): (i: nat)
    requires hs != [] && AllTallied(tallies, hs)
    ensures i < |hs|
    ensures forall j :: 0 <= j < |hs| ==> tallies[hs[j]].approveStake <= tallies[hs[i]].approveStake
    ensures forall j :: 0 <= j < i ==> tallies[hs[j]].approveStake < tallies[hs[i]].approveStake
  {
    var n := |hs| - 1;
    assert hs[n] in hs;
    if n == 0 then 0
    else
      assert forall h :: h in hs[..n] ==> h in hs;
      var best := Leader(tallies, hs[..n]);
      assert forall j :: 0 <= j < n ==> hs[..n][j] == hs[j];
      if tallies[hs[n]].approveStake > tallies[hs[best]].approveStake then n else best
  }

  function Oldest(tallies: map<Hash, Tally>, hs: seq<Hash>): int
    requires hs != [] && AllTallied(tallies, hs)
  {
    var n := |hs| - 1;
    assert hs[n] in hs;
    if n == 0 then tallies[hs[0]].createdAt
    else
      assert forall h :: h in hs[..n] ==> h in hs;
      Min(Oldest(tallies, hs[..n]), tallies[hs[n]].createdAt)
  }

  predicate AllVoted(tallies: map<Hash, Tally>, hs: seq<Hash>)
    requires AllTallied(tallies, hs)
  {
    forall h :: h in hs ==> tallies[h].totalStake + tallies[h].abstainStake != 0
  }

  // At least two thirds of the approve and reject stake approves.
  predicate ThresholdMet(t: Tally) {
    t.totalStake > 0 && 3 * t.approveStake >= 2 * t.totalStake
  }

  // The winner a slot resolves to at time `now`, if it resolves.
  function Decision(tallies: map<Hash, Tally>, hs: seq<Hash>, now: int): (w: Option<Hash>)
    ensures w.Some? ==> |hs| > 1 && AllTallied(tallies, hs) && w.value in hs
    ensures w.Some? ==> forall h :: h in hs ==> tallies[h].approveStake <= tallies[w.value].approveStake
  {
    if |hs| <= 1 || !AllTallied(tallies, hs) then None
    else
      var best := hs[Leader(tallies, hs)];
      assert best in hs;
      var timedOut := now - Oldest(tallies, hs) > CONFLICT_RESOLVE_TIMEOUT_MS;
      if ThresholdMet(tallies[best]) || (timedOut && tallies[best].approveStake > 0) || (timedOut && AllVoted(tallies, hs))
      then Some(best) else None
  }

  function Losers(hs: seq<Hash>, winner: Hash): seq<Hash> {
    if hs == [] then []
    else
      var n := |hs| - 1;
      if hs[n] == winner then Losers(hs[..n], winner) else Losers(hs[..n], winner) + [hs[n]]
  }

  // What the caller is told: the confirmed and the rejected hashes, in order.
  datatype Resolution = Resolution(votes: VoteState, confirmed: seq<Hash>, rejected: seq<Hash>)

  function ResolveSlot(r: Resolution, k: Slot, now: int): Resolution {
    var hs := Siblings(r.votes, k);
    var w := Decision(r.votes.tallies, hs, now);
    if w.None? then r
    else
      var losers := Losers(hs, w.value);
      Resolution(
        r.votes.(confirmed := r.votes.confirmed + {w.value},
                 rejected := r.votes.rejected + Elements(losers),
                 tallies := r.votes.tallies - Elements(hs)),
        r.confirmed + [w.value], r.rejected + losers)
  }

  function ResolveSlots(v: VoteState, slots: seq<Slot>, now: int): Resolution {
    if slots == [] then Resolution(v, [], [])
    else ResolveSlot(ResolveSlots(v, slots[..|slots| - 1], now), slots[|slots| - 1], now)
  }

  function ResolveConflicts(v: VoteState, now: int): Resolution {
    ResolveSlots(v, v.slotOrder, now)
  }

  // ----- Queries -------------------------------------------------------------------------------

  datatype Status = IsConfirmed | IsRejected | InConflict | IsPending

  function GetStatus(v: VoteState, h: Hash): Status {
    if h in v.confirmed then IsConfirmed
    else if h in v.rejected then IsRejected
    else if h in v.tallies then InConflict
    else IsPending
  }
}
