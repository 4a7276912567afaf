// src/core/pin-crypto.ts and the lockout guard of requirePin in src/main.ts.
module PinCrypto {
  import opened Basics

  const MAX_DELAY_MS := 86_400_000
  const FREE_ATTEMPTS := 3

  function Pow4(n: nat): nat {
    if n == 0 then 1 else 4 * Pow4(n - 1)
  }

  function GetBackoffMs(failedAttempts: nat): nat {
    if failedAttempts <= FREE_ATTEMPTS then 0
    else Min(MAX_DELAY_MS, 30_000 * Pow4(failedAttempts - FREE_ATTEMPTS - 1))
  }

  datatype PinAttemptState = PinAttemptState(failedAttempts: nat, lockedUntil: int, lastAttemptAt: int)

  const NO_ATTEMPTS := PinAttemptState(0, 0, 0)

  function Failed(s: PinAttemptState, now: int): PinAttemptState {
    PinAttemptState(s.failedAttempts + 1, now + GetBackoffMs(s.failedAttempts + 1), now)
  }

  // One PIN entry that requirePin lets through to the check, at clock `now`.
  datatype Entry = Entry(now: int, correct: bool)

  // requirePin: nothing happens while locked; otherwise the entry is checked and recorded.
  function Attempt(s: PinAttemptState, e: Entry): PinAttemptState {
    if s.lockedUntil > e.now then s
    else if e.correct then PinAttemptState(0, 0, e.now)
    else Failed(s, e.now)
  }

  // The attempt store, one record per account.
  class PinStore {
    var attempts: map<string, PinAttemptState>

    constructor ()
      ensures attempts == map[]
    {
      attempts := map[];
    }

    function State(accountPub: string): PinAttemptState
      reads this
    {
      Lookup(attempts, accountPub).GetOr(NO_ATTEMPTS)
    }

    method CheckPinLockout(accountPub: string, now: int) returns (locked: bool, remainingMs: int)
      ensures locked <==> State(accountPub).lockedUntil > now
      ensures remainingMs == if locked then State(accountPub).lockedUntil - now else 0
    {
      var state := State(accountPub);
      if state.lockedUntil > now { return true, state.lockedUntil - now; }
      return false, 0;
    }

    method RecordPinFailure(accountPub: string, now: int) returns (next: PinAttemptState)
      modifies this
      ensures next == Failed(old(State(accountPub)), now) && attempts == old(attempts)[accountPub := next]
    {
      var state := State(accountPub);
      next := PinAttemptState(state.failedAttempts + 1, now + GetBackoffMs(state.failedAttempts + 1), now);
      attempts := attempts[accountPub := next];
    }

    method RecordPinSuccess(accountPub: string, now: int)
      modifies this
      ensures attempts == old(attempts)[accountPub := PinAttemptState(0, 0, now)]
    {
      attempts := attempts[accountPub := PinAttemptState(0, 0, now)];
    }

    // The guard and the recording of requirePin for one entry.
    method RequirePin(accountPub: string, e: Entry) returns (allowed: bool)
      modifies this
      ensures allowed <==> e.correct && old(State(accountPub)).lockedUntil <= e.now
      ensures State(accountPub) == Attempt(old(State(accountPub)), e)
      ensures forall p :: p != accountPub ==> State(p) == old(State(p))
    {
      var locked, remainingMs := CheckPinLockout(accountPub, e.now);
      if locked { return false; }
      if e.correct {
        RecordPinSuccess(accountPub, e.now);
        return true;
      }
      var next := RecordPinFailure(accountPub, e.now);
      return false;
    }
  }

  // ----- Delay over runs -----------------------------------------------------------------------

  function AfterAll(start: PinAttemptState, es: seq<Entry>): PinAttemptState {
    if es == [] then start else Attempt(AfterAll(start, es[..|es| - 1]), es[|es| - 1])
  }

  // The entry is let through.
  predicate LetThrough(s: PinAttemptState, e: Entry) {
    s.lockedUntil <= e.now
  }

  // The clocks of the failures that were recorded, oldest first.
  function FailureTimes(start: PinAttemptState, es: seq<Entry>): seq<int> {
    if es == [] then []
    else
      var init, e := es[..|es| - 1], es[|es| - 1];
      if !LetThrough(AfterAll(start, init), e) || e.correct then FailureTimes(start, init) else FailureTimes(start, init) + [e.now]
  }

  // The backoffs of failures 1 to n.
  function TotalBackoff(n: nat): nat {
    if n == 0 then 0 else TotalBackoff(n - 1) + GetBackoffMs(n)
  }

  // No correct entry is let through.
  predicate NoSuccess(start: PinAttemptState, es: seq<Entry>) {
    es != [] ==>
      NoSuccess(start, es[..|es| - 1]) && !(es[|es| - 1].correct && LetThrough(AfterAll(start, es[..|es| - 1]), es[|es| - 1]))
  }

  // From a record without failures, the n-th failure comes no earlier than the first plus the backoffs of failures 1 to
  // n-1; the next entry that is let through comes no earlier than that plus the n-th backoff.
  lemma {:induction false} FailuresAreDelayed(start: PinAttemptState, es: seq<Entry>)
    requires start.failedAttempts == 0 && NoSuccess(start, es)
    ensures var times := FailureTimes(start, es);
            && AfterAll(start, es).failedAttempts == |times|
            && (times != [] ==> AfterAll(start, es).lockedUntil >= times[0] + TotalBackoff(|times|))
            && AfterAll(start, es) ==
               (if times == [] then start
                else PinAttemptState(|times|, times[|times| - 1] + GetBackoffMs(|times|), times[|times| - 1]))
            && forall n :: 0 <= n < |times| ==> times[n] >= times[0] + TotalBackoff(n)
  {
    if es != [] {
      FailuresAreDelayed(start, es[..|es| - 1]);
    }
  }

  // The backoffs in milliseconds: nothing for three failures, then 30 s, 2, 8 and 32 min, 2 h 8 min, 8 h 32 min, and a day.
  lemma Backoffs(n: nat)
    ensures GetBackoffMs(n) ==
            if n <= 3 then 0 else if n == 4 then 30_000 else if n == 5 then 120_000 else if n == 6 then 480_000
            else if n == 7 then 1_920_000 else if n == 8 then 7_680_000 else if n == 9 then 30_720_000 else 86_400_000
  {
    if n >= 10 {
      Pow4Monotonic(6, n - 4);
    }
    assert Pow4(5) == 1024 && Pow4(6) == 4096;
  }

  // After n failures in a row an entry is let through exactly from the last failure's time plus its backoff on.
  lemma LetThroughIff(start: PinAttemptState, es: seq<Entry>, e: Entry)
    requires start.failedAttempts == 0 && NoSuccess(start, es) && FailureTimes(start, es) != []
    ensures var times := FailureTimes(start, es);
            LetThrough(AfterAll(start, es), e) <==> e.now >= times[|times| - 1] + GetBackoffMs(|times|)
  {
    FailuresAreDelayed(start, es);
  }

  lemma {:induction false} EntriesCompose(start: PinAttemptState, before: seq<Entry>, es: seq<Entry>)
    ensures AfterAll(start, before + es) == AfterAll(AfterAll(start, before), es)
  {
    if es == [] {
      assert before + es == before;
    } else {
      EntriesCompose(start, before, es[..|es| - 1]);
      assert (before + es)[..|before + es| - 1] == before + es[..|es| - 1];
    }
  }

  lemma {:induction false} Pow4Monotonic(m: nat, n: nat)
    requires m <= n
    ensures 1 <= Pow4(m) <= Pow4(n)
  {
    if m < n {
      Pow4Monotonic(m, n - 1);
    } else if n > 0 {
      Pow4Monotonic(n - 1, n - 1);
    }
  }

  // The closed form of the delay before the n-th failure: nothing up to the fourth, 10 s times (4^(n-4) - 1) up to the
  // tenth, and a further 24 hours for each failure after that.
  lemma {:induction false} TotalDelay(n: nat)
    requires n > 0
    ensures n <= 4 ==> TotalBackoff(n - 1) == 0
    ensures 4 <= n <= 10 ==> TotalBackoff(n - 1) == 10_000 * (Pow4(n - 4) - 1)
    ensures n > 10 ==> TotalBackoff(n - 1) == 10_000 * (Pow4(6) - 1) + (n - 10) * MAX_DELAY_MS
  {
    if n > 1 {
      TotalDelay(n - 1);
    }
    if n > 10 {
      Pow4Monotonic(6, n - 5);
    } else if n >= 5 {
      Pow4Monotonic(n - 5, 5);
    }
    assert Pow4(5) == 1024 && Pow4(6) == 4096;
  }

  // The entries of an account that end with a success, or none: the record then has no failures.
  predicate AtFreshStart(before: seq<Entry>) {
    before != [] ==>
      var last := before[|before| - 1];
      last.correct && LetThrough(AfterAll(NO_ATTEMPTS, before[..|before| - 1]), last)
  }

  // The n-th failure in a row, counted from the start or from any success, in absolute terms.
  lemma DelayOfNthFailure(before: seq<Entry>, es: seq<Entry>, n: nat)
    requires AtFreshStart(before) && NoSuccess(AfterAll(NO_ATTEMPTS, before), es)
    requires 0 < n <= |FailureTimes(AfterAll(NO_ATTEMPTS, before), es)|
    ensures var times := FailureTimes(AfterAll(NO_ATTEMPTS, before), es);
            var waited := times[n - 1] - times[0];
            && (5 <= n <= 10 ==> waited >= 10_000 * (Pow4(n - 4) - 1))
            && (n > 10 ==> waited >= 10_000 * (Pow4(6) - 1) + (n - 10) * MAX_DELAY_MS)
    ensures AfterAll(NO_ATTEMPTS, before + es).failedAttempts == |FailureTimes(AfterAll(NO_ATTEMPTS, before), es)|
  {
    FailuresAreDelayed(AfterAll(NO_ATTEMPTS, before), es);
    EntriesCompose(NO_ATTEMPTS, before, es);
    TotalDelay(n);
  }
}
