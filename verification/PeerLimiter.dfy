// src/network/libp2p-network.ts: the token bucket of each peer. Tokens are counted in hundredths: ten tokens per
// second are one hundredth per millisecond.
module PeerLimiter {
  import opened Basics

  const BUCKET_CAPACITY := 5_000   // 50 tokens
  const TOKEN := 100

  datatype Bucket = Bucket(tokens: int, lastRefill: int)

  type Buckets = map<string, Bucket>

  // The bucket of a peer just before its message is judged.
  function Refilled(bs: Buckets, peer: string, now: int): Bucket {
    var b := Lookup(bs, peer).GetOr(Bucket(BUCKET_CAPACITY, now));
    Bucket(Min(BUCKET_CAPACITY, b.tokens + (now - b.lastRefill)), now)
  }

  predicate Admits(bs: Buckets, peer: string, now: int) {
    Refilled(bs, peer, now).tokens >= TOKEN
  }

  function Consume(bs: Buckets, peer: string, now: int): Buckets {
    var b := Refilled(bs, peer, now);
    bs[peer := if b.tokens < TOKEN then b else b.(tokens := b.tokens - TOKEN)]
  }

  class PeerLimiter {
    var peerBuckets: Buckets

    constructor ()
      ensures peerBuckets == map[]
    {
      peerBuckets := map[];
    }

    method ConsumePeerToken(peerId: string, now: int) returns (admitted: bool)
      modifies this
      ensures admitted == Admits(old(peerBuckets), peerId, now)
      ensures peerBuckets == Consume(old(peerBuckets), peerId, now)
    {
      if peerId !in peerBuckets {
        peerBuckets := peerBuckets[peerId := Bucket(BUCKET_CAPACITY, now)];
      }
      var bucket := peerBuckets[peerId];
      var elapsed := now - bucket.lastRefill;
      bucket := bucket.(tokens := Min(BUCKET_CAPACITY, bucket.tokens + elapsed), lastRefill := now);
      if bucket.tokens < TOKEN {
        peerBuckets := peerBuckets[peerId := bucket];
        return false;
      }
      peerBuckets := peerBuckets[peerId := bucket.(tokens := bucket.tokens - TOKEN)];
      return true;
    }
  }

  // ----- Runs ----------------------------------------------------------------------------------

  datatype Message = Message(peer: string, time: int)

  function After(bs: Buckets, ms: seq<Message>): Buckets {
    if ms == [] then bs
    else Consume(After(bs, ms[..|ms| - 1]), ms[|ms| - 1].peer, ms[|ms| - 1].time)
  }

  // The messages of one peer that are admitted.
  function Admitted(bs: Buckets, ms: seq<Message>, peer: string): nat {
    if ms == [] then 0
    else
      var init, m := ms[..|ms| - 1], ms[|ms| - 1];
      Admitted(bs, init, peer) + if m.peer == peer && Admits(After(bs, init), peer, m.time) then 1 else 0
  }

  // The clock does not run backwards.
  predicate ClockRuns(ms: seq<Message>) {
    forall i, j :: 0 <= i < j < |ms| ==> ms[i].time <= ms[j].time
  }

  // Every bucket holds between nothing and its capacity and was last filled no later than `now`.
  predicate InBounds(bs: Buckets, now: int) {
    forall p :: p in bs ==> 0 <= bs[p].tokens <= BUCKET_CAPACITY && bs[p].lastRefill <= now
  }

  lemma {:induction false} RunInBounds(ms: seq<Message>, now: int)
    requires ClockRuns(ms) && forall m :: m in ms ==> m.time <= now
    ensures InBounds(After(map[], ms), now)
  {
    if ms != [] {
      var last := ms[|ms| - 1];
      assert last in ms;
      RunInBounds(ms[..|ms| - 1], last.time);
    }
  }

  predicate Heard(ms: seq<Message>, peer: string) {
    exists m :: m in ms && m.peer == peer
  }

  // Within a window, admitted messages and the tokens left are paid by one full bucket and the refill since the start.
  ghost predicate Paid(bs: Buckets, ms: seq<Message>, peer: string, start: int, end: int) {
    if Heard(ms, peer) then
      && peer in After(bs, ms)
      && var b := After(bs, ms)[peer];
      && start <= b.lastRefill <= end
      && TOKEN * Admitted(bs, ms, peer) + b.tokens <= BUCKET_CAPACITY + (b.lastRefill - start)
    else Admitted(bs, ms, peer) == 0 && Lookup(After(bs, ms), peer) == Lookup(bs, peer)
  }

  // One message keeps the account.
  lemma ConsumePays(bs: Buckets, peer: string, time: int)
    requires InBounds(bs, time)
    ensures InBounds(Consume(bs, peer, time), time)
    ensures var b := Consume(bs, peer, time)[peer];
            var cost := if Admits(bs, peer, time) then TOKEN else 0;
            && b.lastRefill == time && cost + b.tokens <= BUCKET_CAPACITY
            && (peer in bs ==> cost + b.tokens <= bs[peer].tokens + (time - bs[peer].lastRefill))
  {
  }

  lemma HeardOneMore(ms: seq<Message>, peer: string)
    requires ms != []
    ensures Heard(ms, peer) <==> Heard(ms[..|ms| - 1], peer) || ms[|ms| - 1].peer == peer
  {
  }

  lemma PaidOneMore(bs: Buckets, ms: seq<Message>, m: Message, peer: string, start: int, end: int)
    requires InBounds(bs, start) && start <= m.time <= end
    requires InBounds(After(bs, ms), m.time) && Paid(bs, ms, peer, start, m.time)
    ensures InBounds(After(bs, ms + [m]), end) && Paid(bs, ms + [m], peer, start, end)
  {
    assert (ms + [m])[..|ms|] == ms;
    HeardOneMore(ms + [m], peer);
    ConsumePays(After(bs, ms), m.peer, m.time);
  }

  lemma {:induction false} WindowPaid(bs: Buckets, ms: seq<Message>, peer: string, start: int, end: int)
    requires InBounds(bs, start) && ClockRuns(ms) && start <= end && forall m :: m in ms ==> start <= m.time <= end
    ensures InBounds(After(bs, ms), end) && Paid(bs, ms, peer, start, end)
  {
    if ms != [] {
      var init, last := ms[..|ms| - 1], ms[|ms| - 1];
      assert ms == init + [last];
      WindowPaid(bs, init, peer, start, last.time);
      PaidOneMore(bs, init, last, peer, start, end);
    }
  }

  // Running on is running from where the first part ended.
  lemma {:induction false} RunsCompose(bs: Buckets, before: seq<Message>, window: seq<Message>, peer: string)
    ensures After(bs, before + window) == After(After(bs, before), window)
    ensures Admitted(bs, before + window, peer) == Admitted(bs, before, peer) + Admitted(After(bs, before), window, peer)
  {
    if window == [] {
      assert before + window == before;
    } else {
      RunsCompose(bs, before, window[..|window| - 1], peer);
      assert (before + window)[..|before + window| - 1] == before + window[..|window| - 1];
    }
  }

  // Over any run with a clock that does not run backwards, tokens stay between 0 and 50, and of the messages of one
  // peer in any window at most 50 plus 10 per second of its length are admitted.
  lemma RateBound(before: seq<Message>, window: seq<Message>, peer: string, start: int, end: int)
    requires ClockRuns(before + window) && start <= end
    requires (forall m :: m in before ==> m.time <= start) && (forall m :: m in window ==> start <= m.time <= end)
    ensures InBounds(After(map[], before), start) && InBounds(After(map[], before + window), end)
    ensures 100 * (Admitted(map[], before + window, peer) - Admitted(map[], before, peer)) <= 5_000 + (end - start)
  {
    var all := before + window;
    assert ClockRuns(before) by { assert forall i :: 0 <= i < |before| ==> all[i] == before[i]; }
    assert ClockRuns(window) by { assert forall i :: 0 <= i < |window| ==> all[|before| + i] == window[i]; }
    RunInBounds(before, start);
    WindowPaid(After(map[], before), window, peer, start, end);
    RunsCompose(map[], before, window, peer);
  }

  // ----- Exactly when a message is admitted ----------------------------------------------------

  // The messages of the peer admitted from position i on.
  function AdmittedSince(ms: seq<Message>, i: nat, peer: string): nat
    requires i <= |ms|
  {
    Admitted(After(map[], ms[..i]), ms[i..], peer)
  }

  // The peer's bucket was full when its message at position i came.
  predicate FullAt(ms: seq<Message>, i: nat, peer: string) {
    i < |ms| && ms[i].peer == peer && Refilled(After(map[], ms[..i]), peer, ms[i].time).tokens == 5_000
  }

  lemma SinceMore(ms: seq<Message>, m: Message, i: nat, peer: string)
    requires i <= |ms|
    ensures AdmittedSince(ms + [m], i, peer) ==
            AdmittedSince(ms, i, peer) + if m.peer == peer && Admits(After(map[], ms), peer, m.time) then 1 else 0
  {
    SliceMore(ms, m, i);
    var start, since := After(map[], ms[..i]), ms[i..];
    assert After(start, since) == After(map[], ms) by {
      RunsCompose(map[], ms[..i], since, peer);
    }
    AdmittedMore(start, since, m, peer);
    assert AdmittedSince(ms + [m], i, peer) == Admitted(start, since + [m], peer);
  }

  lemma SliceMore(ms: seq<Message>, m: Message, i: nat)
    requires i <= |ms|
    ensures (ms + [m])[..i] == ms[..i] && (ms + [m])[i..] == ms[i..] + [m] && ms[..i] + ms[i..] == ms
  {
  }

  lemma StillFull(ms: seq<Message>, m: Message, i: nat, peer: string)
    requires FullAt(ms, i, peer)
    ensures FullAt(ms + [m], i, peer)
  {
    assert (ms + [m])[..i] == ms[..i];
  }

  lemma AdmittedMore(bs: Buckets, ms: seq<Message>, m: Message, peer: string)
    ensures Admitted(bs, ms + [m], peer) ==
            Admitted(bs, ms, peer) + if m.peer == peer && Admits(After(bs, ms), peer, m.time) then 1 else 0
  {
    assert (ms + [m])[..|ms|] == ms;
  }

  lemma ConsumeIs(bs: Buckets, peer: string, time: int)
    ensures var full := Refilled(bs, peer, time);
            Consume(bs, peer, time)[peer] == Bucket(full.tokens - (if Admits(bs, peer, time) then 100 else 0), time)
  {
  }

  // One message more: the bucket gains the time since its last filling, unless that fills it, and pays if admitted.
  lemma TokensMore(init: seq<Message>, m: Message, peer: string, i: nat)
    requires i < |init| && FullAt(init, i, peer) && peer in After(map[], init)
    requires var b := After(map[], init)[peer]; b.tokens == 5_000 + (b.lastRefill - init[i].time) - 100 * AdmittedSince(init, i, peer)
    requires m.peer != peer || Refilled(After(map[], init), peer, m.time).tokens != 5_000
    ensures FullAt(init + [m], i, peer) && peer in After(map[], init + [m])
    ensures var b := After(map[], init + [m])[peer];
            b.tokens == 5_000 + (b.lastRefill - init[i].time) - 100 * AdmittedSince(init + [m], i, peer)
  {
    StillFull(init, m, i, peer);
    SinceMore(init, m, i, peer);
    AfterMore(map[], init, m);
    ConsumeIs(After(map[], init), m.peer, m.time);
  }

  lemma AfterMore(bs: Buckets, ms: seq<Message>, m: Message)
    ensures After(bs, ms + [m]) == Consume(After(bs, ms), m.peer, m.time)
  {
    assert (ms + [m])[..|ms|] == ms;
  }

  // What is left in a bucket: it was full at some message of the peer, and since then gained with time what it has not
  // paid out.
  lemma {:induction false} TokensExact(ms: seq<Message>, peer: string) returns (i: nat)
    requires ClockRuns(ms) && Heard(ms, peer)
    ensures FullAt(ms, i, peer) && peer in After(map[], ms)
    ensures var b := After(map[], ms)[peer]; b.tokens == 5_000 + (b.lastRefill - ms[i].time) - 100 * AdmittedSince(ms, i, peer)
  {
    var init, m := ms[..|ms| - 1], ms[|ms| - 1];
    assert ms == init + [m];
    HeardOneMore(ms, peer);
    if m.peer == peer && Refilled(After(map[], init), peer, m.time).tokens == 5_000 {
      i := |init|;
      AfterMore(map[], init, m);
      ConsumeIs(After(map[], init), peer, m.time);
      LastAlone(init, m);
    } else {
      UnheardIsFull(init, peer, m.time);
      i := TokensExact(init, peer);
      TokensMore(init, m, peer, i);
    }
  }

  lemma LastAlone(init: seq<Message>, m: Message)
    ensures AdmittedSince(init + [m], |init|, m.peer) == if Admits(After(map[], init), m.peer, m.time) then 1 else 0
  {
    var ms := init + [m];
    assert ms[|init|..] == [m] && ms[..|init|] == init && [m][..0] == [];
    assert Admitted(After(map[], init), [], m.peer) == 0;
  }

  lemma {:induction false} UnheardIsFull(ms: seq<Message>, peer: string, now: int)
    ensures !Heard(ms, peer) ==> peer !in After(map[], ms) && Refilled(After(map[], ms), peer, now).tokens == 5_000
  {
    if ms != [] {
      UnheardIsFull(ms[..|ms| - 1], peer, now);
      HeardOneMore(ms, peer);
    }
  }

  // No window that ends with the message would exceed the rate if it were admitted.
  predicate WithinRate(ms: seq<Message>, m: Message) {
    forall i :: 0 <= i < |ms| && ms[i].peer == m.peer ==> 100 * (AdmittedSince(ms, i, m.peer) + 1) <= 5_000 + (m.time - ms[i].time)
  }

  // The window from position i to the message.
  lemma WindowOf(ms: seq<Message>, m: Message, i: nat)
    requires ClockRuns(ms + [m]) && i < |ms|
    ensures var more := ms + [m];
            && more[..i] == ms[..i] && more == more[..i] + more[i..]
            && (forall k :: k in more[..i] ==> k.time <= ms[i].time) && (forall k :: k in more[i..] ==> ms[i].time <= k.time <= m.time)
            && ms[i].time <= m.time
  {
    var more := ms + [m];
    assert more[i] == ms[i] && more[|ms|] == m;
    assert forall k :: 0 <= k < |more[i..]| ==> more[i..][k] == more[i + k];
  }

  lemma AdmittedWithinRate(ms: seq<Message>, m: Message, i: nat)
    requires ClockRuns(ms + [m]) && Admits(After(map[], ms), m.peer, m.time) && i < |ms|
    ensures 100 * (AdmittedSince(ms, i, m.peer) + 1) <= 5_000 + (m.time - ms[i].time)
  {
    var more := ms + [m];
    WindowOf(ms, m, i);
    RateBound(more[..i], more[i..], m.peer, ms[i].time, m.time);
    RunsCompose(map[], more[..i], more[i..], m.peer);
    SinceMore(ms, m, i, m.peer);
  }

  // In every run whose clock does not run backwards a message is admitted exactly when no window of its peer that ends with
  // it exceeds 50 messages plus 10 per second: a peer within the rate is never refused.
  lemma AdmittedIff(ms: seq<Message>, m: Message)
    requires ClockRuns(ms + [m])
    ensures Admits(After(map[], ms), m.peer, m.time) <==> WithinRate(ms, m)
  {
    if Admits(After(map[], ms), m.peer, m.time) {
      forall i | 0 <= i < |ms| && ms[i].peer == m.peer
        ensures 100 * (AdmittedSince(ms, i, m.peer) + 1) <= 5_000 + (m.time - ms[i].time)
      {
        AdmittedWithinRate(ms, m, i);
      }
    } else {
      UnheardIsFull(ms, m.peer, m.time);
      assert ClockRuns(ms) by { assert forall i :: 0 <= i < |ms| ==> (ms + [m])[i] == ms[i]; }
      var i := TokensExact(ms, m.peer);
    }
  }
}
