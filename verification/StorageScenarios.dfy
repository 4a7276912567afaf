// Runs of one storage provider: a second reward for an epoch and a heartbeat without its interval after a new
// registration, and as many heartbeats in a day as one likes while their timestamps are not positive.
module StorageScenarios {
  import opened Basics
  import opened DagBlock
  import opened LedgerState
  import opened Nodes
  import opened Consistency
  import opened Creators
  import opened Rewards
  import opened Terms
  import opened Scenarios

  const DAY := REWARD_EPOCH_MS

  function Storage(parent: Block, kind: BlockType, data: Option<ContractData>, time: int, delta: int, tag: string): Block {
    After(parent, kind, delta, tag).(contractData := data, timestamp := time)
  }

  predicate Added(b: Block, parent: Block, kind: BlockType, data: Option<ContractData>, time: int, delta: int, tag: string) {
    Builds(b, parent.accountPub, parent, kind, delta, tag) && b.contractData == data && b.timestamp == time
  }

  // A complete and allowed block built on a stored one.
  lemma GrowChild(env: Env, bs: seq<Block>, parent: Block, d: Block, now: int)
    requires Plain(env) && Game(env, bs, now) && NewTag(bs, Label(d)) && parent in bs
    requires !d.kind.Open? && d.previousHash == parent.hash && d.index == parent.index + 1
    requires PayloadComplete(d) && d.balance == parent.balance + Delta(d) && SafeBalance(d.balance) && KindAllows(env, Table(bs), d, now)
    ensures Game(env, bs + [Sign(env, d)], now)
  {
    StoredBlocks(env, bs);
    Grow(env, bs, d, now);
  }

  lemma Adds(env: Env, bs: seq<Block>, parent: Block, kind: BlockType, data: Option<ContractData>, time: int, delta: int, tag: string,
             now: int) returns (b: Block)
    requires Plain(env) && Game(env, bs, now) && NewTag(bs, tag) && parent in bs && !kind.Open?
    requires var d := Storage(parent, kind, data, time, delta, tag);
             PayloadComplete(d) && Delta(d) == delta && SafeBalance(d.balance) && KindAllows(env, Table(bs), d, now)
    ensures Game(env, bs + [b], now) && Added(b, parent, kind, data, time, delta, tag)
  {
    var d := Storage(parent, kind, data, time, delta, tag);
    GrowChild(env, bs, parent, d, now);
    b := Sign(env, d);
  }

  // ----- The provider P ------------------------------------------------------------------------

  function Profile(bs: seq<Block>): Option<Provider> {
    Lookup(Table(bs).providers, "P")
  }

  lemma ProfileMore(bs: seq<Block>, b: Block)
    requires b.accountPub == "P"
    ensures Profile(bs + [b]) == ProviderAfter(Profile(bs), b)
  {
    TableMore(bs, b);
  }

  // P offers 1 GB; its last heartbeat and reward epoch are these.
  predicate Serving(bs: seq<Block>, beat: int, epoch: int) {
    && Profile(bs).Some? && Profile(bs).value.capacityGB == 1.0
    && Profile(bs).value.lastHeartbeat == beat && Profile(bs).value.lastRewardEpoch == epoch
  }

  const OFFER := NO_DATA.(capacityGB := Some(1.0))
  const CLAIM := NO_DATA.(epochDay := Some(1), storedGB := Some(1.0), amount := Some(100))

  lemma Joins(env: Env, bs: seq<Block>, parent: Block, time: int, tag: string, now: int) returns (b: Block)
    requires Plain(env) && Game(env, bs, now) && NewTag(bs, tag) && parent in bs && parent.accountPub == "P"
    requires SafeBalance(parent.balance) && Profile(bs).None?
    ensures Game(env, bs + [b], now) && Added(b, parent, StorageRegister, Some(OFFER), time, 0, tag) && Serving(bs + [b], 0, 0)
  {
    b := Adds(env, bs, parent, StorageRegister, Some(OFFER), time, 0, tag, now);
    ProfileMore(bs, b);
  }

  lemma Leaves(env: Env, bs: seq<Block>, parent: Block, time: int, tag: string, now: int) returns (b: Block)
    requires Plain(env) && Game(env, bs, now) && NewTag(bs, tag) && parent in bs && parent.accountPub == "P"
    requires SafeBalance(parent.balance)
    ensures Game(env, bs + [b], now) && Added(b, parent, StorageDeregister, None, time, 0, tag) && Profile(bs + [b]).None?
  {
    b := Adds(env, bs, parent, StorageDeregister, None, time, 0, tag, now);
    ProfileMore(bs, b);
  }

  lemma BeatAllowed(s: Ledger, d: Block, beat: int, now: int)
    requires d.accountPub == "P" && "P" in s.providers && s.providers["P"].capacityGB == 1.0 && s.providers["P"].lastHeartbeat == beat
    requires d.timestamp <= now && beat <= 0
    ensures HeartbeatAllowed(s, d, now)
  {
  }

  // A heartbeat when the last one, if any, has no positive timestamp.
  lemma Beats(env: Env, bs: seq<Block>, parent: Block, beat: int, time: int, tag: string, now: int) returns (b: Block)
    requires Plain(env) && Game(env, bs, now) && NewTag(bs, tag) && parent in bs && parent.accountPub == "P"
    requires SafeBalance(parent.balance) && Serving(bs, beat, 0) && beat <= 0 && time <= now
    ensures Game(env, bs + [b], now) && Added(b, parent, StorageHeartbeat, None, time, 0, tag) && Serving(bs + [b], time, 0)
  {
    BeatAllowed(Table(bs), Storage(parent, StorageHeartbeat, None, time, 0, tag), beat, now);
    b := Adds(env, bs, parent, StorageHeartbeat, None, time, 0, tag, now);
    ProfileMore(bs, b);
  }

  // ----- Many heartbeats -----------------------------------------------------------------------

  lemma {:induction false} AllOf(bs: seq<Block>, pub: Pub)
    requires forall b :: b in bs ==> b.accountPub == pub
    ensures Of(bs, pub) == bs
  {
    if bs != [] {
      AllOf(bs[..|bs| - 1], pub);
    }
  }

  function Mark(i: nat): string {
    seq(i + 2, _ => 'h')
  }

  // P has opened, registered, and sent `n` heartbeats dated 0.
  predicate Beating(bs: seq<Block>, n: nat) {
    && |bs| == n + 2 && bs[0].kind.Open? && bs[1].kind.StorageRegister? && Serving(bs, 0, 0)
    && (forall b :: b in bs ==> b.accountPub == "P" && b.balance == VERIFICATION_MINT_AMOUNT)
    && (forall b :: b in bs ==> |Label(b)| < n + 2)
    && (forall i :: 2 <= i < |bs| ==> bs[i].kind.StorageHeartbeat? && bs[i].timestamp == 0)
  }

  lemma OpensFirst(env: Env, now: int) returns (p: Block)
    requires Plain(env)
    ensures IsOpening(p, "P", "1") && Game(env, [p], now) && Profile([p]).None?
  {
    p := Opens(env, [], "P", "1", now);
    assert [] + [p] == [p];
    ProfileMore([], p);
  }

  lemma OpensAndJoins(env: Env, now: int) returns (bs: seq<Block>)
    requires Plain(env)
    ensures Game(env, bs, now) && Beating(bs, 0)
    ensures |bs| == 2 && bs[1].timestamp == 0 && bs[1].contractData == Some(OFFER)
  {
    var p := OpensFirst(env, now);
    var join := Joins(env, [p], p, 0, "2", now);
    bs := [p] + [join];
    BeatingStarts(p, join);
  }

  lemma BeatingStarts(p: Block, join: Block)
    requires IsOpening(p, "P", "1") && Added(join, p, StorageRegister, Some(OFFER), 0, 0, "2") && Serving([p] + [join], 0, 0)
    ensures Beating([p] + [join], 0)
  {
    assert forall b :: b in [p] + [join] ==> b == p || b == join;
  }

  lemma BeatOn(env: Env, init: seq<Block>, n: nat) returns (b: Block)
    requires Plain(env) && Game(env, init, 0) && Beating(init, n)
    ensures Game(env, init + [b], 0) && Serving(init + [b], 0, 0)
    ensures Added(b, init[n + 1], StorageHeartbeat, None, 0, 0, Mark(n))
  {
    b := Beats(env, init, init[n + 1], 0, 0, Mark(n), 0);
  }

  lemma BeatingMore(init: seq<Block>, b: Block, n: nat)
    requires Beating(init, n) && Added(b, init[n + 1], StorageHeartbeat, None, 0, 0, Mark(n)) && Serving(init + [b], 0, 0)
    ensures Beating(init + [b], n + 1)
  {
    assert init[n + 1] in init && |Mark(n)| == n + 2;
    assert forall c :: c in init + [b] <==> c in init || c == b;
  }

  lemma BeatMore(env: Env, init: seq<Block>, n: nat) returns (bs: seq<Block>)
    requires Plain(env) && Game(env, init, 0) && Beating(init, n)
    ensures Game(env, bs, 0) && Beating(bs, n + 1)
  {
    var b := BeatOn(env, init, n);
    BeatingMore(init, b, n);
    bs := init + [b];
  }

  lemma {:induction false} BeatsOn(env: Env, n: nat) returns (bs: seq<Block>)
    requires Plain(env)
    ensures Game(env, bs, 0) && Beating(bs, n)
  {
    if n == 0 {
      bs := OpensAndJoins(env, 0);
    } else {
      var init := BeatsOn(env, n - 1);
      bs := BeatMore(env, init, n - 1);
    }
  }

  lemma {:induction false} BeatsCounted(bs: seq<Block>, n: nat)
    requires |bs| == n + 2 && bs[0].kind.Open? && bs[1].kind.StorageRegister?
    requires forall i :: 2 <= i < |bs| ==> bs[i].kind.StorageHeartbeat? && bs[i].timestamp == 0
    ensures CountInEpoch(bs, 0) == n && OneTerm(bs, -1, |bs|)
  {
    if n > 0 {
      BeatsCounted(bs[..n + 1], n - 1);
    } else {
      assert bs[..1][..0] == [];
      assert CountInEpoch(bs[..1], 0) == 0;
    }
  }

  // In one term, and in epoch 0, any number of heartbeats that a chain can hold is accepted: the spacing starts with the
  // first positive timestamp.
  lemma ManyHeartbeats(env: Env, n: nat) returns (es: seq<Event>)
    requires Plain(env) && n + 2 <= MAX_CHAIN_MEMORY
    ensures AppendOnly(env, es)
    ensures var chain := Chain(Run(env, es).ledger, "P"); OneTerm(chain, -1, |chain|) && CountInEpoch(chain, 0) == n
  {
    var bs := BeatsOn(env, n);
    es := Submits(bs, 0);
    Played(env, bs, 0);
    ChainIsOf(bs, "P");
    AllOf(bs, "P");
    BeatsCounted(bs, n);
  }

  // ----- A new registration --------------------------------------------------------------------

  // What a reward for epoch 1 rests on: 1 GB at the epoch start, no report of less, one heartbeat.
  predicate Basis(bs: seq<Block>) {
    var s := Table(bs);
    CapacityAtEpochStart(Chain(s, "P"), 1) == 1.0 && ActualStoredGB(Chain(s, "P"), 1) == 0.0 && HeartbeatsInEpoch(s, "P", 1) == 1
  }

  // One heartbeat on 1 GB allows a reward of 166.
  lemma ClaimWithin(bs: seq<Block>)
    requires Basis(bs)
    ensures EffectiveGB(Chain(Table(bs), "P"), 1) == 1.0 && MaxReward(1.0, 1) >= 100
  {
    assert 1 as real / MAX_HEARTBEATS_PER_DAY as real == 1.0 / 6.0;
    assert BASE_STORAGE_RATE_MILLI as real * 1.0 * (1.0 / 6.0) >= 100.0;
  }

  lemma ClaimAllowed(bs: seq<Block>, d: Block, beat: int)
    requires Basis(bs) && Serving(bs, beat, 0) && d.accountPub == "P" && d.contractData == Some(CLAIM)
    ensures RewardAllowed(Table(bs), d)
  {
    ClaimWithin(bs);
  }

  lemma BasisKept(bs: seq<Block>, b: Block)
    requires Basis(bs) && b.accountPub == "P" && !b.kind.StorageHeartbeat? && b.timestamp >= DAY
    ensures Basis(bs + [b])
  {
    TableMore(bs, b);
    var chain := Chain(Table(bs), "P");
    assert (chain + [b])[..|chain|] == chain;
  }

  lemma Claims(env: Env, bs: seq<Block>, parent: Block, beat: int, tag: string, now: int) returns (b: Block)
    requires Plain(env) && Game(env, bs, now) && NewTag(bs, tag) && parent in bs && parent.accountPub == "P"
    requires SafeBalance(parent.balance + 100) && SafeBalance(parent.balance) && Serving(bs, beat, 0) && Basis(bs)
    ensures Game(env, bs + [b], now) && Added(b, parent, StorageReward, Some(CLAIM), DAY, 100, tag)
    ensures Serving(bs + [b], beat, 1) && Basis(bs + [b])
  {
    ClaimAllowed(bs, Storage(parent, StorageReward, Some(CLAIM), DAY, 100, tag), beat);
    b := Adds(env, bs, parent, StorageReward, Some(CLAIM), DAY, 100, tag, now);
    ProfileMore(bs, b);
    BasisKept(bs, b);
  }

  lemma FirstBasis(bs: seq<Block>)
    requires |bs| == 3 && forall b :: b in bs ==> b.accountPub == "P"
    requires bs[0].kind.Open?
    requires bs[1].kind.StorageRegister? && bs[1].contractData == Some(OFFER) && bs[1].timestamp == 0
    requires bs[2].kind.StorageHeartbeat? && bs[2].contractData == None && bs[2].timestamp == DAY
    ensures Basis(bs)
  {
    ChainIsOf(bs, "P");
    AllOf(bs, "P");
    FirstCapacity(bs[0], bs[1], bs[2]);
    FirstHeartbeat(bs[..2], bs[2]);
    assert bs == [bs[0], bs[1], bs[2]] && bs == bs[..2] + [bs[2]];
  }

  lemma FirstCapacity(a: Block, b: Block, c: Block)
    requires a.kind.Open? && b.kind.StorageRegister? && b.contractData == Some(OFFER) && b.timestamp == 0
    requires c.kind.StorageHeartbeat? && c.contractData == None && c.timestamp == DAY
    ensures CapacityAtEpochStart([a, b, c], 1) == 1.0 && ActualStoredGB([a, b, c], 1) == 0.0
  {
    assert [a, b, c][..2] == [a, b] && [a, b][..1] == [a] && [a][..0] == [];
    assert CapacityBefore([a, b], DAY) == 1.0;
    assert LatestReport([a], 1) == (0.0, 0);
    assert LatestReport([a, b], 1) == (0.0, 0);
  }

  lemma FirstHeartbeat(bs: seq<Block>, b: Block)
    requires b.kind.StorageHeartbeat? && b.accountPub == "P" && b.timestamp == DAY
    requires forall c :: c in bs ==> !c.kind.StorageHeartbeat?
    ensures HeartbeatsInEpoch(Table(bs + [b]), "P", 1) == 1
  {
    TableMore(bs, b);
    NoBeatsYet(bs);
  }

  lemma {:induction false} NoBeatsYet(bs: seq<Block>)
    requires forall b :: b in bs ==> !b.kind.StorageHeartbeat?
    ensures Table(bs).heartbeats == map[]
  {
    if bs != [] {
      NoBeatsYet(bs[..|bs| - 1]);
    }
  }

  // Blocks of P whose tags are shorter than the k-th mark.
  predicate Short(bs: seq<Block>, k: nat) {
    forall b :: b in bs ==> b.accountPub == "P" && |Label(b)| < k + 2
  }

  lemma ShortMore(bs: seq<Block>, b: Block, k: nat)
    requires Short(bs, k) && b.accountPub == "P" && Label(b) == Mark(k)
    ensures Short(bs + [b], k + 1) && NewTag(bs, Mark(k))
  {
  }

  lemma ShortIsNew(bs: seq<Block>, k: nat)
    requires Short(bs, k)
    ensures NewTag(bs, Mark(k))
  {
  }

  // P has opened, registered, sent a heartbeat at the start of day 1 and been rewarded for it.
  ghost predicate Rewarded(env: Env, bs: seq<Block>) {
    && Game(env, bs, DAY) && Short(bs, 2) && |bs| == 4 && Serving(bs, DAY, 1) && Basis(bs)
    && bs[2].kind.StorageHeartbeat? && bs[2].timestamp == DAY
    && bs[3].kind.StorageReward? && bs[3].contractData == Some(CLAIM) && bs[3].balance == VERIFICATION_MINT_AMOUNT + 100
  }

  lemma FirstBeat(env: Env) returns (bs: seq<Block>)
    requires Plain(env)
    ensures Game(env, bs, DAY) && Short(bs, 1) && |bs| == 3 && Serving(bs, DAY, 0) && Basis(bs)
    ensures bs[2].kind.StorageHeartbeat? && bs[2].timestamp == DAY && bs[2].balance == VERIFICATION_MINT_AMOUNT
  {
    var two := OpensAndJoins(env, DAY);
    ShortIsNew(two, 0);
    var beat := Beats(env, two, two[1], 0, DAY, Mark(0), DAY);
    ShortMore(two, beat, 0);
    bs := two + [beat];
    FirstBasis(bs);
  }

  lemma FirstReward(env: Env) returns (bs: seq<Block>)
    requires Plain(env)
    ensures Rewarded(env, bs)
  {
    var three := FirstBeat(env);
    ShortIsNew(three, 1);
    var reward := Claims(env, three, three[2], DAY, Mark(1), DAY);
    ShortMore(three, reward, 1);
    bs := three + [reward];
  }

  // Then it has left and joined again: nothing of the first term is remembered.
  ghost predicate Rejoined(env: Env, bs: seq<Block>) {
    && Game(env, bs, DAY) && Short(bs, 4) && |bs| == 6 && Serving(bs, 0, 0) && Basis(bs)
    && bs[2].kind.StorageHeartbeat? && bs[2].timestamp == DAY
    && bs[3].kind.StorageReward? && bs[3].contractData == Some(CLAIM) && bs[5].balance == VERIFICATION_MINT_AMOUNT + 100
  }

  lemma LeavesAfter(env: Env, four: seq<Block>) returns (bs: seq<Block>)
    requires Plain(env) && Rewarded(env, four)
    ensures Game(env, bs, DAY) && Short(bs, 3) && |bs| == 5 && bs[..4] == four && Profile(bs).None? && Basis(bs)
    ensures bs[4].balance == VERIFICATION_MINT_AMOUNT + 100
  {
    ShortIsNew(four, 2);
    var leave := Leaves(env, four, four[3], DAY, Mark(2), DAY);
    ShortMore(four, leave, 2);
    BasisKept(four, leave);
    bs := four + [leave];
  }

  lemma Rejoins(env: Env) returns (bs: seq<Block>)
    requires Plain(env)
    ensures Rejoined(env, bs)
  {
    var four := FirstReward(env);
    var five := LeavesAfter(env, four);
    ShortIsNew(five, 3);
    var join := Joins(env, five, five[4], DAY, Mark(3), DAY);
    ShortMore(five, join, 3);
    BasisKept(five, join);
    assert five[2] == four[2] && five[3] == four[3];
    bs := five + [join];
  }

  // The ledger of a game of P, as the ledger of a run.
  lemma ChainRuns(env: Env, bs: seq<Block>, k: nat)
    requires Plain(env) && Game(env, bs, DAY) && Short(bs, k) && |bs| <= MAX_CHAIN_MEMORY
    ensures AppendOnly(env, Submits(bs, DAY)) && Chain(Run(env, Submits(bs, DAY)).ledger, "P") == bs
  {
    Played(env, bs, DAY);
    ChainIsOf(bs, "P");
    AllOf(bs, "P");
  }

  // Across a deregistration one epoch is rewarded twice.
  lemma RewardedTwice(env: Env) returns (es: seq<Event>)
    requires Plain(env)
    ensures AppendOnly(env, es)
    ensures var chain := Chain(Run(env, es).ledger, "P");
            && |chain| == 7 && chain[3].kind.StorageReward? && chain[6].kind.StorageReward?
            && RewardEpoch(chain[3]) == RewardEpoch(chain[6]) == 1
  {
    var bs := ClaimsAgain(env);
    ClaimedEpoch(bs[3]);
    ClaimedEpoch(bs[6]);
    ChainRuns(env, bs, 5);
    es := Submits(bs, DAY);
  }

  lemma ClaimsAgain(env: Env) returns (bs: seq<Block>)
    requires Plain(env)
    ensures Game(env, bs, DAY) && Short(bs, 5) && |bs| == 7
    ensures bs[3].kind.StorageReward? && bs[3].contractData == Some(CLAIM)
    ensures bs[6].kind.StorageReward? && bs[6].contractData == Some(CLAIM)
  {
    var six := Rejoins(env);
    ShortIsNew(six, 4);
    var reward := Claims(env, six, six[5], 0, Mark(4), DAY);
    ShortMore(six, reward, 4);
    bs := six + [reward];
    assert bs[3] == six[3] && bs[6] == reward;
  }

  lemma ClaimedEpoch(b: Block)
    requires b.kind.StorageReward? && b.contractData == Some(CLAIM)
    ensures RewardEpoch(b) == 1
  {
  }

  // Across a deregistration two accepted heartbeats have one positive timestamp.
  lemma SpacingForgotten(env: Env) returns (es: seq<Event>)
    requires Plain(env)
    ensures AppendOnly(env, es)
    ensures var chain := Chain(Run(env, es).ledger, "P");
            && |chain| == 7 && chain[2].kind.StorageHeartbeat? && chain[6].kind.StorageHeartbeat?
            && chain[2].timestamp == chain[6].timestamp > 0
  {
    var six := Rejoins(env);
    ShortIsNew(six, 4);
    var beat := Beats(env, six, six[5], 0, DAY, Mark(4), DAY);
    ShortMore(six, beat, 4);
    ChainRuns(env, six + [beat], 5);
    es := Submits(six + [beat], DAY);
  }
}
