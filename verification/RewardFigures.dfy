// The figures a storage reward rests on, by positions in the account's chain and in numbers: the capacity in force at the
// start of the epoch, the storage reported in it, and the amount they allow.
module RewardFigures {
  import opened Basics
  import opened DagBlock
  import opened LedgerState
  import opened Nodes
  import opened Consistency
  import opened Creators
  import opened Rewards

  // ----- Capacity ------------------------------------------------------------------------------

  // A block dated before the epoch that sets the capacity, and to what.
  predicate SetsCapacity(b: Block, epoch: int) {
    b.timestamp < epoch * 86_400_000 && (b.kind.StorageDeregister? || (b.kind.StorageRegister? && b.contractData.Some?))
  }

  function CapacitySet(b: Block): real
    requires b.kind.StorageDeregister? || b.contractData.Some?
  {
    if b.kind.StorageDeregister? || b.contractData.value.BadJson? || b.contractData.value.capacityGB.None? then 0.0
    else b.contractData.value.capacityGB.value
  }

  ghost predicate LastSetting(chain: seq<Block>, epoch: int, i: nat) {
    i < |chain| && SetsCapacity(chain[i], epoch) && forall k: nat :: i < k < |chain| ==> !SetsCapacity(chain[k], epoch)
  }

  // The capacity is what the last such block sets, or nothing.
  ghost predicate Capacity(chain: seq<Block>, epoch: int, gb: real) {
    && (forall i: nat :: LastSetting(chain, epoch, i) ==> gb == CapacitySet(chain[i]))
    && ((forall i: nat :: i < |chain| ==> !SetsCapacity(chain[i], epoch)) ==> gb == 0.0)
  }

  lemma {:induction false} CapacityIs(chain: seq<Block>, epoch: int)
    ensures Capacity(chain, epoch, CapacityAtEpochStart(chain, epoch))
  {
    if chain != [] {
      var init, b := chain[..|chain| - 1], chain[|chain| - 1];
      assert chain == init + [b];
      CapacityIs(init, epoch);
      CapacityMore(init, b, epoch, CapacityAtEpochStart(init, epoch));
      CapacityUnfolds(init, b, epoch);
    }
  }

  lemma CapacityUnfolds(init: seq<Block>, b: Block, epoch: int)
    ensures CapacityAtEpochStart(init + [b], epoch) == if SetsCapacity(b, epoch) then CapacitySet(b) else CapacityAtEpochStart(init, epoch)
  {
    assert (init + [b])[..|init|] == init;
  }

  lemma CapacityMore(init: seq<Block>, b: Block, epoch: int, gb: real)
    requires Capacity(init, epoch, gb)
    ensures Capacity(init + [b], epoch, if SetsCapacity(b, epoch) then CapacitySet(b) else gb)
  {
    var chain := init + [b];
    assert chain[|init|] == b && forall i: nat :: i < |init| ==> chain[i] == init[i];
    forall i: nat | LastSetting(chain, epoch, i)
      ensures if SetsCapacity(b, epoch) then i == |init| else LastSetting(init, epoch, i)
    {
      assert i < |init| ==> !SetsCapacity(chain[|init|], epoch);
    }
    if !SetsCapacity(b, epoch) && forall i: nat :: i < |chain| ==> !SetsCapacity(chain[i], epoch) {
      assert forall i: nat :: i < |init| ==> !SetsCapacity(init[i], epoch);
    }
  }

  lemma {:induction false} LastSettingOf(chain: seq<Block>, epoch: int, k: nat) returns (i: nat)
    requires k < |chain| && SetsCapacity(chain[k], epoch)
    ensures LastSetting(chain, epoch, i)
    decreases |chain| - k
  {
    if j: nat :| k < j < |chain| && SetsCapacity(chain[j], epoch) {
      i := LastSettingOf(chain, epoch, j);
    } else {
      i := k;
    }
  }

  lemma OneCapacity(chain: seq<Block>, epoch: int, x: real, y: real)
    requires Capacity(chain, epoch, x) && Capacity(chain, epoch, y)
    ensures x == y
  {
    if k: nat :| k < |chain| && SetsCapacity(chain[k], epoch) {
      var i := LastSettingOf(chain, epoch, k);
    }
  }

  // ----- Reported storage ----------------------------------------------------------------------

  // A heartbeat dated in the epoch that reports stored bytes.
  predicate Reports(b: Block, epoch: int) {
    && b.kind.StorageHeartbeat? && epoch * 86_400_000 <= b.timestamp < (epoch + 1) * 86_400_000
    && b.contractData.Some? && b.contractData.value.Json? && b.contractData.value.actualStoredBytes.Some?
  }

  function Bytes(b: Block): real
    requires b.contractData.Some? && b.contractData.value.Json? && b.contractData.value.actualStoredBytes.Some?
  {
    b.contractData.value.actualStoredBytes.value
  }

  // The report with the greatest timestamp, which is positive; the first of equals.
  ghost predicate BestReport(chain: seq<Block>, epoch: int, i: nat) {
    && i < |chain| && Reports(chain[i], epoch) && chain[i].timestamp > 0
    && forall k: nat :: k < |chain| && Reports(chain[k], epoch) ==>
         chain[k].timestamp <= chain[i].timestamp && (k < i ==> chain[k].timestamp < chain[i].timestamp)
  }

  lemma ReportsAgree(b: Block, epoch: int)
    ensures Reports(b, epoch) <==> ReportsInEpoch(b, epoch)
    ensures Reports(b, epoch) ==> ReportedBytes(b) == Some(Bytes(b))
  {
  }

  ghost predicate LatestFound(chain: seq<Block>, epoch: int) {
    var (bytes, time) := LatestReport(chain, epoch);
    && time >= 0
    && (forall k: nat :: k < |chain| && Reports(chain[k], epoch) ==> chain[k].timestamp <= time)
    && (time == 0 ==> bytes == 0.0)
    && (time > 0 ==> exists i: nat :: BestReport(chain, epoch, i) && chain[i].timestamp == time && Bytes(chain[i]) == bytes)
  }

  lemma {:induction false} LatestIs(chain: seq<Block>, epoch: int)
    ensures LatestFound(chain, epoch)
  {
    if chain != [] {
      var n := |chain| - 1;
      LatestIs(chain[..n], epoch);
      ReportsAgree(chain[n], epoch);
      LatestMore(chain[..n], chain[n], epoch);
      assert chain == chain[..n] + [chain[n]];
    }
  }

  lemma LatestMore(init: seq<Block>, b: Block, epoch: int)
    requires LatestFound(init, epoch)
    ensures LatestFound(init + [b], epoch)
  {
    var chain := init + [b];
    assert chain[..|init|] == init;
    ReportsAgree(b, epoch);
    if Reports(b, epoch) && b.timestamp > LatestReport(init, epoch).1 {
      assert BestReport(chain, epoch, |init|);
    } else if LatestReport(init, epoch).1 > 0 {
      var i: nat :| BestReport(init, epoch, i) && init[i].timestamp == LatestReport(init, epoch).1
                    && Bytes(init[i]) == LatestReport(init, epoch).0;
      assert BestReport(chain, epoch, i);
    }
  }

  // ----- The effective figure ------------------------------------------------------------------

  // The lesser of the reported storage, in units of 2^30 bytes, and the capacity; the capacity when nothing is reported.
  ghost predicate Figure(chain: seq<Block>, epoch: int, capacity: real, gb: real) {
    && Capacity(chain, epoch, capacity)
    && (forall i: nat :: BestReport(chain, epoch, i) && Bytes(chain[i]) > 0.0 ==>
          gb == (if Bytes(chain[i]) / 1_073_741_824.0 <= capacity then Bytes(chain[i]) / 1_073_741_824.0 else capacity))
    && ((forall i: nat :: !(BestReport(chain, epoch, i) && Bytes(chain[i]) > 0.0)) ==> gb == capacity)
  }

  lemma FigureIs(chain: seq<Block>, epoch: int)
    ensures Figure(chain, epoch, CapacityAtEpochStart(chain, epoch), EffectiveGB(chain, epoch))
  {
    CapacityIs(chain, epoch);
    LatestIs(chain, epoch);
    var (bytes, time) := LatestReport(chain, epoch);
    forall i: nat | BestReport(chain, epoch, i)
      ensures Bytes(chain[i]) == bytes && time > 0
    {
      var k: nat :| BestReport(chain, epoch, k) && chain[k].timestamp == time && Bytes(chain[k]) == bytes;
      assert k == i;
    }
    Gigabytes(bytes);
  }

  lemma Gigabytes(bytes: real)
    ensures bytes / (GB_BYTES as real) == bytes / 1_073_741_824.0
    ensures bytes / 1_073_741_824.0 > 0.0 <==> bytes > 0.0
  {
  }

  lemma OneFigure(chain: seq<Block>, epoch: int, c: real, x: real, d: real, y: real)
    requires Figure(chain, epoch, c, x) && Figure(chain, epoch, d, y)
    ensures c == d && x == y
  {
    OneCapacity(chain, epoch, c, d);
    if i: nat :| BestReport(chain, epoch, i) && Bytes(chain[i]) > 0.0 {
      assert x == y;
    }
  }

  // ----- The amount ----------------------------------------------------------------------------

  // A thousand a gigabyte and day, for the share of six heartbeats, rounded down.
  function Amount(gb: real, heartbeats: nat): int {
    (1000.0 * gb * (if heartbeats < 6 then heartbeats as real else 6.0) / 6.0).Floor
  }

  lemma AmountIs(gb: real, heartbeats: nat)
    ensures MaxReward(gb, heartbeats) == Amount(gb, heartbeats)
  {
    var h := heartbeats as real;
    assert MAX_HEARTBEATS_PER_DAY as real == 6.0;
    if heartbeats < 6 {
      assert h / 6.0 < 1.0;
      Share(1000.0 * gb, h);
    } else {
      assert h / 6.0 >= 1.0;
      Share(1000.0 * gb, 6.0);
    }
  }

  lemma Share(x: real, h: real)
    ensures x * (h / 6.0) == x * h / 6.0
  {
  }

  // In every append-only run, the reward that createStorageReward makes is for the day of the clock, and claims exactly
  // the figure, the count and the amount that the account's chain gives.
  lemma CreatedReward(env: Env, es: seq<Event>, pub: Pub, keys: KeyPair, now: int)
    requires AppendOnly(env, es) && Create(env, Run(env, es).ledger, pub, ToReward, keys, now).Made?
    ensures var b := Create(env, Run(env, es).ledger, pub, ToReward, keys, now).block;
            var chain, epoch := Chain(Run(env, es).ledger, pub), now / 86_400_000;
            && b.kind.StorageReward? && b.contractData.Some? && b.contractData.value.Json?
            && var d := b.contractData.value;
               && d.epochDay == Some(epoch) && d.heartbeatCount == Some(CountInEpoch(chain, epoch)) && d.storedGB.Some?
               && (exists capacity :: Figure(chain, epoch, capacity, d.storedGB.value) && capacity != 0.0)
               && d.amount == Some(Amount(d.storedGB.value, CountInEpoch(chain, epoch)))
               && chain != [] && b.balance == chain[|chain| - 1].balance + Amount(d.storedGB.value, CountInEpoch(chain, epoch))
  {
    var s, epoch := Run(env, es).ledger, now / 86_400_000;
    IndexEqualsScan(env, es, pub, epoch);
    FigureIs(Chain(s, pub), epoch);
    AmountIs(EffectiveGB(Chain(s, pub), epoch), HeartbeatsInEpoch(s, pub, epoch));
  }

  // Everything addBlock demands of a reward but the storage and the amount it claims.
  ghost predicate OtherwiseValid(env: Env, s: Ledger, b: Block, capacity: real) {
    && b.hash !in s.blocks && env.digest(HashInput(b)) == b.hash && SignedBy(env, s, b) && Sound(b, Parent(s, b))
    && b.accountPub in s.providers && s.providers[b.accountPub].capacityGB != 0.0
    && s.providers[b.accountPub].lastRewardEpoch < RewardEpoch(b)
    && capacity != 0.0 && CountInEpoch(Chain(s, b.accountPub), RewardEpoch(b)) > 0
  }

  // In every append-only run an otherwise valid reward is accepted exactly when it claims no more storage than the figure
  // and no more than the amount.
  lemma AcceptedRewardIff(env: Env, es: seq<Event>, b: Block, now: int, capacity: real, gb: real)
    requires AppendOnly(env, es) && b.kind.StorageReward?
    requires Figure(Chain(Run(env, es).ledger, b.accountPub), RewardEpoch(b), capacity, gb)
    ensures var s := Run(env, es).ledger;
            Judge(env, s, b, now).Accepted? <==>
            && OtherwiseValid(env, s, b, capacity) && RewardStoredGB(b) <= gb + 0.000000001
            && RewardAmount(b) <= Amount(gb, CountInEpoch(Chain(s, b.accountPub), RewardEpoch(b)))
  {
    var s, epoch := Run(env, es).ledger, RewardEpoch(b);
    var chain := Chain(s, b.accountPub);
    IndexEqualsScan(env, es, b.accountPub, epoch);
    FigureIs(chain, epoch);
    OneFigure(chain, epoch, capacity, gb, CapacityAtEpochStart(chain, epoch), EffectiveGB(chain, epoch));
    AmountIs(gb, CountInEpoch(chain, epoch));
    AcceptedIffAdmissible(env, s, b, now);
    RewardByFigure(env, s, b, now, capacity, gb);
  }

  lemma RewardByFigure(env: Env, s: Ledger, b: Block, now: int, capacity: real, gb: real)
    requires b.kind.StorageReward?
    requires capacity == CapacityAtEpochStart(Chain(s, b.accountPub), RewardEpoch(b))
    requires gb == EffectiveGB(Chain(s, b.accountPub), RewardEpoch(b))
    requires HeartbeatsInEpoch(s, b.accountPub, RewardEpoch(b)) == CountInEpoch(Chain(s, b.accountPub), RewardEpoch(b))
    ensures Admissible(env, s, b, now) <==>
            && OtherwiseValid(env, s, b, capacity) && RewardStoredGB(b) <= gb + 0.000000001
            && RewardAmount(b) <= MaxReward(gb, CountInEpoch(Chain(s, b.accountPub), RewardEpoch(b)))
  {
  }
}
