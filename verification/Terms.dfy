// A provider's term runs from one deregistration to the next. Within a term heartbeats are spaced, reward epochs
// increase and the earnings add up; a deregistration forgets all three.
module Terms {
  import opened Basics
  import opened DagBlock
  import opened LedgerState
  import opened Nodes
  import opened Consistency
  import opened Rewards

  // No deregistration strictly between positions i and j.
  ghost predicate OneTerm(chain: seq<Block>, i: int, j: int) {
    forall k :: i < k < j && 0 <= k < |chain| ==> !chain[k].kind.StorageDeregister?
  }

  ghost predicate Spaced(chain: seq<Block>) {
    forall i, j :: 0 <= i < j < |chain| && OneTerm(chain, i, j) ==> FarApart(chain[i], chain[j])
  }

  predicate FarApart(a: Block, b: Block) {
    a.kind.StorageHeartbeat? && b.kind.StorageHeartbeat? && a.timestamp > 0 ==> b.timestamp - a.timestamp >= MIN_GAP
  }

  ghost predicate EpochsIncrease(chain: seq<Block>) {
    forall i, j :: 0 <= i < j < |chain| && OneTerm(chain, i, j) ==> LaterEpoch(chain[i], chain[j])
  }

  predicate LaterEpoch(a: Block, b: Block) {
    a.kind.StorageReward? && b.kind.StorageReward? ==> RewardEpoch(a) < RewardEpoch(b)
  }

  ghost predicate RewardsBounded(chain: seq<Block>) {
    forall i :: 0 <= i < |chain| && chain[i].kind.StorageReward? ==>
      RewardAmount(chain[i]) <= MaxReward(EffectiveGB(chain[..i], RewardEpoch(chain[i])), CountInEpoch(chain[..i], RewardEpoch(chain[i])))
  }

  // The rewards of the current term.
  function EarnedInTerm(chain: seq<Block>): int {
    if chain == [] || chain[|chain| - 1].kind.StorageDeregister? then 0
    else EarnedInTerm(chain[..|chain| - 1]) + if chain[|chain| - 1].kind.StorageReward? then RewardAmount(chain[|chain| - 1]) else 0
  }

  // The timestamp of the current term's last heartbeat, and the epoch of its last reward; 0 when it has none.
  function LastHeartbeat(chain: seq<Block>): int {
    if chain == [] || chain[|chain| - 1].kind.StorageDeregister? then 0
    else if chain[|chain| - 1].kind.StorageHeartbeat? then chain[|chain| - 1].timestamp
    else LastHeartbeat(chain[..|chain| - 1])
  }

  function LastRewardEpoch(chain: seq<Block>): int {
    if chain == [] || chain[|chain| - 1].kind.StorageDeregister? then 0
    else if chain[|chain| - 1].kind.StorageReward? then RewardEpoch(chain[|chain| - 1])
    else LastRewardEpoch(chain[..|chain| - 1])
  }

  // The profile is the current term's: its last heartbeat, its last reward epoch, the sum of its rewards. Without a
  // profile the term has none of them.
  ghost predicate ProfileIs(chain: seq<Block>, p: Option<Provider>) {
    && LastHeartbeat(chain) == (if p.Some? then p.value.lastHeartbeat else 0)
    && LastRewardEpoch(chain) == (if p.Some? then p.value.lastRewardEpoch else 0)
    && EarnedInTerm(chain) == (if p.Some? then p.value.totalEarned else 0)
  }

  // It is at or after every heartbeat with a positive timestamp, and every reward, of the term.
  ghost predicate ProfileCovers(chain: seq<Block>, p: Option<Provider>) {
    && (forall i :: 0 <= i < |chain| && OneTerm(chain, i, |chain|) && chain[i].kind.StorageHeartbeat? ==>
          p.Some? && (chain[i].timestamp > 0 ==> p.value.lastHeartbeat >= chain[i].timestamp))
    && (forall i :: 0 <= i < |chain| && OneTerm(chain, i, |chain|) && chain[i].kind.StorageReward? ==>
          p.Some? && p.value.lastRewardEpoch >= RewardEpoch(chain[i]))
  }

  // What addBlock checks of a storage block against the profile.
  predicate FitsProfile(p: Option<Provider>, b: Block) {
    && (b.kind.StorageHeartbeat? ==> p.Some? && (p.value.lastHeartbeat > 0 ==> b.timestamp - p.value.lastHeartbeat >= MIN_GAP))
    && (b.kind.StorageReward? ==> p.Some? && p.value.lastRewardEpoch < RewardEpoch(b))
    && (b.kind.StorageReward? || b.kind.StorageRegister? ==> b.contractData.Some? && b.contractData.value.Json?)
  }

  lemma ProfileAfter(chain: seq<Block>, p: Option<Provider>, b: Block)
    requires ProfileCovers(chain, p) && FitsProfile(p, b)
    ensures ProfileCovers(chain + [b], ProviderAfter(p, b))
  {
    var after := chain + [b];
    assert after[..|after| - 1] == chain;
    forall i | 0 <= i < |chain| && OneTerm(after, i, |after|)
      ensures OneTerm(chain, i, |chain|) && !b.kind.StorageDeregister?
    {
      assert after[|chain|] == b;
      assert forall k :: i < k < |chain| ==> after[k] == chain[k];
    }
  }

  lemma ProfileIsAfter(chain: seq<Block>, p: Option<Provider>, b: Block)
    requires ProfileIs(chain, p) && FitsProfile(p, b)
    ensures ProfileIs(chain + [b], ProviderAfter(p, b))
  {
    assert (chain + [b])[..|chain|] == chain;
  }

  lemma SpacedAfter(chain: seq<Block>, p: Option<Provider>, b: Block)
    requires ProfileCovers(chain, p) && FitsProfile(p, b) && Spaced(chain) && EpochsIncrease(chain)
    ensures Spaced(chain + [b]) && EpochsIncrease(chain + [b])
  {
    var after := chain + [b];
    forall i, j | 0 <= i < j < |after| && OneTerm(after, i, j)
      ensures OneTerm(chain, i, j)
    {
      assert forall k :: i < k < j ==> after[k] == chain[k];
    }
  }

  lemma BoundedAfter(chain: seq<Block>, b: Block)
    requires RewardsBounded(chain)
    requires b.kind.StorageReward? ==>
               RewardAmount(b) <= MaxReward(EffectiveGB(chain, RewardEpoch(b)), CountInEpoch(chain, RewardEpoch(b)))
    ensures RewardsBounded(chain + [b])
  {
    var after := chain + [b];
    forall i | 0 <= i < |after| && after[i].kind.StorageReward?
      ensures RewardAmount(after[i]) <= MaxReward(EffectiveGB(after[..i], RewardEpoch(after[i])), CountInEpoch(after[..i], RewardEpoch(after[i])))
    {
      assert after[..i] == chain[..i];
      assert chain[..|chain|] == chain;
    }
  }

  ghost predicate TermFacts(chain: seq<Block>) {
    ProfileIs(chain, ProviderOf(chain)) && ProfileCovers(chain, ProviderOf(chain)) && Spaced(chain) && EpochsIncrease(chain) && RewardsBounded(chain)
  }

  lemma TermFactsAfter(chain: seq<Block>, b: Block)
    requires TermFacts(chain) && FitsProfile(ProviderOf(chain), b)
    requires b.kind.StorageReward? ==>
               RewardAmount(b) <= MaxReward(EffectiveGB(chain, RewardEpoch(b)), CountInEpoch(chain, RewardEpoch(b)))
    ensures TermFacts(chain + [b])
  {
    ReplayOneMore(chain, b);
    ProfileIsAfter(chain, ProviderOf(chain), b);
    ProfileAfter(chain, ProviderOf(chain), b);
    SpacedAfter(chain, ProviderOf(chain), b);
    BoundedAfter(chain, b);
  }

  lemma AcceptedFits(env: Env, s: Ledger, b: Block, now: int)
    requires ProvidersReplayed(s) && HeartbeatsReplayed(s) && Judge(env, s, b, now).Accepted?
    ensures var chain := Chain(s, b.accountPub);
            && FitsProfile(ProviderOf(chain), b)
            && (b.kind.StorageReward? ==>
                  RewardAmount(b) <= MaxReward(EffectiveGB(chain, RewardEpoch(b)), CountInEpoch(chain, RewardEpoch(b))))
  {
    AcceptedIffAdmissible(env, s, b, now);
    assert Lookup(s.providers, b.accountPub) == ProviderOf(Chain(s, b.accountPub));
    assert Lookup(s.heartbeats, b.accountPub).GetOr(map[]) == HeartbeatIndex(Chain(s, b.accountPub));
    IndexCounts(Chain(s, b.accountPub), RewardEpoch(b));
  }

  lemma AcceptedKeepsTermFacts(env: Env, s: Ledger, b: Block, now: int, p: Pub)
    requires ProvidersReplayed(s) && HeartbeatsReplayed(s) && Judge(env, s, b, now).Accepted? && TermFacts(Chain(s, p))
    ensures TermFacts(Chain(Store(s, b), p))
  {
    if p == b.accountPub {
      AcceptedFits(env, s, b, now);
      TermFactsAfter(Chain(s, p), b);
      assert Chain(Store(s, b), p) == Chain(s, p) + [b];
    } else {
      assert Chain(Store(s, b), p) == Chain(s, p);
    }
  }

  lemma StepKeepsTermFacts(env: Env, s: Ledger, e: Event, p: Pub)
    requires ProvidersReplayed(s) && HeartbeatsReplayed(s) && TermFacts(Chain(s, p))
    ensures TermFacts(Chain(LedgerStep(env, s, e), p))
  {
    if e.Submit? && Judge(env, s, e.block, e.now).Accepted? {
      AcceptedKeepsTermFacts(env, s, e.block, e.now, p);
    } else {
      QuietStep(env, s, e);
      assert Chain(LedgerStep(env, s, e), p) == Chain(s, p);
    }
  }

  lemma {:induction false} ChainsKeepTermFacts(env: Env, es: seq<Event>, p: Pub)
    requires AppendOnly(env, es)
    ensures TermFacts(Chain(Run(env, es).ledger, p))
  {
    if es != [] {
      LastStep(env, es);
      ChainsKeepTermFacts(env, es[..|es| - 1], p);
      AppendOnlyConsistent(env, es[..|es| - 1]);
      StepKeepsTermFacts(env, Run(env, es[..|es| - 1]).ledger, es[|es| - 1], p);
    }
  }

  // ----- The theorems --------------------------------------------------------------------------

  // Accepted heartbeats of one term are at least MIN_GAP apart once the earlier one has a positive timestamp;
  // accepted reward epochs of one term strictly increase; total earned is the sum of the term's rewards.
  lemma SpacingAndRewards(env: Env, es: seq<Event>, p: Pub)
    requires AppendOnly(env, es)
    ensures var s := Run(env, es).ledger;
            && Spaced(Chain(s, p)) && EpochsIncrease(Chain(s, p))
            && (p in s.providers ==> s.providers[p].totalEarned == EarnedInTerm(Chain(s, p)))
  {
    ChainsKeepTermFacts(env, es, p);
    AppendOnlyConsistent(env, es);
    assert Lookup(Run(env, es).ledger.providers, p) == ProviderOf(Chain(Run(env, es).ledger, p));
  }

  // ----- What the profile checks refuse --------------------------------------------------------

  // The last heartbeat of the current term.
  ghost predicate LastBeatAt(chain: seq<Block>, i: int) {
    && 0 <= i < |chain| && chain[i].kind.StorageHeartbeat? && OneTerm(chain, i, |chain|)
    && forall k :: i < k < |chain| ==> !chain[k].kind.StorageHeartbeat?
  }

  lemma {:induction false} LastBeatFound(chain: seq<Block>)
    ensures LastHeartbeat(chain) != 0 ==> exists i :: LastBeatAt(chain, i)
    ensures forall i :: LastBeatAt(chain, i) ==> chain[i].timestamp == LastHeartbeat(chain)
  {
    if chain != [] {
      var n := |chain| - 1;
      var init := chain[..n];
      LastBeatFound(init);
      if chain[n].kind.StorageHeartbeat? {
        assert LastBeatAt(chain, n);
      } else if !chain[n].kind.StorageDeregister? {
        assert forall i :: i < n ==> (LastBeatAt(chain, i) <==> LastBeatAt(init, i));
      }
    }
  }

  // A reward of the current term for the epoch or a later one.
  ghost predicate RewardedFrom(chain: seq<Block>, epoch: int, i: int) {
    0 <= i < |chain| && chain[i].kind.StorageReward? && OneTerm(chain, i, |chain|) && RewardEpoch(chain[i]) >= epoch
  }

  lemma {:induction false} LastRewardFound(chain: seq<Block>)
    ensures LastRewardEpoch(chain) != 0 ==> exists i :: RewardedFrom(chain, LastRewardEpoch(chain), i)
  {
    if chain != [] {
      var n := |chain| - 1;
      var init := chain[..n];
      LastRewardFound(init);
      if chain[n].kind.StorageReward? {
        assert RewardedFrom(chain, RewardEpoch(chain[n]), n);
      } else if LastRewardEpoch(chain) != 0 {
        var i :| RewardedFrom(init, LastRewardEpoch(init), i);
        assert RewardedFrom(chain, LastRewardEpoch(chain), i);
      }
    }
  }

  lemma TooSoonAfterLast(s: Ledger, b: Block, now: int, chain: seq<Block>)
    requires Active(Lookup(s.providers, b.accountPub)) && s.providers[b.accountPub].lastHeartbeat == LastHeartbeat(chain)
    ensures ValidateHeartbeat(s, b, now) == Some(HeartbeatTooSoon) <==>
            exists i :: LastBeatAt(chain, i) && chain[i].timestamp > 0 && b.timestamp - chain[i].timestamp < MIN_GAP
  {
    LastBeatFound(chain);
  }

  // In every append-only run a heartbeat of an active provider is refused as too soon exactly when its term's last
  // heartbeat has a positive timestamp and lies less than the minimum gap before it.
  lemma TooSoonIff(env: Env, es: seq<Event>, b: Block, now: int)
    requires AppendOnly(env, es) && Active(Lookup(Run(env, es).ledger.providers, b.accountPub))
    ensures var chain := Chain(Run(env, es).ledger, b.accountPub);
            ValidateHeartbeat(Run(env, es).ledger, b, now) == Some(HeartbeatTooSoon) <==>
            exists i :: LastBeatAt(chain, i) && chain[i].timestamp > 0 && b.timestamp - chain[i].timestamp < MIN_GAP
  {
    ProfileOfRun(env, es, b.accountPub);
    TooSoonAfterLast(Run(env, es).ledger, b, now, Chain(Run(env, es).ledger, b.accountPub));
  }

  lemma ProfileOfRun(env: Env, es: seq<Event>, p: Pub)
    requires AppendOnly(env, es)
    ensures var s := Run(env, es).ledger;
            ProfileIs(Chain(s, p), Lookup(s.providers, p)) && ProfileCovers(Chain(s, p), Lookup(s.providers, p))
  {
    ChainsKeepTermFacts(env, es, p);
    AppendOnlyConsistent(env, es);
    assert Lookup(Run(env, es).ledger.providers, p) == ProviderOf(Chain(Run(env, es).ledger, p));
  }

  lemma LastRewardIsLatest(chain: seq<Block>, p: Option<Provider>, epoch: int)
    requires ProfileIs(chain, p) && ProfileCovers(chain, p) && epoch > 0
    ensures LastRewardEpoch(chain) >= epoch <==> exists i :: RewardedFrom(chain, epoch, i)
  {
    LastRewardFound(chain);
    if LastRewardEpoch(chain) >= epoch {
      var i :| RewardedFrom(chain, LastRewardEpoch(chain), i);
      assert RewardedFrom(chain, epoch, i);
    }
  }

  lemma RepeatedReward(s: Ledger, b: Block)
    requires Active(Lookup(s.providers, b.accountPub))
    ensures ValidateReward(s, b) == Some(EpochAlreadyRewarded) <==> s.providers[b.accountPub].lastRewardEpoch >= RewardEpoch(b)
  {
  }

  // In every append-only run a reward of an active provider is refused as repeated exactly when its term already holds
  // a reward of that epoch or a later one.
  lemma AlreadyRewardedIff(env: Env, es: seq<Event>, b: Block)
    requires AppendOnly(env, es) && Active(Lookup(Run(env, es).ledger.providers, b.accountPub)) && RewardEpoch(b) > 0
    ensures ValidateReward(Run(env, es).ledger, b) == Some(EpochAlreadyRewarded) <==>
            exists i :: RewardedFrom(Chain(Run(env, es).ledger, b.accountPub), RewardEpoch(b), i)
  {
    var s := Run(env, es).ledger;
    ProfileOfRun(env, es, b.accountPub);
    LastRewardIsLatest(Chain(s, b.accountPub), Lookup(s.providers, b.accountPub), RewardEpoch(b));
    RepeatedReward(s, b);
  }

  // ----- Bounds --------------------------------------------------------------------------------

  // Every accepted reward is at most the base rate on the capacity its account had at the epoch start,
  // as the chain before the reward shows it.
  lemma EveryRewardBounded(env: Env, es: seq<Event>, p: Pub, i: nat)
    requires AppendOnly(env, es)
    requires i < |Chain(Run(env, es).ledger, p)| && Chain(Run(env, es).ledger, p)[i].kind.StorageReward?
    ensures var chain := Chain(Run(env, es).ledger, p);
            RewardAmount(chain[i]) <= (BASE_STORAGE_RATE_MILLI as real * CapacityAtEpochStart(chain[..i], RewardEpoch(chain[i]))).Floor
  {
    var s := Run(env, es).ledger;
    var chain := Chain(s, p);
    ChainsKeepTermFacts(env, es, p);
    AppendOnlyConsistent(env, es);
    forall k | 0 <= k < i
      ensures PayloadComplete(chain[..i][k])
    {
      assert ChainOf(s.blocks, p, chain);
      assert Sound(s.blocks[chain[k].hash], ParentIn(s.blocks, s.blocks[chain[k].hash]));
    }
    var epoch := RewardEpoch(chain[i]);
    CapacityNotNegative(chain[..i], epoch * REWARD_EPOCH_MS);
    RewardBelowCapacity(chain[..i], epoch, CountInEpoch(chain[..i], epoch));
  }

  // The last heartbeat of an epoch comes at least MIN_GAP after the epoch start for each heartbeat before it.
  lemma {:induction false} LastBeat(chain: seq<Block>, epoch: int) returns (last: int)
    requires Spaced(chain) && OneTerm(chain, -1, |chain|) && epoch > 0 && CountInEpoch(chain, epoch) > 0
    ensures 0 <= last < |chain| && BeatsIn(chain[last], epoch)
    ensures chain[last].timestamp >= epoch * REWARD_EPOCH_MS + (CountInEpoch(chain, epoch) - 1) * MIN_GAP
  {
    var n := |chain| - 1;
    var init := chain[..n];
    assert Spaced(init) by {
      forall i, j | 0 <= i < j < n
        ensures OneTerm(chain, i, j)
      {
      }
    }
    if BeatsIn(chain[n], epoch) {
      last := n;
      if CountInEpoch(init, epoch) > 0 {
        var earlier := LastBeat(init, epoch);
        assert OneTerm(chain, earlier, n);
        assert chain[n].timestamp - chain[earlier].timestamp >= MIN_GAP;
      }
    } else {
      last := LastBeat(init, epoch);
    }
  }

  lemma SevenInTerm(chain: seq<Block>, from: nat, to: nat, epoch: int)
    requires Spaced(chain) && epoch > 0 && from <= to <= |chain| && OneTerm(chain, from - 1, to)
    ensures CountInEpoch(chain[from..to], epoch) <= 7
  {
    var part := chain[from..to];
    assert Spaced(part) by {
      forall i, j | 0 <= i < j < |part| && OneTerm(part, i, j)
        ensures OneTerm(chain, from + i, from + j)
      {
        assert forall k :: from + i < k < from + j ==> chain[k] == part[k - from];
      }
    }
    assert OneTerm(part, -1, |part|);
    if CountInEpoch(part, epoch) > 0 {
      var last := LastBeat(part, epoch);
      assert part[last].timestamp < (epoch + 1) * REWARD_EPOCH_MS;
    }
  }

  // At most seven heartbeats of one term fall into one epoch day.
  lemma AtMostSevenHeartbeats(env: Env, es: seq<Event>, p: Pub, from: nat, to: nat, epoch: int)
    requires AppendOnly(env, es) && epoch > 0
    requires from <= to <= |Chain(Run(env, es).ledger, p)| && OneTerm(Chain(Run(env, es).ledger, p), from - 1, to)
    ensures CountInEpoch(Chain(Run(env, es).ledger, p)[from..to], epoch) <= 7
  {
    ChainsKeepTermFacts(env, es, p);
    SevenInTerm(Chain(Run(env, es).ledger, p), from, to, epoch);
  }

  // The once-per-epoch check looks only at the current profile. Right after a reward a second one for the same
  // epoch is refused; after a deregistration and a new registration dated inside the epoch or later it
  // passes.
  lemma ReregistrationReopensEpoch(s: Ledger, reward: Block, leave: Block, join: Block, again: Block)
    requires reward.kind.StorageReward? && PayloadComplete(reward) && ValidateReward(s, reward).None?
    requires leave.kind.StorageDeregister? && join.kind.StorageRegister? && PayloadComplete(join)
    requires again.kind.StorageReward? && again.contractData == reward.contractData
    requires leave.accountPub == reward.accountPub && join.accountPub == reward.accountPub && again.accountPub == reward.accountPub
    requires reward.timestamp >= RewardEpoch(reward) * REWARD_EPOCH_MS
    requires leave.timestamp >= RewardEpoch(reward) * REWARD_EPOCH_MS && join.timestamp >= RewardEpoch(reward) * REWARD_EPOCH_MS
    ensures ValidateReward(Store(s, reward), again) == Some(EpochAlreadyRewarded)
    ensures ValidateReward(Store(Store(Store(s, reward), leave), join), again).None?
  {
    var p, epoch := reward.accountPub, RewardEpoch(reward);
    var s1 := Store(s, reward);
    var s2 := Store(s1, leave);
    var s3 := Store(s2, join);
    QuietForReward(s, reward, epoch);
    QuietForReward(s1, leave, epoch);
    QuietForReward(s2, join, epoch);
    RewardForgotten(s1, leave, join);
    SameBasisSameCheck(s, s3, reward, again);
  }

  lemma RewardForgotten(s: Ledger, leave: Block, join: Block)
    requires leave.kind.StorageDeregister? && join.kind.StorageRegister? && PayloadComplete(join) && leave.accountPub == join.accountPub
    ensures var p := join.accountPub;
            var t := Store(Store(s, leave), join);
            p in t.providers && t.providers[p].lastRewardEpoch == 0 && t.providers[p].capacityGB > 0.0
  {
  }

  lemma SameBasisSameCheck(s: Ledger, t: Ledger, b: Block, again: Block)
    requires again.accountPub == b.accountPub && again.contractData == b.contractData
    requires ValidateReward(s, b).None? && RewardEpoch(b) > 0
    requires b.accountPub in t.providers && t.providers[b.accountPub].lastRewardEpoch == 0 && t.providers[b.accountPub].capacityGB > 0.0
    requires EffectiveGB(Chain(t, b.accountPub), RewardEpoch(b)) == EffectiveGB(Chain(s, b.accountPub), RewardEpoch(b))
    requires CapacityAtEpochStart(Chain(t, b.accountPub), RewardEpoch(b)) == CapacityAtEpochStart(Chain(s, b.accountPub), RewardEpoch(b))
    requires HeartbeatsInEpoch(t, b.accountPub, RewardEpoch(b)) == HeartbeatsInEpoch(s, b.accountPub, RewardEpoch(b))
    ensures ValidateReward(t, again).None?
  {
  }

  // Storage blocks other than heartbeats, dated in the epoch or later, leave its reward basis as it is.
  lemma QuietForReward(s: Ledger, b: Block, epoch: int)
    requires !b.kind.StorageHeartbeat? && b.timestamp >= epoch * REWARD_EPOCH_MS
    ensures EffectiveGB(Chain(Store(s, b), b.accountPub), epoch) == EffectiveGB(Chain(s, b.accountPub), epoch)
    ensures CapacityAtEpochStart(Chain(Store(s, b), b.accountPub), epoch) == CapacityAtEpochStart(Chain(s, b.accountPub), epoch)
    ensures HeartbeatsInEpoch(Store(s, b), b.accountPub, epoch) == HeartbeatsInEpoch(s, b.accountPub, epoch)
  {
  }
}
