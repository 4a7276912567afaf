// A provider's profile, field by field, from its account's chain.
module Profiles {
  import opened Basics
  import opened DagBlock
  import opened LedgerState
  import opened Nodes
  import opened Consistency
  import opened Terms

  // ----- The last block that says something ----------------------------------------------------

  // What the last block that says something says, unless a later block takes it back. A block that takes back says nothing.
  function LastSaid<T>(chain: seq<Block>, takesBack: Block -> bool, says: Block -> Option<T>): Option<T> {
    if chain == [] || takesBack(chain[|chain| - 1]) then None
    else if says(chain[|chain| - 1]).Some? then says(chain[|chain| - 1])
    else LastSaid(chain[..|chain| - 1], takesBack, says)
  }

  // The same, for the first block that says something since the last one that takes back.
  function FirstSaid<T>(chain: seq<Block>, takesBack: Block -> bool, says: Block -> Option<T>): Option<T> {
    if chain == [] || takesBack(chain[|chain| - 1]) then None
    else
      var before := FirstSaid(chain[..|chain| - 1], takesBack, says);
      if before.Some? then before else says(chain[|chain| - 1])
  }

  // No block from position i on takes back.
  ghost predicate Stands(chain: seq<Block>, takesBack: Block -> bool, i: int) {
    forall k :: i <= k < |chain| && 0 <= k ==> !takesBack(chain[k])
  }

  lemma {:induction false} LastSaidIs<T>(chain: seq<Block>, takesBack: Block -> bool, says: Block -> Option<T>, i: nat)
    requires i < |chain| && says(chain[i]).Some? && Stands(chain, takesBack, i) && forall k :: i < k < |chain| ==> says(chain[k]).None?
    ensures LastSaid(chain, takesBack, says) == says(chain[i])
  {
    if i < |chain| - 1 {
      LastSaidIs(chain[..|chain| - 1], takesBack, says, i);
    }
  }

  lemma {:induction false} NothingSaid<T>(chain: seq<Block>, takesBack: Block -> bool, says: Block -> Option<T>)
    requires forall i :: 0 <= i < |chain| && Stands(chain, takesBack, i) ==> says(chain[i]).None?
    ensures LastSaid(chain, takesBack, says).None? && FirstSaid(chain, takesBack, says).None?
  {
    if chain != [] && !takesBack(chain[|chain| - 1]) {
      var init := chain[..|chain| - 1];
      forall i | 0 <= i < |init| && Stands(init, takesBack, i)
        ensures says(init[i]).None?
      {
        assert Stands(chain, takesBack, i);
      }
      NothingSaid(init, takesBack, says);
      assert Stands(chain, takesBack, |chain| - 1);
    }
  }

  lemma {:induction false} FirstSaidIs<T>(chain: seq<Block>, takesBack: Block -> bool, says: Block -> Option<T>, i: nat)
    requires i < |chain| && says(chain[i]).Some? && Stands(chain, takesBack, i)
    requires forall k :: 0 <= k < i && Stands(chain, takesBack, k) ==> says(chain[k]).None?
    ensures FirstSaid(chain, takesBack, says) == says(chain[i])
  {
    var n := |chain| - 1;
    var init := chain[..n];
    forall k | 0 <= k < |init| && k < i && Stands(init, takesBack, k)
      ensures says(init[k]).None?
    {
      assert Stands(chain, takesBack, k);
    }
    if i < n {
      FirstSaidIs(init, takesBack, says, i);
    } else {
      NothingSaid(init, takesBack, says);
    }
  }

  // ----- What each kind of block says ----------------------------------------------------------

  predicate Leaves(b: Block) {
    b.kind.StorageDeregister?
  }

  predicate LeavesOrJoins(b: Block) {
    b.kind.StorageDeregister? || b.kind.StorageRegister?
  }

  predicate HasJson(b: Block) {
    b.contractData.Some? && b.contractData.value.Json?
  }

  function JoinDate(b: Block): Option<int> {
    if b.kind.StorageRegister? && HasJson(b) then Some(b.timestamp) else None
  }

  function Device(b: Block): Option<string> {
    if b.kind.StorageRegister? && HasJson(b) then b.contractData.value.deviceId else None
  }

  function Offer(b: Block): Option<real> {
    if b.kind.StorageRegister? && HasJson(b) then Some(b.contractData.value.capacityGB.GetOr(0.0)) else None
  }

  function StoredBytes(b: Block): Option<real> {
    if b.kind.StorageHeartbeat? && HasJson(b) then b.contractData.value.actualStoredBytes else None
  }

  function Address(b: Block): Option<string> {
    if b.kind.StorageHeartbeat? && HasJson(b) && b.contractData.value.smokeAddr != Some("") then b.contractData.value.smokeAddr else None
  }

  // A country is two capital letters.
  function Country(b: Block): Option<string> {
    if b.kind.StorageHeartbeat? && HasJson(b) && b.contractData.value.countryCode.Some?
       && |b.contractData.value.countryCode.value| == 2
       && (forall i :: 0 <= i < 2 ==> 'A' <= b.contractData.value.countryCode.value[i] <= 'Z')
    then b.contractData.value.countryCode else None
  }

  // The profile shows the date of the term's first registration, the device and the capacity of the last one, the stored
  // bytes last reported in the term, and the address and the country last given since the last registration.
  predicate Shows(chain: seq<Block>, p: Provider) {
    && Some(p.registeredAt) == FirstSaid(chain, Leaves, JoinDate)
    && p.deviceId == LastSaid(chain, Leaves, Device).GetOr("")
    && Some(p.capacityGB) == LastSaid(chain, Leaves, Offer)
    && p.lastActualStoredBytes == LastSaid(chain, Leaves, StoredBytes).GetOr(0.0)
    && p.smokeAddr == LastSaid(chain, LeavesOrJoins, Address)
    && p.countryCode == LastSaid(chain, LeavesOrJoins, Country)
  }

  // Without a profile nothing stands.
  predicate ShowsNothing(chain: seq<Block>) {
    && FirstSaid(chain, Leaves, JoinDate).None? && LastSaid(chain, Leaves, Device).None? && LastSaid(chain, Leaves, Offer).None?
    && LastSaid(chain, Leaves, StoredBytes).None? && LastSaid(chain, LeavesOrJoins, Address).None?
    && LastSaid(chain, LeavesOrJoins, Country).None?
  }

  predicate ShowsAll(chain: seq<Block>, p: Option<Provider>) {
    match p
    case Some(profile) => Shows(chain, profile)
    case None => ShowsNothing(chain)
  }

  lemma SaidMore<T>(chain: seq<Block>, b: Block, takesBack: Block -> bool, says: Block -> Option<T>)
    ensures LastSaid(chain + [b], takesBack, says) ==
            if takesBack(b) then None else if says(b).Some? then says(b) else LastSaid(chain, takesBack, says)
    ensures FirstSaid(chain + [b], takesBack, says) ==
            if takesBack(b) then None
            else if FirstSaid(chain, takesBack, says).Some? then FirstSaid(chain, takesBack, says) else says(b)
  {
    assert (chain + [b])[..|chain|] == chain;
  }

  lemma SaidAll(chain: seq<Block>, b: Block)
    ensures var more := chain + [b];
            && FirstSaid(more, Leaves, JoinDate) ==
               (if Leaves(b) then None
                else if FirstSaid(chain, Leaves, JoinDate).Some? then FirstSaid(chain, Leaves, JoinDate) else JoinDate(b))
            && LastSaid(more, Leaves, Device) == Said(Leaves(b), Device(b), LastSaid(chain, Leaves, Device))
            && LastSaid(more, Leaves, Offer) == Said(Leaves(b), Offer(b), LastSaid(chain, Leaves, Offer))
            && LastSaid(more, Leaves, StoredBytes) == Said(Leaves(b), StoredBytes(b), LastSaid(chain, Leaves, StoredBytes))
            && LastSaid(more, LeavesOrJoins, Address) == Said(LeavesOrJoins(b), Address(b), LastSaid(chain, LeavesOrJoins, Address))
            && LastSaid(more, LeavesOrJoins, Country) == Said(LeavesOrJoins(b), Country(b), LastSaid(chain, LeavesOrJoins, Country))
  {
    SaidMore(chain, b, Leaves, JoinDate);
    SaidMore(chain, b, Leaves, Device);
    SaidMore(chain, b, Leaves, Offer);
    SaidMore(chain, b, Leaves, StoredBytes);
    SaidMore(chain, b, LeavesOrJoins, Address);
    SaidMore(chain, b, LeavesOrJoins, Country);
  }

  function Said<T>(back: bool, now: Option<T>, before: Option<T>): Option<T> {
    if back then None else if now.Some? then now else before
  }

  lemma JoinShows(chain: seq<Block>, p: Option<Provider>, b: Block)
    requires ShowsAll(chain, p) && FitsProfile(p, b) && (b.kind.StorageRegister? || b.kind.StorageDeregister?)
    ensures ShowsAll(chain + [b], ProviderAfter(p, b))
  {
    SaidAll(chain, b);
  }

  lemma BeatShows(chain: seq<Block>, p: Option<Provider>, b: Block)
    requires ShowsAll(chain, p) && FitsProfile(p, b) && b.kind.StorageHeartbeat?
    ensures ShowsAll(chain + [b], ProviderAfter(p, b))
  {
    SaidAll(chain, b);
  }

  lemma OtherShows(chain: seq<Block>, p: Option<Provider>, b: Block)
    requires ShowsAll(chain, p) && FitsProfile(p, b)
    requires !b.kind.StorageRegister? && !b.kind.StorageDeregister? && !b.kind.StorageHeartbeat?
    ensures ShowsAll(chain + [b], ProviderAfter(p, b))
  {
    SaidAll(chain, b);
  }

  lemma ShowsMore(chain: seq<Block>, p: Option<Provider>, b: Block)
    requires ShowsAll(chain, p) && FitsProfile(p, b)
    ensures ShowsAll(chain + [b], ProviderAfter(p, b))
  {
    if b.kind.StorageRegister? || b.kind.StorageDeregister? {
      JoinShows(chain, p, b);
    } else if b.kind.StorageHeartbeat? {
      BeatShows(chain, p, b);
    } else {
      OtherShows(chain, p, b);
    }
  }

  lemma AcceptedShows(env: Env, s: Ledger, b: Block, now: int)
    requires ProvidersReplayed(s) && HeartbeatsReplayed(s) && Judge(env, s, b, now).Accepted?
    requires ShowsAll(Chain(s, b.accountPub), ProviderOf(Chain(s, b.accountPub)))
    ensures ShowsAll(Chain(s, b.accountPub) + [b], ProviderOf(Chain(s, b.accountPub) + [b]))
  {
    AcceptedFits(env, s, b, now);
    ReplayOneMore(Chain(s, b.accountPub), b);
    ShowsMore(Chain(s, b.accountPub), ProviderOf(Chain(s, b.accountPub)), b);
  }

  lemma StepShows(env: Env, s: Ledger, e: Event, p: Pub)
    requires ProvidersReplayed(s) && HeartbeatsReplayed(s) && ShowsAll(Chain(s, p), ProviderOf(Chain(s, p)))
    ensures ShowsAll(Chain(LedgerStep(env, s, e), p), ProviderOf(Chain(LedgerStep(env, s, e), p)))
  {
    if e.Submit? && Judge(env, s, e.block, e.now).Accepted? && e.block.accountPub == p {
      AcceptedShows(env, s, e.block, e.now);
      assert Chain(LedgerStep(env, s, e), p) == Chain(s, p) + [e.block];
    } else {
      assert Chain(LedgerStep(env, s, e), p) == Chain(s, p);
    }
  }

  // In every append-only run, forks included, each profile shows what its account's chain says.
  lemma {:induction false} ProfilesShowChains(env: Env, es: seq<Event>, p: Pub)
    requires AppendOnly(env, es)
    ensures var s := Run(env, es).ledger; ShowsAll(Chain(s, p), Lookup(s.providers, p))
  {
    AppendOnlyConsistent(env, es);
    assert Lookup(Run(env, es).ledger.providers, p) == ProviderOf(Chain(Run(env, es).ledger, p));
    if es != [] {
      var s := Run(env, es[..|es| - 1]).ledger;
      LastStep(env, es);
      ProfilesShowChains(env, es[..|es| - 1], p);
      AppendOnlyConsistent(env, es[..|es| - 1]);
      assert Lookup(s.providers, p) == ProviderOf(Chain(s, p));
      StepShows(env, s, es[|es| - 1], p);
    }
  }
}
