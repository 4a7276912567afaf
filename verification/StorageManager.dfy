// src/network/storage-manager.ts: choosing storage providers round-robin over countries.
module StorageManager {
  import opened Basics
  import opened DagBlock

  datatype StorageProvider = StorageProvider(
    pub: Pub, deviceId: string, capacityGB: real, lastHeartbeat: int, score: real, countryCode: Option<string>)

  function Country(p: StorageProvider): string {
    p.countryCode.GetOr("__")
  }

  // Remote providers that are not stale; right after the start nobody counts as stale.
  predicate Eligible(p: StorageProvider, localDeviceId: string, inWarmup: bool, now: int) {
    && !(p.deviceId != "" && p.deviceId == localDeviceId)
    && !(!inWarmup && p.lastHeartbeat > 0 && now - p.lastHeartbeat > REWARD_EPOCH_MS)
  }

  function Candidates(all: seq<StorageProvider>, localDeviceId: string, inWarmup: bool, now: int): seq<StorageProvider> {
    if all == [] then []
    else
      var rest := Candidates(all[..|all| - 1], localDeviceId, inWarmup, now);
      var p := all[|all| - 1];
      if Eligible(p, localDeviceId, inWarmup, now) then rest + [p] else rest
  }

  // The providers come from a map keyed by public key.
  ghost predicate DistinctPubs(ps: seq<StorageProvider>) {
    forall i, j :: 0 <= i < j < |ps| ==> ps[i].pub != ps[j].pub
  }

  ghost function From(ps: seq<StorageProvider>, country: string): set<StorageProvider> {
    set p | p in ps && Country(p) == country
  }

  ghost function Picks(ps: seq<StorageProvider>, country: string): nat {
    |From(ps, country)|
  }

  ghost function Countries(ps: seq<StorageProvider>): set<string> {
    set p | p in ps :: Country(p)
  }

  ghost function Pubs(ps: seq<StorageProvider>): set<Pub> {
    set p | p in ps :: p.pub
  }

  // No country is two or more picks ahead of a country that still has a provider to give.
  ghost predicate Fair(candidates: seq<StorageProvider>, selected: seq<StorageProvider>) {
    forall a, b :: a in Countries(candidates) && b in Countries(candidates) && Picks(selected, a) >= Picks(selected, b) + 2 ==>
      Picks(selected, b) == Picks(candidates, b)
  }

  // ----- Counting ------------------------------------------------------------------------------

  lemma {:induction false} DistinctCount(ps: seq<StorageProvider>)
    requires DistinctPubs(ps)
    ensures |Elements(ps)| == |ps|
  {
    if ps != [] {
      var init, p := ps[..|ps| - 1], ps[|ps| - 1];
      DistinctCount(init);
      assert Elements(ps) == Elements(init) + {p};
      assert p !in init;
    }
  }

  lemma SubsetCount<T>(a: set<T>, b: set<T>)
    requires a <= b
    ensures |a| <= |b|
    ensures |a| == |b| ==> a == b
  {
    assert b == a + (b - a);
  }

  lemma PicksBelow(candidates: seq<StorageProvider>, selected: seq<StorageProvider>, country: string)
    requires forall p :: p in selected ==> p in candidates
    ensures Picks(selected, country) <= Picks(candidates, country)
    ensures Picks(selected, country) == Picks(candidates, country) ==> From(selected, country) == From(candidates, country)
  {
    SubsetCount(From(selected, country), From(candidates, country));
  }

  lemma OneMorePick(selected: seq<StorageProvider>, p: StorageProvider, country: string)
    requires p !in selected
    ensures Picks(selected + [p], country) == Picks(selected, country) + if Country(p) == country then 1 else 0
  {
    if Country(p) == country {
      assert From(selected + [p], country) == From(selected, country) + {p};
    } else {
      assert From(selected + [p], country) == From(selected, country);
    }
  }

  // When every country is exhausted, everybody has been selected.
  lemma AllSelected(candidates: seq<StorageProvider>, selected: seq<StorageProvider>)
    requires DistinctPubs(candidates) && DistinctPubs(selected) && forall p :: p in selected ==> p in candidates
    requires forall c :: c in Countries(candidates) ==> Picks(selected, c) == Picks(candidates, c)
    ensures |selected| == |candidates|
  {
    forall p | p in candidates
      ensures p in selected
    {
      PicksBelow(candidates, selected, Country(p));
      assert p in From(candidates, Country(p));
    }
    DistinctCount(candidates);
    DistinctCount(selected);
    assert Elements(candidates) == Elements(selected);
  }

  // ----- The deal ------------------------------------------------------------------------------

  // After r full rounds and the first j countries of the next, each country has given one provider a round, or all it has.
  ghost predicate Dealt(candidates: seq<StorageProvider>, order: seq<string>, selected: seq<StorageProvider>, r: nat, j: nat) {
    forall i :: 0 <= i < |order| ==>
      Picks(selected, order[i]) == Min(if i < j then r + 1 else r, Picks(candidates, order[i]))
  }

  // In the first round one provider comes from each country dealt so far.
  ghost predicate FirstRound(order: seq<string>, selected: seq<StorageProvider>, r: nat, j: nat) {
    r == 0 ==> j <= |order| && |selected| == j && Countries(selected) == Elements(order[..j])
  }

  ghost predicate Chosen(candidates: seq<StorageProvider>, selected: seq<StorageProvider>) {
    DistinctPubs(selected) && forall p :: p in selected ==> p in candidates
  }

  // The countries of the candidates, each once.
  ghost predicate ListsCountries(candidates: seq<StorageProvider>, order: seq<string>) {
    && (forall i, j :: 0 <= i < j < |order| ==> order[i] != order[j])
    && Elements(order) == Countries(candidates)
  }

  lemma {:induction false} DistinctCountries(order: seq<string>)
    requires forall i, j :: 0 <= i < j < |order| ==> order[i] != order[j]
    ensures |Elements(order)| == |order|
  {
    if order != [] {
      DistinctCountries(order[..|order| - 1]);
      assert Elements(order) == Elements(order[..|order| - 1]) + {order[|order| - 1]};
    }
  }

  lemma PresentCountry(candidates: seq<StorageProvider>, country: string)
    requires country in Countries(candidates)
    ensures Picks(candidates, country) > 0
  {
    var p :| p in candidates && Country(p) == country;
    assert p in From(candidates, country);
  }

  lemma DealIsFair(candidates: seq<StorageProvider>, order: seq<string>, selected: seq<StorageProvider>, r: nat, j: nat)
    requires ListsCountries(candidates, order) && Dealt(candidates, order, selected, r, j)
    ensures Fair(candidates, selected)
  {
  }

  // The selection covers as many countries as it can.
  lemma DealCoversCountries(candidates: seq<StorageProvider>, order: seq<string>, selected: seq<StorageProvider>, r: nat, j: nat)
    requires ListsCountries(candidates, order) && Dealt(candidates, order, selected, r, j) && FirstRound(order, selected, r, j)
    requires Chosen(candidates, selected)
    ensures |Countries(selected)| == Min(|selected|, |Countries(candidates)|)
  {
    DistinctCountries(order);
    if r == 0 {
      DistinctCountries(order[..j]);
      assert forall a, b :: 0 <= a < b < j ==> order[..j][a] == order[a] && order[..j][b] == order[b];
    } else {
      forall c | c in Countries(candidates)
        ensures c in Countries(selected)
      {
        assert c in Elements(order);
        var i :| 0 <= i < |order| && order[i] == c;
        PresentCountry(candidates, c);
        assert Picks(selected, c) > 0;
        var p :| p in From(selected, c);
      }
      assert Countries(selected) == Countries(candidates);
      CountriesAtMost(selected);
    }
  }

  lemma {:induction false} CountriesAtMost(ps: seq<StorageProvider>)
    ensures |Countries(ps)| <= |ps|
  {
    if ps != [] {
      CountriesAtMost(ps[..|ps| - 1]);
      assert Countries(ps) == Countries(ps[..|ps| - 1]) + {Country(ps[|ps| - 1])};
    }
  }

  lemma {:induction false} CandidatesAreEligible(all: seq<StorageProvider>, localDeviceId: string, inWarmup: bool, now: int)
    requires DistinctPubs(all)
    ensures var cs := Candidates(all, localDeviceId, inWarmup, now);
            && DistinctPubs(cs)
            && forall p :: p in cs <==>
                 && p in all && (p.deviceId == "" || p.deviceId != localDeviceId)
                 && (inWarmup || p.lastHeartbeat <= 0 || now - p.lastHeartbeat <= 86_400_000)
  {
    if all != [] {
      var init := all[..|all| - 1];
      CandidatesAreEligible(init, localDeviceId, inWarmup, now);
      assert all == init + [all[|all| - 1]];
      assert forall p :: p in init ==> p.pub != all[|all| - 1].pub;
    }
  }

  // One pick extends the deal by one country.
  lemma DealtOneMore(candidates: seq<StorageProvider>, order: seq<string>, selected: seq<StorageProvider>, r: nat, j: nat,
                     picked: Option<StorageProvider>)
    requires ListsCountries(candidates, order) && Dealt(candidates, order, selected, r, j) && j < |order|
    requires Chosen(candidates, selected) && FirstRound(order, selected, r, j)
    requires picked.None? ==> forall p :: p in From(candidates, order[j]) ==> p.pub in Pubs(selected)
    requires picked.Some? ==> picked.value in From(candidates, order[j]) && picked.value.pub !in Pubs(selected)
    requires forall p, q :: p in candidates && q in candidates && p.pub == q.pub ==> p == q
    ensures var after := selected + if picked.Some? then [picked.value] else [];
            && Dealt(candidates, order, after, r, j + 1) && Chosen(candidates, after) && FirstRound(order, after, r, j + 1)
    ensures picked.None? ==> Picks(selected, order[j]) == Picks(candidates, order[j])
  {
    PicksBelow(candidates, selected, order[j]);
    if picked.None? {
      assert From(selected, order[j]) == From(candidates, order[j]);
      assert selected + [] == selected;
      assert order[j] in Elements(order);
      PresentCountry(candidates, order[j]);
    } else {
      var p := picked.value;
      forall i | 0 <= i < |order|
        ensures Picks(selected + [p], order[i]) == Picks(selected, order[i]) + if i == j then 1 else 0
      {
        OneMorePick(selected, p, order[i]);
      }
      assert p !in From(selected, order[j]) && p in From(candidates, order[j]);
      assert Countries(selected + [p]) == Countries(selected) + {order[j]};
      assert order[..j + 1] == order[..j] + [order[j]];
    }
  }

  ghost predicate GroupsOf(candidates: seq<StorageProvider>, order: seq<string>, byCountry: map<string, seq<StorageProvider>>) {
    && ListsCountries(candidates, order) && byCountry.Keys == Elements(order)
    && (forall c :: c in byCountry ==> Elements(byCountry[c]) == From(candidates, c))
  }

  lemma NewCountry(candidates: seq<StorageProvider>, p: StorageProvider, order: seq<string>)
    requires ListsCountries(candidates, order)
    ensures ListsCountries(candidates + [p], if Country(p) in order then order else order + [Country(p)])
  {
    assert Countries(candidates + [p]) == Countries(candidates) + {Country(p)};
    assert Elements(order + [Country(p)]) == Elements(order) + {Country(p)};
    assert Country(p) in order <==> Country(p) in Elements(order);
  }

  lemma FromGrows(candidates: seq<StorageProvider>, p: StorageProvider, c: string)
    ensures From(candidates + [p], c) == From(candidates, c) + if c == Country(p) then {p} else {}
  {
  }

  lemma NoCandidateFrom(candidates: seq<StorageProvider>, c: string)
    requires c !in Countries(candidates)
    ensures From(candidates, c) == {}
  {
  }

  lemma ElementsGrow<T>(xs: seq<T>, x: T)
    ensures Elements(xs + [x]) == Elements(xs) + {x}
    ensures x in xs <==> x in Elements(xs)
  {
  }

  lemma GroupGrows(candidates: seq<StorageProvider>, p: StorageProvider, order: seq<string>, byCountry: map<string, seq<StorageProvider>>)
    requires GroupsOf(candidates, order, byCountry)
    ensures var cc := Country(p);
            GroupsOf(candidates + [p], if cc in byCountry then order else order + [cc],
                     byCountry[cc := Lookup(byCountry, cc).GetOr([]) + [p]])
  {
    var cc := Country(p);
    var group := Lookup(byCountry, cc).GetOr([]);
    var after := byCountry[cc := group + [p]];
    NewCountry(candidates, p, order);
    ElementsGrow(order, cc);
    if cc !in byCountry {
      NoCandidateFrom(candidates, cc);
    }
    forall c | c in after
      ensures Elements(after[c]) == From(candidates + [p], c)
    {
      GroupAfter(candidates, p, if c == cc then group else byCountry[c], c);
    }
    assert after.Keys == byCountry.Keys + {cc};
  }

  lemma GroupAfter(candidates: seq<StorageProvider>, p: StorageProvider, group: seq<StorageProvider>, c: string)
    requires Elements(group) == From(candidates, c)
    ensures Elements(if c == Country(p) then group + [p] else group) == From(candidates + [p], c)
  {
    FromGrows(candidates, p, c);
    ElementsGrow(group, p);
  }

  lemma InItsGroup(candidates: seq<StorageProvider>, order: seq<string>, byCountry: map<string, seq<StorageProvider>>, p: StorageProvider)
    requires GroupsOf(candidates, order, byCountry) && p in candidates
    ensures Country(p) in byCountry && p in byCountry[Country(p)]
  {
    assert Country(p) in Countries(candidates) && Countries(candidates) == byCountry.Keys;
    assert p in From(candidates, Country(p));
    assert p in Elements(byCountry[Country(p)]);
  }

  method GroupByCountry(candidates: seq<StorageProvider>) returns (order: seq<string>, byCountry: map<string, seq<StorageProvider>>)
    ensures GroupsOf(candidates, order, byCountry)
    ensures forall p :: p in candidates ==>
              var cc := if p.countryCode.Some? then p.countryCode.value else "__"; cc in byCountry && p in byCountry[cc]
  {
    order, byCountry := [], map[];
    for i := 0 to |candidates|
      invariant GroupsOf(candidates[..i], order, byCountry)
    {
      var p := candidates[i];
      var cc := Country(p);
      assert candidates[..i + 1] == candidates[..i] + [p];
      GroupGrows(candidates[..i], p, order, byCountry);
      var group := if cc in byCountry then byCountry[cc] else [];
      if cc !in byCountry { order := order + [cc]; }
      byCountry := byCountry[cc := group + [p]];
    }
    assert candidates[..|candidates|] == candidates;
    forall p | p in candidates
      ensures Country(p) in byCountry && p in byCountry[Country(p)]
    {
      InItsGroup(candidates, order, byCountry, p);
    }
  }

  // The providers of a group not used yet, in order.
  function Unused(group: seq<StorageProvider>, usedPubs: set<Pub>): seq<StorageProvider> {
    if group == [] then []
    else Unused(group[..|group| - 1], usedPubs) + if group[|group| - 1].pub in usedPubs then [] else [group[|group| - 1]]
  }

  lemma {:induction false} UnusedAre(group: seq<StorageProvider>, usedPubs: set<Pub>)
    ensures forall p :: p in Unused(group, usedPubs) <==> p in group && p.pub !in usedPubs
  {
    if group != [] {
      UnusedAre(group[..|group| - 1], usedPubs);
      assert group == group[..|group| - 1] + [group[|group| - 1]];
    }
  }

  // The lesser of the capacity and 100, times the greater of the score and 0.1, and at least 0.01.
  function Share(p: StorageProvider): real {
    var capacity := if p.capacityGB <= 100.0 then p.capacityGB else 100.0;
    var score := if p.score >= 0.1 then p.score else 0.1;
    if capacity * score >= 0.01 then capacity * score else 0.01
  }

  function Shares(pool: seq<StorageProvider>): (weights: seq<real>)
    ensures |weights| == |pool| && forall i :: 0 <= i < |pool| ==> weights[i] >= 0.01
  {
    seq(|pool|, i requires 0 <= i < |pool| => Share(pool[i]))
  }

  function Total(weights: seq<real>): real {
    if weights == [] then 0.0 else Total(weights[..|weights| - 1]) + weights[|weights| - 1]
  }

  // The i-th is picked when the share drawn falls into its own, or beyond the whole for the last one.
  predicate PicksAt(weights: seq<real>, drawn: real, i: nat) {
    && i < |weights| && (i > 0 ==> Total(weights[..i]) < drawn)
    && (drawn <= Total(weights[..i + 1]) || i == |weights| - 1)
  }

  lemma {:induction false} TotalGrows(weights: seq<real>, i: nat)
    requires i < |weights|
    ensures Total(weights[..i + 1]) == Total(weights[..i]) + weights[i]
  {
    assert weights[..i + 1][..i] == weights[..i];
  }

  lemma {:induction false} TotalAscends(weights: seq<real>, i: nat, j: nat)
    requires i <= j <= |weights| && forall k :: 0 <= k < |weights| ==> weights[k] >= 0.0
    ensures Total(weights[..i]) <= Total(weights[..j])
  {
    if i < j {
      TotalAscends(weights, i, j - 1);
      TotalGrows(weights, j - 1);
    }
  }

  function Drawn(weights: seq<real>, random: real): real {
    random * Total(weights)
  }

  // A random fraction of the whole falls into exactly one share: the chances are as the shares.
  lemma PickedOnce(weights: seq<real>, random: real, i: nat)
    requires 0.0 <= random < 1.0 && PicksAt(weights, Drawn(weights, random), i)
    requires forall k :: 0 <= k < |weights| ==> weights[k] >= 0.0
    ensures Drawn(weights, random) <= Total(weights[..i + 1])
    ensures forall j: nat :: PicksAt(weights, Drawn(weights, random), j) ==> j == i
  {
    WholeIsReached(weights, random);
    forall j: nat | PicksAt(weights, Drawn(weights, random), j)
      ensures j == i
    {
      DrawnOnce(weights, Drawn(weights, random), i, j);
    }
  }

  lemma DrawnOnce(weights: seq<real>, drawn: real, i: nat, j: nat)
    requires drawn <= Total(weights) && PicksAt(weights, drawn, i) && PicksAt(weights, drawn, j)
    requires forall k :: 0 <= k < |weights| ==> weights[k] >= 0.0
    ensures i == j
  {
    assert weights[..|weights|] == weights;
    if j < i {
      TotalAscends(weights, j + 1, i);
    } else if i < j {
      TotalAscends(weights, i + 1, j);
    }
  }

  lemma WholeIsReached(weights: seq<real>, random: real)
    requires random < 1.0 && weights != [] && forall k :: 0 <= k < |weights| ==> weights[k] >= 0.0
    ensures Drawn(weights, random) <= Total(weights) && weights[..|weights|] == weights
  {
    assert weights[..|weights|] == weights;
    TotalAscends(weights, 0, |weights|);
    ScaleDown(Total(weights), random);
    assert Drawn(weights, random) == Total(weights) * random;
  }

  lemma ScaleDown(x: real, u: real)
    requires x >= 0.0 && u <= 1.0
    ensures x * u <= x
  {
    assert x * (1.0 - u) >= 0.0;
  }

  // A weighted random pick among the providers of a group not used yet; `random` is any value in [0, 1).
  method PickWeighted(group: seq<StorageProvider>, usedPubs: set<Pub>, random: real) returns (picked: Option<StorageProvider>)
    requires 0.0 <= random < 1.0
    ensures picked.None? <==> forall p :: p in group ==> p.pub in usedPubs
    ensures picked.Some? ==> picked.value in group && picked.value.pub !in usedPubs
    ensures picked.Some? ==>
              var pool := Unused(group, usedPubs);
              exists i: nat :: PicksAt(Shares(pool), Drawn(Shares(pool), random), i) && picked == Some(pool[i])
  {
    var pool: seq<StorageProvider> := [];
    for i := 0 to |group|
      invariant pool == Unused(group[..i], usedPubs)
    {
      assert group[..i + 1][..i] == group[..i];
      if group[i].pub !in usedPubs { pool := pool + [group[i]]; }
    }
    assert group[..|group|] == group;
    UnusedAre(group, usedPubs);
    if pool == [] { return None; }
    assert forall i :: 0 <= i < |pool| ==> pool[i] in pool;
    var weights := Weights(pool);
    WeightsAreShares(pool);
    var i := DrawFrom(weights, random);
    picked := Some(pool[i]);
    assert PicksAt(Shares(Unused(group, usedPubs)), Drawn(Shares(Unused(group, usedPubs)), random), i);
  }

  // The draw from the weights.
  method DrawFrom(weights: seq<real>, random: real) returns (i: nat)
    requires weights != []
    ensures PicksAt(weights, Drawn(weights, random), i)
  {
    var total := 0.0;
    for k := 0 to |weights|
      invariant total == Total(weights[..k])
    {
      TotalGrows(weights, k);
      total := total + weights[k];
    }
    assert weights[..|weights|] == weights;
    i := Subtract(weights, random * total);
  }

  // The weights are subtracted in turn until nothing is left.
  method Subtract(weights: seq<real>, drawn: real) returns (i: nat)
    requires weights != []
    ensures PicksAt(weights, drawn, i)
  {
    var r := drawn;
    for k := 0 to |weights|
      invariant r == drawn - Total(weights[..k]) && (k > 0 ==> r > 0.0)
      invariant k > 1 ==> Total(weights[..k - 1]) < drawn
    {
      TotalGrows(weights, k);
      r := r - weights[k];
      if r <= 0.0 { return k; }
    }
    TotalBefore(weights, drawn);
    return |weights| - 1;
  }

  lemma TotalBefore(weights: seq<real>, drawn: real)
    requires weights != [] && (|weights| > 1 ==> Total(weights[..|weights| - 1]) < drawn)
    ensures PicksAt(weights, drawn, |weights| - 1)
  {
  }

  function Weight(p: StorageProvider): real {
    MaxReal(0.01, MinReal(p.capacityGB, 100.0) * MaxReal(0.1, p.score))
  }

  function Weights(pool: seq<StorageProvider>): seq<real> {
    seq(|pool|, i requires 0 <= i < |pool| => Weight(pool[i]))
  }

  lemma WeightsAreShares(pool: seq<StorageProvider>)
    ensures Weights(pool) == Shares(pool)
  {
    forall i | 0 <= i < |pool|
      ensures Weight(pool[i]) == Share(pool[i])
    {
      WeightIsShare(pool[i]);
    }
  }

  lemma WeightIsShare(p: StorageProvider)
    ensures Weight(p) == Share(p)
  {
    var capacity, score := MinReal(p.capacityGB, 100.0), MaxReal(0.1, p.score);
    assert capacity == if p.capacityGB <= 100.0 then p.capacityGB else 100.0;
    assert score == if p.score >= 0.1 then p.score else 0.1;
    assert Weight(p) == MaxReal(0.01, capacity * score);
    assert Share(p) == if capacity * score >= 0.01 then capacity * score else 0.01;
  }

  // The whole state of a deal.
  ghost predicate Deal(candidates: seq<StorageProvider>, order: seq<string>, selected: seq<StorageProvider>, r: nat, j: nat) {
    Chosen(candidates, selected) && Dealt(candidates, order, selected, r, j) && FirstRound(order, selected, r, j)
  }

  ghost predicate Grouped(candidates: seq<StorageProvider>, order: seq<string>, byCountry: map<string, seq<StorageProvider>>) {
    && GroupsOf(candidates, order, byCountry)
    && (forall p, q :: p in candidates && q in candidates && p.pub == q.pub ==> p == q)
  }

  ghost predicate AllExhausted(candidates: seq<StorageProvider>, order: seq<string>, selected: seq<StorageProvider>, j: nat) {
    forall k :: 0 <= k < j && k < |order| ==> Picks(selected, order[k]) == Picks(candidates, order[k])
  }

  // One country's turn.
  method DealCountry(ghost candidates: seq<StorageProvider>, order: seq<string>, byCountry: map<string, seq<StorageProvider>>,
                     selected: seq<StorageProvider>, usedPubs: set<Pub>, ghost r: nat, i: nat)
    returns (picked: Option<StorageProvider>)
    requires Grouped(candidates, order, byCountry) && i < |order| && Deal(candidates, order, selected, r, i) && usedPubs == Pubs(selected)
    ensures picked.None? ==> Deal(candidates, order, selected, r, i + 1) && Picks(selected, order[i]) == Picks(candidates, order[i])
    ensures picked.Some? ==> Deal(candidates, order, selected + [picked.value], r, i + 1)
  {
    var random: real :| 0.0 <= random < 1.0;
    assert order[i] in Elements(order);
    var group := byCountry[order[i]];
    picked := PickWeighted(group, usedPubs, random);
    assert forall p :: p in From(candidates, order[i]) <==> p in group by {
      assert Elements(group) == From(candidates, order[i]) && forall p :: p in group <==> p in Elements(group);
    }
    DealtOneMore(candidates, order, selected, r, i, picked);
    assert selected + [] == selected;
  }

  lemma PubsGrow(ps: seq<StorageProvider>, p: StorageProvider)
    ensures Pubs(ps + [p]) == Pubs(ps) + {p.pub}
  {
  }

  // One round: one pick per country, until enough are selected.
  method DealRound(ghost candidates: seq<StorageProvider>, order: seq<string>, byCountry: map<string, seq<StorageProvider>>,
                   before: seq<StorageProvider>, usedBefore: set<Pub>, take: int, ghost r: nat)
    returns (selected: seq<StorageProvider>, usedPubs: set<Pub>, addedThisRound: nat, ghost j: nat)
    requires Grouped(candidates, order, byCountry) && Deal(candidates, order, before, r, 0) && usedBefore == Pubs(before)
    requires |before| < take
    ensures Deal(candidates, order, selected, r, j) && usedPubs == Pubs(selected)
    ensures |selected| == |before| + addedThisRound <= take && (|selected| < take ==> j == |order|)
    ensures addedThisRound == 0 ==> AllExhausted(candidates, order, selected, |order|)
  {
    selected, usedPubs, addedThisRound, j := before, usedBefore, 0, 0;
    for i := 0 to |order|
      invariant j == i && |selected| == |before| + addedThisRound <= take
      invariant Deal(candidates, order, selected, r, j) && usedPubs == Pubs(selected)
      invariant addedThisRound == 0 ==> AllExhausted(candidates, order, selected, i)
    {
      if |selected| >= take { break; }
      var picked := DealCountry(candidates, order, byCountry, selected, usedPubs, r, i);
      j := j + 1;
      if picked.Some? {
        PubsGrow(selected, picked.value);
        selected := selected + [picked.value];
        usedPubs := usedPubs + {picked.value.pub};
        addedThisRound := addedThisRound + 1;
      }
    }
  }

  // For every outcome of the random picks: exactly min(count, candidates) distinct candidates, from as many countries
  // as possible, dealt fairly.
  method SelectProviders(all: seq<StorageProvider>, count: int, localDeviceId: string, startedAt: int, now: int)
    returns (selected: seq<StorageProvider>)
    requires DistinctPubs(all)
    ensures var inWarmup := startedAt > 0 && now - startedAt < 14_400_000;
            var candidates := Candidates(all, localDeviceId, inWarmup, now);
            && |selected| == Max(0, Min(count, |candidates|)) && Chosen(candidates, selected)
            && |Countries(selected)| == Min(|selected|, |Countries(candidates)|) && Fair(candidates, selected)
  {
    var inWarmup := startedAt > 0 && now - startedAt < HEARTBEAT_INTERVAL_MS;
    var candidates := Candidates(all, localDeviceId, inWarmup, now);
    CandidatesAreEligible(all, localDeviceId, inWarmup, now);
    if candidates == [] { return []; }
    var order, byCountry := GroupByCountry(candidates);
    selected := DealAll(candidates, order, byCountry, Min(count, |candidates|));
  }

  // Round after round, until enough are selected.
  method DealAll(ghost candidates: seq<StorageProvider>, order: seq<string>, byCountry: map<string, seq<StorageProvider>>, take: int)
    returns (selected: seq<StorageProvider>)
    requires DistinctPubs(candidates) && GroupsOf(candidates, order, byCountry) && take <= |candidates|
    ensures |selected| == Max(0, take) && Chosen(candidates, selected)
    ensures |Countries(selected)| == Min(|selected|, |Countries(candidates)|) && Fair(candidates, selected)
  {
    selected := [];
    var usedPubs: set<Pub> := {};
    StartDeal(candidates, order, byCountry);
    ghost var r, j := 0, 0;
    while |selected| < take
      invariant |selected| <= Max(0, take) && usedPubs == Pubs(selected) && Deal(candidates, order, selected, r, j)
      invariant |selected| < take ==> j == 0
      decreases take - |selected|
    {
      var addedThisRound;
      selected, usedPubs, addedThisRound, j := DealRound(candidates, order, byCountry, selected, usedPubs, take, r);
      if addedThisRound == 0 {
        Exhausted(candidates, order, byCountry, selected, r, j);
        break;
      }
      if |selected| < take {
        NextRound(candidates, order, selected, r);
        r, j := r + 1, 0;
      }
    }
    DealDone(candidates, order, byCountry, selected, r, j);
  }

  lemma StartDeal(candidates: seq<StorageProvider>, order: seq<string>, byCountry: map<string, seq<StorageProvider>>)
    requires DistinctPubs(candidates) && GroupsOf(candidates, order, byCountry)
    ensures Grouped(candidates, order, byCountry) && Deal(candidates, order, [], 0, 0)
  {
  }

  lemma NextRound(candidates: seq<StorageProvider>, order: seq<string>, selected: seq<StorageProvider>, r: nat)
    requires Deal(candidates, order, selected, r, |order|)
    ensures Deal(candidates, order, selected, r + 1, 0)
  {
  }

  lemma DealDone(candidates: seq<StorageProvider>, order: seq<string>, byCountry: map<string, seq<StorageProvider>>,
                 selected: seq<StorageProvider>, r: nat, j: nat)
    requires Grouped(candidates, order, byCountry) && Deal(candidates, order, selected, r, j)
    ensures Chosen(candidates, selected) && Fair(candidates, selected)
    ensures |Countries(selected)| == Min(|selected|, |Countries(candidates)|)
  {
    DealIsFair(candidates, order, selected, r, j);
    DealCoversCountries(candidates, order, selected, r, j);
  }

  lemma Exhausted(candidates: seq<StorageProvider>, order: seq<string>, byCountry: map<string, seq<StorageProvider>>,
                  selected: seq<StorageProvider>, r: nat, j: nat)
    requires DistinctPubs(candidates) && Grouped(candidates, order, byCountry) && Deal(candidates, order, selected, r, j)
    requires AllExhausted(candidates, order, selected, |order|)
    ensures |selected| == |candidates|
  {
    forall c | c in Countries(candidates)
      ensures Picks(selected, c) == Picks(candidates, c)
    {
      assert c in Elements(order);
    }
    AllSelected(candidates, selected);
  }
}
