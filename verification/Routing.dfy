/** How a model name is turned into an ordered list of candidate providers (internal/middleware/router.go). */
module Routing {
  import opened Failover
  import opened Sums
  import opened Text

  datatype Provider = Provider(
    name: string, baseURL: string, apiKey: string, models: seq<string>,
    priority: int, maxRetries: int, healthCheckPath: string)

  function Route(p: Provider): ProviderRoute {
    ProviderRoute(p.name, p.baseURL, p.apiKey, p.priority, p.maxRetries, p.healthCheckPath)
  }

  predicate Before(a: ProviderRoute, b: ProviderRoute) {
    if a.priority == b.priority then Less(a.name, b.name) else a.priority < b.priority
  }

  /** The providers that list the model, in configuration order. */
  function Matching(ps: seq<Provider>, model: string): seq<ProviderRoute> {
    if ps == [] then []
    else
      var n := |ps| - 1;
      Matching(ps[..n], model) + if model in ps[n].models then [Route(ps[n])] else []
  }

  /** Puts a route after those that are not after it, as a stable sort must. */
  function Insert(rs: seq<ProviderRoute>, r: ProviderRoute): (out: seq<ProviderRoute>)
    ensures |out| == |rs| + 1
  {
    if rs == [] then [r]
    else if Before(r, rs[|rs| - 1]) then Insert(rs[..|rs| - 1], r) + [rs[|rs| - 1]]
    else rs + [r]
  }

  /** The library's stable sort. */
  function StableSort(rs: seq<ProviderRoute>): seq<ProviderRoute> {
    if rs == [] then [] else Insert(StableSort(rs[..|rs| - 1]), rs[|rs| - 1])
  }

  method MatchProviders(configured: seq<Provider>, targetModel: string) returns (providers: seq<ProviderRoute>)
    ensures providers == StableSort(Matching(configured, targetModel))
    ensures forall i, j :: 0 <= i < j < |providers| ==>
      || providers[i].priority < providers[j].priority
      || (providers[i].priority == providers[j].priority
          && (Less(providers[i].name, providers[j].name) || providers[i].name == providers[j].name))
  {
    providers := [];
    for i := 0 to |configured|
      invariant providers == Matching(configured[..i], targetModel)
    {
      var provider := configured[i];
      ghost var before := providers;
      for j := 0 to |provider.models|
        invariant providers == before && targetModel !in provider.models[..j]
      {
        if provider.models[j] != targetModel {
          continue;
        }
        providers := providers + [Route(provider)];
        break;
      }
      assert configured[..i + 1][..i] == configured[..i];
    }
    assert configured[..|configured|] == configured;
    providers := StableSort(providers);
    SortRanks(Matching(configured, targetModel));
  }

  // ---- the order of preference ----

  /** No route comes after one of a greater priority number, or of the same and a greater name. */
  predicate Ranked(rs: seq<ProviderRoute>) {
    forall i, j :: 0 <= i < j < |rs| ==> Ranks(rs[i], rs[j])
  }

  predicate Ranks(a: ProviderRoute, b: ProviderRoute) {
    a.priority < b.priority || (a.priority == b.priority && (Less(a.name, b.name) || a.name == b.name))
  }

  lemma RanksUnless(a: ProviderRoute, b: ProviderRoute)
    ensures if Before(b, a) then Ranks(b, a) else Ranks(a, b)
  {
    LessTotal(a.name, b.name);
  }

  lemma RanksTransitive(a: ProviderRoute, b: ProviderRoute, c: ProviderRoute)
    requires Ranks(a, b) && Ranks(b, c)
    ensures Ranks(a, c)
  {
    if Less(a.name, b.name) && Less(b.name, c.name) {
      LessTransitive(a.name, b.name, c.name);
    }
  }

  lemma {:induction false} InsertRanks(rs: seq<ProviderRoute>, r: ProviderRoute)
    requires Ranked(rs)
    ensures Ranked(Insert(rs, r))
  {
    if rs == [] {
    } else {
      var n := |rs| - 1;
      RanksUnless(rs[n], r);
      if Before(r, rs[n]) {
        InsertRanks(rs[..n], r);
        InsertedIn(rs[..n], r);
        RankedMore(Insert(rs[..n], r), rs[n]);
      } else {
        forall i | 0 <= i < n
          ensures Ranks(rs[i], r)
        {
          RanksTransitive(rs[i], rs[n], r);
        }
        RankedMore(rs, r);
      }
    }
  }

  lemma RankedMore(rs: seq<ProviderRoute>, r: ProviderRoute)
    requires Ranked(rs) && forall i :: 0 <= i < |rs| ==> Ranks(rs[i], r)
    ensures Ranked(rs + [r])
  {
  }

  lemma {:induction false} InsertedIn(rs: seq<ProviderRoute>, r: ProviderRoute)
    ensures forall i :: 0 <= i < |Insert(rs, r)| ==> Insert(rs, r)[i] in rs || Insert(rs, r)[i] == r
  {
    if rs == [] {
    } else {
      InsertedIn(rs[..|rs| - 1], r);
    }
  }

  lemma {:induction false} SortRanks(rs: seq<ProviderRoute>)
    ensures Ranked(StableSort(rs))
  {
    if rs == [] {
    } else {
      SortRanks(rs[..|rs| - 1]);
      InsertRanks(StableSort(rs[..|rs| - 1]), rs[|rs| - 1]);
    }
  }

  /** A preferred provider is tried first, whatever the order of the configuration, and under its own settings. */
  lemma {:induction false} PreferredFirst(ps: seq<Provider>, model: string, i: nat, j: nat) returns (a: nat, b: nat)
    requires i < |ps| && model in ps[i].models && j < |ps| && model in ps[j].models
    requires ps[i].priority < ps[j].priority || (ps[i].priority == ps[j].priority && Less(ps[i].name, ps[j].name))
    ensures var out, p, q := StableSort(Matching(ps, model)), ps[i], ps[j];
      && a < b < |out|
      && out[a] == ProviderRoute(p.name, p.baseURL, p.apiKey, p.priority, p.maxRetries, p.healthCheckPath)
      && out[b] == ProviderRoute(q.name, q.baseURL, q.apiKey, q.priority, q.maxRetries, q.healthCheckPath)
  {
    SortRanks(Matching(ps, model));
    a := Listed(ps, model, i);
    b := Listed(ps, model, j);
    LessIrreflexive(ps[i].name);
    if Less(ps[j].name, ps[i].name) && Less(ps[i].name, ps[j].name) {
      LessTransitive(ps[i].name, ps[j].name, ps[i].name);
    }
  }

  /** A provider that lists the model is a candidate. */
  lemma {:induction false} Listed(ps: seq<Provider>, model: string, i: nat) returns (a: nat)
    requires i < |ps| && model in ps[i].models
    ensures a < |StableSort(Matching(ps, model))| && StableSort(Matching(ps, model))[a] == Route(ps[i])
  {
    var out := StableSort(Matching(ps, model));
    MatchingElements(ps, model, Route(ps[i]));
    SortElements(Matching(ps, model));
    assert Route(ps[i]) in multiset(out);
    a :| 0 <= a < |out| && out[a] == Route(ps[i]);
  }

  /** The route, if it has this priority and name. */
  function Tie(r: ProviderRoute, priority: int, name: string): seq<ProviderRoute> {
    if r.priority == priority && r.name == name then [r] else []
  }

  /** The routes with this priority and name, in order. */
  function Ties(rs: seq<ProviderRoute>, priority: int, name: string): seq<ProviderRoute> {
    if rs == [] then []
    else Ties(rs[..|rs| - 1], priority, name) + Tie(rs[|rs| - 1], priority, name)
  }

  lemma {:induction false} InsertKeepsTies(rs: seq<ProviderRoute>, r: ProviderRoute, priority: int, name: string)
    ensures Ties(Insert(rs, r), priority, name) == Ties(rs, priority, name) + Tie(r, priority, name)
  {
    TiesMore(rs, r, priority, name);
    if rs == [] {
    } else {
      var before, last := rs[..|rs| - 1], rs[|rs| - 1];
      if Before(r, last) {
        InsertKeepsTies(before, r, priority, name);
        TiesMore(Insert(before, r), last, priority, name);
        OneTie(r, last, priority, name);
      }
    }
  }

  /** Of two routes that are in order only one can have the priority and the name. */
  lemma OneTie(a: ProviderRoute, b: ProviderRoute, priority: int, name: string)
    requires Before(a, b)
    ensures Tie(a, priority, name) == [] || Tie(b, priority, name) == []
  {
    LessIrreflexive(name);
  }

  lemma TiesMore(rs: seq<ProviderRoute>, r: ProviderRoute, priority: int, name: string)
    ensures Ties(rs + [r], priority, name) == Ties(rs, priority, name) + Tie(r, priority, name)
  {
    assert (rs + [r])[..|rs|] == rs;
  }

  /** Providers with the same priority and name stay in the order of the configuration. */
  lemma {:induction false} SortIsStable(rs: seq<ProviderRoute>, priority: int, name: string)
    ensures Ties(StableSort(rs), priority, name) == Ties(rs, priority, name)
  {
    if rs == [] {
    } else {
      var n := |rs| - 1;
      SortIsStable(rs[..n], priority, name);
      InsertKeepsTies(StableSort(rs[..n]), rs[n], priority, name);
      TiesMore(StableSort(rs[..n]), rs[n], priority, name);
    }
  }

  // ---- the result is canonical ----

  predicate DistinctNames(ps: seq<Provider>) {
    forall i, j :: 0 <= i < j < |ps| ==> ps[i].name != ps[j].name
  }

  /** Strictly increasing by priority, then name. */
  predicate Increasing(rs: seq<ProviderRoute>) {
    |rs| < 2 || (Increasing(rs[..|rs| - 1]) && Before(rs[|rs| - 2], rs[|rs| - 1]))
  }

  predicate NamedApart(rs: seq<ProviderRoute>) {
    forall i, j :: 0 <= i < j < |rs| ==> rs[i].name != rs[j].name
  }

  lemma BeforeTransitive(a: ProviderRoute, b: ProviderRoute, c: ProviderRoute)
    requires Before(a, b) && Before(b, c)
    ensures Before(a, c)
  {
    if a.priority == b.priority == c.priority {
      LessTransitive(a.name, b.name, c.name);
    }
  }

  lemma BeforeTotal(a: ProviderRoute, b: ProviderRoute)
    requires a.name != b.name
    ensures Before(a, b) <==> !Before(b, a)
  {
    LessTotal(a.name, b.name);
    if Before(a, b) && Before(b, a) {
      BeforeTransitive(a, b, a);
      LessIrreflexive(a.name);
    }
  }

  lemma {:induction false} LastIsGreatest(rs: seq<ProviderRoute>, i: nat)
    requires Increasing(rs) && i < |rs| - 1
    ensures Before(rs[i], rs[|rs| - 1])
  {
    if i < |rs| - 2 {
      LastIsGreatest(rs[..|rs| - 1], i);
      BeforeTransitive(rs[i], rs[|rs| - 2], rs[|rs| - 1]);
    }
  }

  lemma {:induction false} IncreasingPairs(rs: seq<ProviderRoute>)
    requires Increasing(rs)
    ensures forall i, j :: 0 <= i < j < |rs| ==> Before(rs[i], rs[j])
  {
    if |rs| < 2 {
    } else {
      var n := |rs| - 1;
      IncreasingPairs(rs[..n]);
      forall i | 0 <= i < n
        ensures Before(rs[i], rs[n])
      {
        LastIsGreatest(rs, i);
      }
    }
  }

  lemma LastCounts(rs: seq<ProviderRoute>)
    requires rs != []
    ensures multiset(rs) == multiset(rs[..|rs| - 1]) + multiset{rs[|rs| - 1]}
    ensures multiset(rs[..|rs| - 1]) == multiset(rs) - multiset{rs[|rs| - 1]}
  {
    assert rs == rs[..|rs| - 1] + [rs[|rs| - 1]];
  }

  lemma {:induction false} InsertElements(rs: seq<ProviderRoute>, r: ProviderRoute)
    ensures multiset(Insert(rs, r)) == multiset(rs) + multiset{r}
  {
    if rs == [] {
    } else {
      var n := |rs| - 1;
      InsertElements(rs[..n], r);
      LastCounts(rs);
    }
  }

  lemma {:induction false} SortElements(rs: seq<ProviderRoute>)
    ensures multiset(StableSort(rs)) == multiset(rs)
  {
    if rs == [] {
    } else {
      var n := |rs| - 1;
      SortElements(rs[..n]);
      InsertElements(StableSort(rs[..n]), rs[n]);
      LastCounts(rs);
    }
  }

  lemma InsertIncreasing(rs: seq<ProviderRoute>, r: ProviderRoute)
    requires Increasing(rs) && forall i :: 0 <= i < |rs| ==> rs[i].name != r.name
    ensures Increasing(Insert(rs, r))
    ensures Insert(rs, r)[|rs|] == if rs != [] && Before(r, rs[|rs| - 1]) then rs[|rs| - 1] else r
  {
    if rs == [] {
    } else {
      var n := |rs| - 1;
      if Before(r, rs[n]) {
        InsertIncreasing(rs[..n], r);
        assert Insert(rs, r)[..|rs|] == Insert(rs[..n], r);
      } else {
        BeforeTotal(rs[n], r);
        assert Insert(rs, r)[..|rs|] == rs;
      }
    }
  }

  lemma {:induction false} SortIncreasing(rs: seq<ProviderRoute>)
    requires NamedApart(rs)
    ensures Increasing(StableSort(rs))
  {
    if rs == [] {
    } else {
      var n := |rs| - 1;
      SortIncreasing(rs[..n]);
      SortElements(rs[..n]);
      var sorted := StableSort(rs[..n]);
      forall i | 0 <= i < |sorted|
        ensures sorted[i].name != rs[n].name
      {
        assert sorted[i] in multiset(rs[..n]);
      }
      InsertIncreasing(sorted, rs[n]);
    }
  }

  /** There is one way to list given routes in increasing order. */
  lemma {:induction false} IncreasingIsUnique(a: seq<ProviderRoute>, b: seq<ProviderRoute>)
    requires Increasing(a) && Increasing(b) && multiset(a) == multiset(b)
    ensures a == b
  {
    if a == [] || b == [] {
      assert |multiset(a)| == |multiset(b)|;
    } else {
      var n, k := |a| - 1, |b| - 1;
      SameGreatest(a, b);
      LastCounts(a);
      LastCounts(b);
      IncreasingIsUnique(a[..n], b[..k]);
    }
  }

  lemma SameGreatest(a: seq<ProviderRoute>, b: seq<ProviderRoute>)
    requires Increasing(a) && Increasing(b) && multiset(a) == multiset(b) && a != [] && b != []
    ensures a[|a| - 1] == b[|b| - 1]
  {
    var x, y := a[|a| - 1], b[|b| - 1];
    assert x in multiset(b) && y in multiset(a);
    var i :| 0 <= i < |b| && b[i] == x;
    var j :| 0 <= j < |a| && a[j] == y;
    if x != y {
      LastIsGreatest(b, i);
      LastIsGreatest(a, j);
      BeforeTransitive(x, y, x);
      LessIrreflexive(x.name);
    }
  }

  lemma {:induction false} MatchingElements(ps: seq<Provider>, model: string, r: ProviderRoute)
    ensures r in Matching(ps, model) <==> exists i :: 0 <= i < |ps| && model in ps[i].models && Route(ps[i]) == r
  {
    if ps == [] {
    } else {
      MatchingElements(ps[..|ps| - 1], model, r);
    }
  }

  lemma {:induction false} MatchingNamedApart(ps: seq<Provider>, model: string)
    requires DistinctNames(ps)
    ensures NamedApart(Matching(ps, model))
  {
    if ps == [] {
    } else {
      var n := |ps| - 1;
      var rs := Matching(ps[..n], model);
      MatchingNamedApart(ps[..n], model);
      forall i | 0 <= i < |rs|
        ensures rs[i].name != ps[n].name
      {
        MatchingElements(ps[..n], model, rs[i]);
      }
    }
  }

  /** Counts the listings of a route among the providers that list the model. */
  function Lists(model: string, r: ProviderRoute): Provider -> int {
    (p: Provider) => if model in p.models && Route(p) == r then 1 else 0
  }

  lemma {:induction false} MatchingCounts(ps: seq<Provider>, model: string, r: ProviderRoute)
    ensures multiset(Matching(ps, model))[r] == Sum(Lists(model, r), ps)
  {
    if ps == [] {
    } else {
      MatchingCounts(ps[..|ps| - 1], model, r);
    }
  }

  /** The candidates are exactly the providers that list the model, by rising priority number and then name. */
  lemma {:induction false} CandidatesAreExact(ps: seq<Provider>, model: string, r: ProviderRoute)
    requires DistinctNames(ps)
    ensures var out := StableSort(Matching(ps, model));
      forall i, j :: 0 <= i < j < |out| ==>
        || out[i].priority < out[j].priority
        || (out[i].priority == out[j].priority && Less(out[i].name, out[j].name))
    ensures r in StableSort(Matching(ps, model)) <==>
      exists i :: 0 <= i < |ps| && model in ps[i].models
        && r == ProviderRoute(ps[i].name, ps[i].baseURL, ps[i].apiKey, ps[i].priority, ps[i].maxRetries,
                              ps[i].healthCheckPath)
  {
    MatchingNamedApart(ps, model);
    SortIncreasing(Matching(ps, model));
    IncreasingPairs(StableSort(Matching(ps, model)));
    SortElements(Matching(ps, model));
    MatchingElements(ps, model, r);
    assert r in StableSort(Matching(ps, model)) <==> r in multiset(StableSort(Matching(ps, model)));
  }

  /** Reordering the configured providers changes neither the candidates nor their order. */
  lemma OrderIsCanonical(ps: seq<Provider>, qs: seq<Provider>, model: string)
    requires DistinctNames(ps) && DistinctNames(qs) && multiset(ps) == multiset(qs)
    ensures StableSort(Matching(ps, model)) == StableSort(Matching(qs, model))
  {
    var a, b := Matching(ps, model), Matching(qs, model);
    forall r: ProviderRoute
      ensures multiset(a)[r] == multiset(b)[r]
    {
      MatchingCounts(ps, model, r);
      MatchingCounts(qs, model, r);
      SumPermutes(Lists(model, r), ps, qs);
    }
    assert multiset(a) == multiset(b);
    SortElements(a);
    SortElements(b);
    MatchingNamedApart(ps, model);
    MatchingNamedApart(qs, model);
    SortIncreasing(a);
    SortIncreasing(b);
    IncreasingIsUnique(StableSort(a), StableSort(b));
  }
}
