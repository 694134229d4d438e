/** The retry and failover engine of the proxy (internal/proxy/proxy.go). The outcome of the n-th upstream
    attempt of a request is supplied by an oracle; a response always comes with a body to close. */
module Failover {
  import opened Wire

  datatype ProviderRoute = ProviderRoute(
    name: string, baseURL: string, apiKey: string, priority: int, maxRetries: int, healthCheckPath: string)

  datatype Outcome =
    | Failed(error: string)
    | NoResponse
    | Responded(status: int)

  datatype Settings = Settings(retryableStatusCodes: seq<int>, defaultMaxRetries: int)

  /** What the handler answers. `attempt` numbers the attempt whose response is streamed back. */
  datatype Exit =
    | NoCandidates
    | BuildFailed
    | Served(provider: string, attempt: nat, retries: int, failovers: int)
    | Unavailable(lastError: Option<string>, retries: int, failovers: int)

  class GatewayContext {
    var targetProvider: string
    var apiKey: string
    var baseURL: string
    const candidateProviders: seq<ProviderRoute>
    var attemptedProviders: seq<string>
    var failoverCount: int

    constructor (candidates: seq<ProviderRoute>)
      ensures candidateProviders == candidates && attemptedProviders == [] && failoverCount == 0
    {
      candidateProviders := candidates;
      targetProvider, apiKey, baseURL := "", "", "";
      attemptedProviders := [];
      failoverCount := 0;
    }

    method SetActiveProvider(provider: ProviderRoute)
      modifies this`targetProvider, this`apiKey, this`baseURL
      ensures targetProvider == provider.name && apiKey == provider.apiKey && baseURL == provider.baseURL
    {
      targetProvider := provider.name;
      apiKey := provider.apiKey;
      baseURL := provider.baseURL;
    }
  }

  predicate Retryable(cfg: Settings, o: Outcome) {
    !o.Responded? || o.status in cfg.retryableStatusCodes
  }

  method ShouldRetryResponse(cfg: Settings, o: Outcome) returns (retry: bool)
    ensures retry == Retryable(cfg, o)
    ensures retry <==> o.Failed? || o.NoResponse? || (o.Responded? && o.status in cfg.retryableStatusCodes)
  {
    if o.Failed? {
      return true;
    }
    if o.NoResponse? {
      return true;
    }
    for i := 0 to |cfg.retryableStatusCodes|
      invariant o.status !in cfg.retryableStatusCodes[..i]
    {
      if o.status == cfg.retryableStatusCodes[i] {
        return true;
      }
    }
    return false;
  }

  function EffectiveRetryCount(cfg: Settings, p: ProviderRoute): int {
    if p.maxRetries > 0 then p.maxRetries else cfg.defaultMaxRetries
  }

  // ---- the flattened plan ----

  function Budget(cfg: Settings, p: ProviderRoute): nat {
    if EffectiveRetryCount(cfg, p) + 1 > 0 then EffectiveRetryCount(cfg, p) + 1 else 0
  }

  /** The attempts planned for the first i candidates. */
  function Offset(cfg: Settings, cands: seq<ProviderRoute>, i: nat): nat
    requires i <= |cands|
  {
    if i == 0 then 0 else Offset(cfg, cands, i - 1) + Budget(cfg, cands[i - 1])
  }

  /** Plan entry n is the index of the candidate that attempt n goes to: each candidate in order, as
      often as its budget. */
  function Plan(cfg: Settings, cands: seq<ProviderRoute>): (plan: seq<nat>)
    ensures |plan| == Offset(cfg, cands, |cands|)
    ensures forall n :: 0 <= n < |plan| ==> plan[n] < |cands|
  {
    if cands == [] then []
    else
      var k := |cands| - 1;
      OffsetOfPrefix(cfg, cands, k, k);
      Plan(cfg, cands[..k]) + seq(Budget(cfg, cands[k]), _ => k)
  }

  lemma {:induction false} OffsetOfPrefix(cfg: Settings, cands: seq<ProviderRoute>, k: nat, i: nat)
    requires i <= k <= |cands|
    ensures Offset(cfg, cands[..k], i) == Offset(cfg, cands, i)
  {
    if i == 0 {
    } else {
      OffsetOfPrefix(cfg, cands, k, i - 1);
    }
  }

  lemma {:induction false} OffsetMonotone(cfg: Settings, cands: seq<ProviderRoute>, i: nat, j: nat)
    requires i <= j <= |cands|
    ensures Offset(cfg, cands, i) <= Offset(cfg, cands, j)
    decreases j
  {
    if i < j {
      OffsetMonotone(cfg, cands, i, j - 1);
    }
  }

  /** The plan lists candidate i exactly in the attempts between its offset and the next. */
  lemma {:induction false} PlanEntry(cfg: Settings, cands: seq<ProviderRoute>, i: nat, n: nat)
    requires i < |cands| && n < |Plan(cfg, cands)|
    ensures Plan(cfg, cands)[n] == i <==> Offset(cfg, cands, i) <= n < Offset(cfg, cands, i + 1)
    decreases |cands|
  {
    var k := |cands| - 1;
    var before := Plan(cfg, cands[..k]);
    OffsetOfPrefix(cfg, cands, k, k);
    OffsetMonotone(cfg, cands, i + 1, k + 1);
    OffsetMonotone(cfg, cands, i, k);
    if n < |before| {
      assert Plan(cfg, cands)[n] == before[n];
      if i < k {
        PlanEntry(cfg, cands[..k], i, n);
        OffsetOfPrefix(cfg, cands, k, i);
        OffsetOfPrefix(cfg, cands, k, i + 1);
      }
    } else {
      assert Plan(cfg, cands)[n] == k;
      if i < k {
        OffsetMonotone(cfg, cands, i + 1, k);
      }
    }
  }

  // ---- the search ----

  /** Everything a request meets on its way: which requests can be built, and what each attempt yields. */
  datatype World = World(
    cfg: Settings, cands: seq<ProviderRoute>, buildable: ProviderRoute -> bool, upstream: nat -> Outcome)

  /** Entry n of the plan ends the search. */
  predicate Final(w: World, n: nat)
    requires n < |Plan(w.cfg, w.cands)|
  {
    !w.buildable(w.cands[Plan(w.cfg, w.cands)[n]]) || !Retryable(w.cfg, w.upstream(n))
  }

  /** The first final entry of the plan at or after n, or its length: a plain linear search. */
  function FirstFinal(w: World, n: nat): (stop: nat)
    requires n <= |Plan(w.cfg, w.cands)|
    ensures n <= stop <= |Plan(w.cfg, w.cands)|
    ensures forall m :: n <= m < stop ==> !Final(w, m)
    ensures stop < |Plan(w.cfg, w.cands)| ==> Final(w, stop)
    decreases |Plan(w.cfg, w.cands)| - n
  {
    if n == |Plan(w.cfg, w.cands)| || Final(w, n) then n else FirstFinal(w, n + 1)
  }

  /** The names of the first i candidates. */
  function Names(cands: seq<ProviderRoute>, i: nat): (names: seq<string>)
    requires i <= |cands|
    ensures |names| == i && forall k :: 0 <= k < i ==> names[k] == cands[k].name
  {
    if i == 0 then [] else Names(cands, i - 1) + [cands[i - 1].name]
  }

  /** The candidates given up on before the search stopped. */
  function Exhausted(w: World): (i: nat)
    ensures i <= |w.cands|
  {
    var plan, stop := Plan(w.cfg, w.cands), FirstFinal(w, 0);
    if stop < |plan| then plan[stop] else |w.cands|
  }

  /** How many of the first i candidates were tried at all. */
  function Tried(cfg: Settings, cands: seq<ProviderRoute>, i: nat): (n: nat)
    requires i <= |cands|
    ensures n <= i && n <= Offset(cfg, cands, i)
  {
    if i == 0 then 0 else Tried(cfg, cands, i - 1) + if Budget(cfg, cands[i - 1]) > 0 then 1 else 0
  }

  /** The attempts before n that received a response, and with it a body, in order. */
  function Received(upstream: nat -> Outcome, n: nat): seq<nat> {
    if n == 0 then [] else Received(upstream, n - 1) + if upstream(n - 1).Responded? then [n - 1] else []
  }

  /** What the linear search over the plan answers. */
  function Answer(w: World, failoversBefore: int): Exit {
    var plan, stop := Plan(w.cfg, w.cands), FirstFinal(w, 0);
    if w.cands == [] then NoCandidates
    else if stop == |plan| then
      Unavailable(if stop > 0 && w.upstream(stop - 1).Failed? then Some(w.upstream(stop - 1).error) else None,
                  stop, failoversBefore + |w.cands|)
    else if !w.buildable(w.cands[plan[stop]]) then BuildFailed
    else Served(w.cands[plan[stop]].name, stop, stop, failoversBefore + plan[stop])
  }

  /** What is known when candidate i is about to be tried: all attempts planned before it were retried. */
  ghost predicate AllRetried(w: World, n: nat) {
    n <= |Plan(w.cfg, w.cands)| && FirstFinal(w, 0) >= n
  }

  lemma {:induction false} FirstFinalIs(w: World, from: nat, n: nat)
    requires from <= n < |Plan(w.cfg, w.cands)|
    requires FirstFinal(w, from) >= n
    ensures Final(w, n) ==> FirstFinal(w, from) == n
    ensures !Final(w, n) ==> FirstFinal(w, from) >= n + 1
  {
  }

  lemma InWindow(w: World, i: nat, a: nat)
    requires i < |w.cands| && a < Budget(w.cfg, w.cands[i])
    ensures Offset(w.cfg, w.cands, i) + a < |Plan(w.cfg, w.cands)|
    ensures Plan(w.cfg, w.cands)[Offset(w.cfg, w.cands, i) + a] == i
  {
    OffsetMonotone(w.cfg, w.cands, i + 1, |w.cands|);
    PlanEntry(w.cfg, w.cands, i, Offset(w.cfg, w.cands, i) + a);
  }

  function LastError(upstream: nat -> Outcome, n: nat): Option<string> {
    if n > 0 && upstream(n - 1).Failed? then Some(upstream(n - 1).error) else None
  }

  /** How the attempts on one candidate end. */
  datatype Verdict = GaveUp | CannotBuild | Success

  lemma AttemptDecides(w: World, i: nat, n: nat)
    requires i < |w.cands| && AllRetried(w, n)
    requires Offset(w.cfg, w.cands, i) <= n < Offset(w.cfg, w.cands, i) + Budget(w.cfg, w.cands[i])
    ensures if w.buildable(w.cands[i]) && Retryable(w.cfg, w.upstream(n)) then AllRetried(w, n + 1)
      else FirstFinal(w, 0) == n && Exhausted(w) == i && n < |Plan(w.cfg, w.cands)|
  {
    InWindow(w, i, n - Offset(w.cfg, w.cands, i));
    FirstFinalIs(w, 0, n);
  }

  /** The handler's running counters. */
  datatype Counters = Counters(retries: nat, lastError: Option<string>, sleeps: int, closed: seq<nat>)

  /** The counters once n attempts have been retried and i candidates given up on. */
  function CountersAt(w: World, n: nat, i: nat): Counters
    requires i <= |w.cands|
  {
    Counters(n, LastError(w.upstream, n), n - Tried(w.cfg, w.cands, i), Received(w.upstream, n))
  }

  /** The inner loop: attempts on candidate i. The counters come in as the earlier candidates left them. */
  method AttemptCandidate(
    w: World, i: nat, before: nat, errBefore: Option<string>, sleepsBefore: int, closedBefore: seq<nat>)
    returns (verdict: Verdict, totalRetries: nat, finalErr: Option<string>, sleeps: int, closed: seq<nat>)
    requires i < |w.cands| && before == Offset(w.cfg, w.cands, i) && AllRetried(w, before)
    requires Counters(before, errBefore, sleepsBefore, closedBefore) == CountersAt(w, before, i)
    ensures verdict.GaveUp? ==> totalRetries == Offset(w.cfg, w.cands, i + 1) && AllRetried(w, totalRetries)
    ensures verdict.GaveUp? ==> Counters(totalRetries, finalErr, sleeps, closed) == CountersAt(w, totalRetries, i + 1)
    ensures !verdict.GaveUp? ==> totalRetries == FirstFinal(w, 0) < |Plan(w.cfg, w.cands)| && Exhausted(w) == i
    ensures !verdict.GaveUp? ==> Counters(totalRetries, finalErr, sleeps, closed) == CountersAt(w, totalRetries, i)
    ensures !verdict.GaveUp? ==> (verdict.CannotBuild? <==> !w.buildable(w.cands[i]))
  {
    var provider := w.cands[i];
    totalRetries, finalErr, sleeps, closed := before, errBefore, sleepsBefore, closedBefore;
    var attemptBudget := EffectiveRetryCount(w.cfg, provider) + 1;
    var attempt := 1;
    while attempt <= attemptBudget
      invariant 1 <= attempt && (attempt <= attemptBudget || attempt == 1)
      invariant totalRetries == before + attempt - 1 && AllRetried(w, totalRetries)
      invariant Counters(totalRetries, finalErr, sleeps, closed) == CountersAt(w, totalRetries, i)
    {
      AttemptDecides(w, i, totalRetries);
      if !w.buildable(provider) {
        verdict := CannotBuild;
        return;
      }

      var outcome := w.upstream(totalRetries);
      var retry := ShouldRetryResponse(w.cfg, outcome);
      if retry {
        finalErr := if outcome.Failed? then Some(outcome.error) else None;
        if outcome.Responded? {
          closed := closed + [totalRetries];
        }
        totalRetries := totalRetries + 1;
        if attempt < attemptBudget {
          sleeps := sleeps + 1;
          attempt := attempt + 1;
          continue;
        }
        verdict := GaveUp;
        return;
      }
      verdict := Success;
      return;
    }
    verdict := GaveUp;
  }

  lemma AttemptedStep(before: seq<string>, cands: seq<ProviderRoute>, i: nat)
    requires i < |cands|
    ensures before + Names(cands, i) + [cands[i].name] == before + Names(cands, i + 1)
  {
  }

  datatype Report = Report(exit: Exit, sleeps: int, closed: seq<nat>)

  /** The linear search over the plan: each retried attempt is followed by a pause unless it was the last
      for its candidate, and each response received is closed, once and in order. */
  function LinearSearch(w: World, failoversBefore: int): Report {
    var exit, stop := Answer(w, failoversBefore), FirstFinal(w, 0);
    Report(exit,
           stop - Tried(w.cfg, w.cands, Exhausted(w)),
           Received(w.upstream, stop + if exit.Served? then 1 else 0))
  }

  lemma AllGivenUp(w: World, n: nat, c: Counters, failovers: int)
    requires w.cands != [] && n == Offset(w.cfg, w.cands, |w.cands|) && AllRetried(w, n)
    requires c == CountersAt(w, n, |w.cands|)
    ensures Exhausted(w) == |w.cands|
    ensures LinearSearch(w, failovers)
         == Report(Unavailable(c.lastError, c.retries, failovers + |w.cands|), c.sleeps, c.closed)
  {
  }

  lemma StoppedAt(w: World, i: nat, n: nat, c: Counters, failovers: int)
    requires i < |w.cands| && n == FirstFinal(w, 0) < |Plan(w.cfg, w.cands)| && Exhausted(w) == i
    requires c == CountersAt(w, n, i)
    ensures !w.buildable(w.cands[i]) ==> LinearSearch(w, failovers) == Report(BuildFailed, c.sleeps, c.closed)
    ensures w.buildable(w.cands[i]) ==>
      LinearSearch(w, failovers) == Report(Served(w.cands[i].name, n, n, failovers + i), c.sleeps, c.closed + [n])
  {
  }

  /** How far the candidates were gone through: the candidate that settled the request, or their number. */
  ghost predicate Settled(w: World, verdict: Verdict, i: nat, c: Counters)
    requires i <= |w.cands|
  {
    && c == CountersAt(w, c.retries, i)
    && if verdict.GaveUp? then
         i == |w.cands| && c.retries == Offset(w.cfg, w.cands, i) && AllRetried(w, c.retries)
       else
         && i < |w.cands| && c.retries == FirstFinal(w, 0) < |Plan(w.cfg, w.cands)| && Exhausted(w) == i
         && (verdict.CannotBuild? <==> !w.buildable(w.cands[i]))
  }

  /** The outer loop over candidates, which keeps the context's account of failovers. */
  method TryCandidates(w: World, ctx: GatewayContext)
    returns (verdict: Verdict, i: nat, totalRetries: nat, finalErr: Option<string>, sleeps: int, closed: seq<nat>)
    requires ctx.candidateProviders == w.cands
    modifies ctx
    ensures i <= |w.cands| && Settled(w, verdict, i, Counters(totalRetries, finalErr, sleeps, closed))
    ensures ctx.failoverCount == old(ctx.failoverCount) + i
    ensures ctx.attemptedProviders == old(ctx.attemptedProviders) + Names(w.cands, i)
    ensures !verdict.GaveUp? ==> ctx.targetProvider == w.cands[i].name
  {
    var cands := ctx.candidateProviders;
    totalRetries, finalErr, sleeps, closed := 0, None, 0, [];
    i := 0;
    while i < |cands|
      invariant i <= |cands| && totalRetries == Offset(w.cfg, cands, i) && AllRetried(w, totalRetries)
      invariant Counters(totalRetries, finalErr, sleeps, closed) == CountersAt(w, totalRetries, i)
      invariant ctx.failoverCount == old(ctx.failoverCount) + i
      invariant ctx.attemptedProviders == old(ctx.attemptedProviders) + Names(cands, i)
    {
      var provider := cands[i];
      ctx.SetActiveProvider(provider);
      verdict, totalRetries, finalErr, sleeps, closed :=
        AttemptCandidate(w, i, totalRetries, finalErr, sleeps, closed);
      if !verdict.GaveUp? {
        return;
      }
      AttemptedStep(old(ctx.attemptedProviders), cands, i);
      ctx.failoverCount := ctx.failoverCount + 1;
      ctx.attemptedProviders := ctx.attemptedProviders + [provider.name];
      i := i + 1;
    }
    verdict := GaveUp;
  }

  /** The handler. Beside the answer, `sleeps` counts the pauses and `closed` lists the attempts whose
      response body was closed. */
  method ServeHTTP(w: World, ctx: GatewayContext) returns (exit: Exit, sleeps: int, closed: seq<nat>)
    requires ctx.candidateProviders == w.cands
    modifies ctx
    ensures Report(exit, sleeps, closed) == LinearSearch(w, old(ctx.failoverCount))
    ensures ctx.failoverCount == old(ctx.failoverCount) + Exhausted(w)
    ensures ctx.attemptedProviders == old(ctx.attemptedProviders) + Names(w.cands, Exhausted(w))
    ensures exit.Served? ==> ctx.targetProvider == exit.provider
    ensures exit.Served? || exit.Unavailable? ==> ctx.failoverCount == exit.failovers
  {
    ghost var failovers := ctx.failoverCount;
    if |ctx.candidateProviders| == 0 {
      return NoCandidates, 0, [];
    }
    var verdict, i, totalRetries, finalErr;
    verdict, i, totalRetries, finalErr, sleeps, closed := TryCandidates(w, ctx);
    ghost var c := Counters(totalRetries, finalErr, sleeps, closed);
    match verdict {
      case CannotBuild =>
        StoppedAt(w, i, totalRetries, c, failovers);
        exit := BuildFailed;
      case Success =>
        StoppedAt(w, i, totalRetries, c, failovers);
        exit := Served(w.cands[i].name, totalRetries, totalRetries, ctx.failoverCount);
        closed := closed + [totalRetries];
      case GaveUp =>
        AllGivenUp(w, totalRetries, c, failovers);
        exit := Unavailable(finalErr, totalRetries, ctx.failoverCount);
    }
  }

  // ---- what the answer means ----

  /** A provider's own positive setting comes first; one attempt is made beside the retries. */
  lemma BudgetIs(cfg: Settings, p: ProviderRoute)
    ensures p.maxRetries > 0 ==> Budget(cfg, p) == p.maxRetries + 1
    ensures p.maxRetries <= 0 && cfg.defaultMaxRetries >= 0 ==> Budget(cfg, p) == cfg.defaultMaxRetries + 1
    ensures p.maxRetries <= 0 && cfg.defaultMaxRetries < 0 ==> Budget(cfg, p) == 0
  {
  }

  /** Each candidate is planned as often as its budget says, after those before it. */
  lemma PlanIs(cfg: Settings, cands: seq<ProviderRoute>, i: nat, a: nat)
    requires i < |cands| && a <= if cands[i].maxRetries > 0 then cands[i].maxRetries else cfg.defaultMaxRetries
    ensures var n := Offset(cfg, cands, i) + a;
      n < |Plan(cfg, cands)| && Plan(cfg, cands)[n] == i
  {
    OffsetMonotone(cfg, cands, i + 1, |cands|);
    PlanEntry(cfg, cands, i, Offset(cfg, cands, i) + a);
  }

  /**
   * 503 is answered exactly when every planned attempt could be built and failed, had no response, or was
   * answered with one of the configured statuses. The error told is that of the last attempt, if it failed.
   */
  lemma UnavailableIff(w: World, failovers: int)
    requires w.cands != []
    ensures var exit, plan := LinearSearch(w, failovers).exit, Plan(w.cfg, w.cands);
      exit.Unavailable? <==>
        forall n :: 0 <= n < |plan| ==>
          && w.buildable(w.cands[plan[n]])
          && match w.upstream(n)
             case Failed(_) => true
             case NoResponse => true
             case Responded(status) => status in w.cfg.retryableStatusCodes
    ensures var exit, all := LinearSearch(w, failovers).exit, |Plan(w.cfg, w.cands)|;
      exit.Unavailable? ==>
        && exit.retries == all && exit.failovers == failovers + |w.cands|
        && exit.lastError ==
             if all > 0 && w.upstream(all - 1).Failed? then Some(w.upstream(all - 1).error) else None
  {
    var plan, stop := Plan(w.cfg, w.cands), FirstFinal(w, 0);
    if stop < |plan| {
      assert Final(w, stop) && plan[stop] < |w.cands|;
    } else {
      forall n | 0 <= n < |plan|
        ensures w.buildable(w.cands[plan[n]]) && Retryable(w.cfg, w.upstream(n))
      {
        assert !Final(w, n);
      }
    }
  }

  /** Without candidates nothing is tried, and only then is that the answer. */
  lemma NoCandidatesIff(w: World, failovers: int)
    ensures LinearSearch(w, failovers).exit == NoCandidates <==> w.cands == []
  {
  }

  /**
   * The response served is the first of the plan with a status that is not configured as retryable, and it
   * comes from the candidate the plan lists there; every attempt before it was built and retried.
   */
  lemma ServedIsFirst(w: World, failovers: int)
    requires LinearSearch(w, failovers).exit.Served?
    ensures var served, plan := LinearSearch(w, failovers).exit, Plan(w.cfg, w.cands);
      && served.attempt < |plan| && served.retries == served.attempt
      && w.upstream(served.attempt).Responded?
      && w.upstream(served.attempt).status !in w.cfg.retryableStatusCodes
      && served.provider == w.cands[plan[served.attempt]].name
      && served.failovers == failovers + plan[served.attempt]
      && forall n :: 0 <= n < served.attempt ==>
           && w.buildable(w.cands[plan[n]])
           && match w.upstream(n)
              case Failed(_) => true
              case NoResponse => true
              case Responded(status) => status in w.cfg.retryableStatusCodes
  {
    forall n | 0 <= n < LinearSearch(w, failovers).exit.attempt
      ensures w.buildable(w.cands[Plan(w.cfg, w.cands)[n]]) && Retryable(w.cfg, w.upstream(n))
    {
      assert !Final(w, n);
    }
  }

  lemma FirstFinalFrom(w: World, from: nat, n: nat)
    requires from <= n < |Plan(w.cfg, w.cands)|
    requires Final(w, n) && forall m :: from <= m < n ==> !Final(w, m)
    ensures FirstFinal(w, from) == n
  {
  }

  /** The first attempt of the plan that is not retried decides: it cannot be built, or its response is served. */
  lemma FirstDecides(w: World, failovers: int, n: nat)
    requires n < |Plan(w.cfg, w.cands)|
    requires forall m :: 0 <= m < n ==>
      && w.buildable(w.cands[Plan(w.cfg, w.cands)[m]])
      && match w.upstream(m)
         case Failed(_) => true
         case NoResponse => true
         case Responded(status) => status in w.cfg.retryableStatusCodes
    ensures var exit, i := LinearSearch(w, failovers).exit, Plan(w.cfg, w.cands)[n];
      && (!w.buildable(w.cands[i]) ==> exit == BuildFailed)
      && (w.buildable(w.cands[i]) && w.upstream(n).Responded?
          && w.upstream(n).status !in w.cfg.retryableStatusCodes ==>
            exit == Served(w.cands[i].name, n, n, failovers + i))
  {
    forall m | 0 <= m < n
      ensures !Final(w, m)
    {
      assert w.buildable(w.cands[Plan(w.cfg, w.cands)[m]]);
    }
    if Final(w, n) {
      FirstFinalFrom(w, 0, n);
    }
  }

  /** What loading a configuration guarantees of the retry settings. */
  predicate DefaultsApplied(w: World) {
    w.cfg.defaultMaxRetries >= 0 && forall i :: 0 <= i < |w.cands| ==> w.cands[i].maxRetries >= 0
  }

  lemma {:induction false} EveryBudgetIsPositive(w: World, i: nat)
    requires DefaultsApplied(w) && i <= |w.cands|
    ensures Tried(w.cfg, w.cands, i) == i
    ensures i < |w.cands| ==> Budget(w.cfg, w.cands[i]) >= 1
  {
    if i == 0 {
    } else {
      EveryBudgetIsPositive(w, i - 1);
    }
  }

  /** No candidate is given up on, or skipped, before it has been tried. */
  lemma EveryCandidateTried(w: World, i: nat) returns (n: nat)
    requires DefaultsApplied(w) && i < Exhausted(w)
    ensures n < FirstFinal(w, 0) && Plan(w.cfg, w.cands)[n] == i
    ensures Retryable(w.cfg, w.upstream(n))
  {
    n := Offset(w.cfg, w.cands, i);
    EveryBudgetIsPositive(w, i);
    InWindow(w, i, 0);
    StopsLater(w, i);
    assert !Final(w, n);
  }

  lemma StopsLater(w: World, i: nat)
    requires i < Exhausted(w)
    ensures Offset(w.cfg, w.cands, i + 1) <= FirstFinal(w, 0)
  {
    var stop := FirstFinal(w, 0);
    if stop < |Plan(w.cfg, w.cands)| {
      PlanEntry(w.cfg, w.cands, Exhausted(w), stop);
      OffsetMonotone(w.cfg, w.cands, i + 1, Exhausted(w));
    } else {
      OffsetMonotone(w.cfg, w.cands, i + 1, |w.cands|);
    }
  }

  /** With the defaults applied, the pauses are the retries less the failovers. */
  lemma PausesAreRetriesLessFailovers(w: World, failovers: int)
    requires DefaultsApplied(w)
    ensures var Report(exit, sleeps, _) := LinearSearch(w, failovers);
      exit.Served? || exit.Unavailable? ==> sleeps == exit.retries - (exit.failovers - failovers)
  {
    EveryBudgetIsPositive(w, Exhausted(w));
  }

  lemma {:induction false} ReceivedAre(upstream: nat -> Outcome, n: nat)
    ensures forall m: nat :: m in Received(upstream, n) <==> m < n && upstream(m).Responded?
    ensures forall j, k :: 0 <= j < k < |Received(upstream, n)| ==> Received(upstream, n)[j] < Received(upstream, n)[k]
  {
    if n == 0 {
    } else {
      ReceivedAre(upstream, n - 1);
      var before := Received(upstream, n - 1);
      forall j | 0 <= j < |before|
        ensures before[j] < n - 1
      {
        assert before[j] in before;
      }
    }
  }

  /** Of the attempts made, exactly those that received a response have it closed, each once and in order. */
  lemma ClosedExactlyOnce(w: World, failovers: int) returns (made: nat)
    ensures var Report(exit, _, closed) := LinearSearch(w, failovers);
      && (forall m: nat :: m in closed <==> m < made && w.upstream(m).Responded?)
      && (forall j, k :: 0 <= j < k < |closed| ==> closed[j] < closed[k])
      && match exit
         case NoCandidates => made == 0
         case BuildFailed =>
           && made < |Plan(w.cfg, w.cands)| && !w.buildable(w.cands[Plan(w.cfg, w.cands)[made]])
           && forall n :: 0 <= n < made ==> w.buildable(w.cands[Plan(w.cfg, w.cands)[n]])
         case Served(_, attempt, _, _) => made == attempt + 1
         case Unavailable(_, retries, _) => made == retries
  {
    var exit, stop := LinearSearch(w, failovers).exit, FirstFinal(w, 0);
    made := if exit.Served? then stop + 1 else stop;
    ReceivedAre(w.upstream, made);
    forall n | 0 <= n < stop
      ensures w.buildable(w.cands[Plan(w.cfg, w.cands)[n]])
    {
      assert !Final(w, n);
    }
  }
}
