/**
 * The overshoot bound of the daily quota cannot be improved, and cannot be had without its condition: one
 * client's own schedules reach it, or pass it.
 */
module QuotaTight {
  import opened Quota
  import opened Redact
  import opened Sums
  import opened Usage
  import opened UsageTotals
  import opened Wire
  import Audit

  /** A run of one client's requests within one day, under the assumptions of the bound. */
  ghost predicate Legal(registry: Registry, s: State, run: seq<Label>, c: Client, n: int, most: int) {
    && Runnable(registry, s, run) && OnlyFrom(iset{c}, run) && KeepsDay(run)
    && EmitsAtMost(run, most) && AtMostUnrecorded(registry, s, run, c.billed, n)
  }

  predicate Fitting(l: Label, c: Client, most: int) {
    && !l.NextDay? && (l.Arrive? ==> l.client == c)
    && (l.Emit? ==> 0 <= l.usage.totalTokens <= most)
  }

  lemma Prepend(registry: Registry, s: State, l: Label, rest: seq<Label>, c: Client, n: int, most: int)
    requires Enabled(registry, s, l) && Unrecorded(s, c.billed) <= n && Fitting(l, c, most)
    requires Legal(registry, Apply(registry, s, l), rest, c, n, most)
    ensures Legal(registry, s, [l] + rest, c, n, most)
    ensures After(registry, s, [l] + rest) == After(registry, Apply(registry, s, l), rest)
  {
    var run := [l] + rest;
    assert run[0] == l && run[1..] == rest;
    FittingRun(l, rest, c, most);
  }

  lemma FittingRun(l: Label, rest: seq<Label>, c: Client, most: int)
    requires Fitting(l, c, most) && OnlyFrom(iset{c}, rest) && KeepsDay(rest) && EmitsAtMost(rest, most)
    ensures OnlyFrom(iset{c}, [l] + rest) && KeepsDay([l] + rest) && EmitsAtMost([l] + rest, most)
  {
  }

  /** Accounting knows the identity the client is billed to. */
  predicate Charged(registry: Registry, c: Client) {
    registry(c.billed).Some? && c.billed != NoFingerprint
  }

  /** Nothing is queued, the first worker is idle, and every active request is the client's. */
  predicate Calm(s: State, c: Client) {
    && s.audit.queue == [] && |s.audit.workers| > 0 && s.audit.workers[0] == None
    && (forall i :: 0 <= i < |s.active| ==> s.active[i] == c)
    && Unrecorded(s, c.billed) <= |s.active|
  }

  function Tokens(t: int): Usage {
    Usage(0, 0, t, "api_call")
  }

  function Emitted(registry: Registry, s: State, t: int): State
    requires s.active != []
  {
    Apply(registry, s, Emit(0, Tokens(t)))
  }

  /** The first active request emits a record, and the first worker enters it. */
  function Settled(registry: Registry, s: State, t: int): State
    requires s.active != [] && s.audit.queue == [] && |s.audit.workers| > 0 && s.audit.workers[0] == None
  {
    var taken := Apply(registry, Emitted(registry, s, t), Work(Audit.Take(0)));
    Apply(registry, taken, Work(Audit.Process(0)))
  }

  lemma EmittedIsQueued(registry: Registry, s: State, c: Client, t: int)
    requires Filed(registry) && Calm(s, c) && s.active != []
    ensures var e := Emitted(registry, s, t);
      && e.audit == s.audit.(queue := [Audit.Record(c.billed, Tokens(t))], pushed := e.audit.pushed)
      && e.active == s.active[1..] && Unrecorded(e, c.billed) <= |s.active|
  {
    LeaveUnrecorded(registry, s, Emit(0, Tokens(t)), c.billed);
    assert Remove(s.active, 0) == s.active[1..];
  }

  lemma QueuedIsEntered(registry: Registry, e: State, f: Fingerprint, t: int, g: Fingerprint)
    requires Filed(registry) && registry(f).Some? && f != NoFingerprint
    requires e.audit.queue == [Audit.Record(f, Tokens(t))] && |e.audit.workers| > 0 && e.audit.workers[0] == None
    ensures var s' := Apply(registry, Apply(registry, e, Work(Audit.Take(0))), Work(Audit.Process(0)));
      && s'.audit.queue == [] && s'.audit.workers == e.audit.workers && s'.audit.day == e.audit.day
      && s'.active == e.active && Unrecorded(s', f) == Unrecorded(e, f) - 1
      && TotalOn(s', e.audit.day, g) == TotalOn(e, e.audit.day, g) + if g == f then t else 0
  {
    var taken := Apply(registry, e, Work(Audit.Take(0)));
    TakeUnrecorded(registry, e, 0, f);
    ProcessUnrecorded(registry, taken, 0, f);
    AccountAddsTokens(registry, e.audit.table, Audit.EntryOf(e.audit.day, Audit.Record(f, Tokens(t))), e.audit.day, g);
  }

  lemma SettledIsCalm(registry: Registry, s: State, c: Client, t: int, g: Fingerprint)
    requires Filed(registry) && Charged(registry, c) && Calm(s, c) && s.active != []
    ensures var s' := Settled(registry, s, t);
      && Calm(s', c) && |s'.active| == |s.active| - 1 && s'.audit.day == s.audit.day
      && TotalOn(s', s.audit.day, g) == TotalOn(s, s.audit.day, g) + if g == c.billed then t else 0
  {
    EmittedIsQueued(registry, s, c, t);
    QueuedIsEntered(registry, Emitted(registry, s, t), c.billed, t, g);
  }

  lemma PrependSettle(
    registry: Registry, s: State, rest: seq<Label>, c: Client, t: int, n: int, most: int)
    returns (run: seq<Label>)
    requires Calm(s, c) && s.active != [] && |s.active| <= n && 0 <= t <= most
    requires Legal(registry, Settled(registry, s, t), rest, c, n, most)
    ensures Legal(registry, s, run, c, n, most)
    ensures After(registry, s, run) == After(registry, Settled(registry, s, t), rest)
  {
    var e := Emitted(registry, s, t);
    var taken := Apply(registry, e, Work(Audit.Take(0)));
    LeaveUnrecorded(registry, s, Emit(0, Tokens(t)), c.billed);
    TakeUnrecorded(registry, e, 0, c.billed);
    Prepend(registry, taken, Work(Audit.Process(0)), rest, c, n, most);
    run := [Work(Audit.Process(0))] + rest;
    Prepend(registry, e, Work(Audit.Take(0)), run, c, n, most);
    run := [Work(Audit.Take(0))] + run;
    Prepend(registry, s, Emit(0, Tokens(t)), run, c, n, most);
    run := [Emit(0, Tokens(t))] + run;
  }

  lemma ArriveIsCalm(registry: Registry, s: State, c: Client)
    requires Calm(s, c) && !Shut(s, c)
    ensures var s' := Apply(registry, s, Arrive(c));
      Calm(s', c) && |s'.active| == |s.active| + 1 && s'.audit == s.audit
  {
    ArriveUnrecorded(registry, s, c, c.billed);
  }

  /** One request comes, is let through and is settled before the next. */
  function Served(registry: Registry, s: State, c: Client, t: int): State
    requires s.active == [] && !Shut(s, c)
    requires s.audit.queue == [] && |s.audit.workers| > 0 && s.audit.workers[0] == None
  {
    Settled(registry, Apply(registry, s, Arrive(c)), t)
  }

  lemma ServedIsCalm(registry: Registry, s: State, c: Client, t: int, g: Fingerprint)
    requires Filed(registry) && Charged(registry, c) && Calm(s, c) && s.active == [] && !Shut(s, c)
    ensures var s' := Served(registry, s, c, t);
      && Calm(s', c) && s'.active == [] && s'.audit.day == s.audit.day
      && TotalOn(s', s.audit.day, g) == TotalOn(s, s.audit.day, g) + if g == c.billed then t else 0
  {
    ArriveIsCalm(registry, s, c);
    SettledIsCalm(registry, Apply(registry, s, Arrive(c)), c, t, g);
  }

  lemma PrependServed(registry: Registry, s: State, rest: seq<Label>, c: Client, t: int, n: int, most: int)
    returns (run: seq<Label>)
    requires Calm(s, c) && s.active == [] && !Shut(s, c) && n > 0 && 0 <= t <= most
    requires Legal(registry, Served(registry, s, c, t), rest, c, n, most)
    ensures Legal(registry, s, run, c, n, most)
    ensures After(registry, s, run) == After(registry, Served(registry, s, c, t), rest)
  {
    ArriveIsCalm(registry, s, c);
    run := PrependSettle(registry, Apply(registry, s, Arrive(c)), rest, c, t, n, most);
    Prepend(registry, s, Arrive(c), run, c, n, most);
    run := [Arrive(c)] + run;
  }

  // ---- the bound is reached ----

  /** All active requests settle, each at the most tokens a request may use. */
  lemma {:induction false} Drain(registry: Registry, s: State, c: Client, n: int, most: int)
    returns (run: seq<Label>)
    requires Filed(registry) && Charged(registry, c) && most >= 0
    requires Calm(s, c) && |s.active| <= n
    ensures Legal(registry, s, run, c, n, most)
    ensures TotalOn(After(registry, s, run), s.audit.day, c.billed)
         == TotalOn(s, s.audit.day, c.billed) + |s.active| * most
    decreases |s.active|
  {
    if s.active == [] {
      run := [];
    } else {
      SettledIsCalm(registry, s, c, most, c.billed);
      var k := |s.active| - 1;
      run := Drain(registry, Settled(registry, s, most), c, n, most);
      run := PrependSettle(registry, s, run, c, most, n, most);
      Scales(most, k, k + 1);
    }
  }

  /** Requests arrive, while the gate is still open, until n are active; then all settle. */
  lemma {:induction false} Fill(registry: Registry, s: State, c: Client, n: int, most: int)
    returns (run: seq<Label>)
    requires Filed(registry) && Charged(registry, c) && most >= 0
    requires Calm(s, c) && |s.active| <= n && !Shut(s, c)
    ensures Legal(registry, s, run, c, n, most)
    ensures TotalOn(After(registry, s, run), s.audit.day, c.billed) == TotalOn(s, s.audit.day, c.billed) + n * most
    decreases n - |s.active|
  {
    if |s.active| == n {
      run := Drain(registry, s, c, n, most);
    } else {
      ArriveIsCalm(registry, s, c);
      run := Fill(registry, Apply(registry, s, Arrive(c)), c, n, most);
      Prepend(registry, s, Arrive(c), run, c, n, most);
      run := [Arrive(c)] + run;
    }
  }

  /** One request at a time brings the total to one below the limit; then the gate is filled. */
  lemma {:induction false} Climb(registry: Registry, s: State, c: Client, n: int, most: int)
    returns (run: seq<Label>)
    requires Filed(registry) && Charged(registry, c) && c.gate == c.billed && n > 0 && most >= 0
    requires Calm(s, c) && s.active == [] && TotalOn(s, s.audit.day, c.billed) < c.limit
    requires most > 0 || TotalOn(s, s.audit.day, c.billed) == c.limit - 1
    ensures Legal(registry, s, run, c, n, most)
    ensures TotalOn(After(registry, s, run), s.audit.day, c.billed) == c.limit - 1 + n * most
    decreases c.limit - TotalOn(s, s.audit.day, c.billed)
  {
    var missing := c.limit - 1 - TotalOn(s, s.audit.day, c.billed);
    if missing == 0 {
      run := Fill(registry, s, c, n, most);
    } else {
      var t := if most < missing then most else missing;
      ServedIsCalm(registry, s, c, t, c.billed);
      run := Climb(registry, Served(registry, s, c, t), c, n, most);
      run := PrependServed(registry, s, run, c, t, n, most);
    }
  }

  /**
   * For a client gated by the slot it is billed to, and any number of unrecorded requests of any size, some
   * run of its own records exactly `limit - 1 + n * most` tokens; only where requests use no tokens at all
   * must the limit be one.
   */
  lemma BoundIsReached(registry: Registry, day: string, c: Client, n: int, most: int) returns (run: seq<Label>)
    requires Filed(registry) && Charged(registry, c) && c.gate == c.billed
    requires c.limit > 0 && n > 0 && most >= 0 && (most > 0 || c.limit == 1)
    ensures Runnable(registry, Initial(day), run) && OnlyFrom(iset{c}, run) && EmitsAtMost(run, most)
    ensures AtMostUnrecorded(registry, Initial(day), run, c.billed, n)
    ensures TotalOn(After(registry, Initial(day), run), day, c.billed) == c.limit - 1 + n * most
  {
    InitialUnrecorded(day, c.billed);
    run := Climb(registry, Initial(day), c, n, most);
  }

  // ---- without its condition the bound fails ----

  /** The client's gate does not go by the slot it is billed to, or goes by a larger limit, or by none. */
  predicate Strays(c: Client, limit: int) {
    !(c.gate == c.billed && 0 < c.limit <= limit)
  }

  /** A straying client's requests of one token each, one at a time, bring the slot to any total up to one past
      the limit. */
  lemma {:induction false} Escape(registry: Registry, s: State, c: Client, limit: int, target: int)
    returns (run: seq<Label>)
    requires Filed(registry) && Charged(registry, c) && Strays(c, limit) && limit > 0
    requires Calm(s, c) && s.active == [] && (c.gate != c.billed ==> TotalOn(s, s.audit.day, c.gate) == 0)
    requires TotalOn(s, s.audit.day, c.billed) <= target <= limit + 1
    ensures Legal(registry, s, run, c, 1, 1)
    ensures var z := After(registry, s, run);
      z.audit.day == s.audit.day && TotalOn(z, s.audit.day, c.billed) == target && (target <= limit ==> !Shut(z, c))
    decreases target - TotalOn(s, s.audit.day, c.billed)
  {
    if TotalOn(s, s.audit.day, c.billed) == target {
      run := [];
    } else {
      ServedIsCalm(registry, s, c, 1, c.billed);
      ServedIsCalm(registry, s, c, 1, c.gate);
      run := Escape(registry, Served(registry, s, c, 1), c, limit, target);
      run := PrependServed(registry, s, run, c, 1, 1, 1);
    }
  }
}
