/**
 * The daily quota gate (internal/middleware/ratelimit.go) in front of the audit pipeline that feeds it.
 * Admission reads the recorded total; requests that are still active, queued or with a worker are not in it yet.
 * The gate and the records need not agree on whose quota it is: the gate goes by the identity that
 * authentication resolved, a record by the fingerprint taken from the request's header.
 */
module Quota {
  import opened Redact
  import opened Wire
  import opened Sums
  import opened Usage
  import opened UsageTotals
  import Audit

  /** A request as far as quotas go: the slot and the limit its gate reads, and the slot its record is billed to. */
  datatype Client = Client(gate: Fingerprint, limit: int, billed: Fingerprint)

  datatype State = State(
    audit: Audit.State,
    active: seq<Client>,           // admitted requests that have not pushed their record
    days: set<string>,             // the days seen so far
    admitted: seq<Client>)         // history: whom the gate let through

  datatype Label =
    | Arrive(client: Client)
    | Emit(request: nat, usage: Usage)   // the request's one audit record
    | Finish(request: nat)               // the request ends without one
    | Work(step: Audit.Label)            // a worker takes or accounts for a record
    | NextDay(day: string)

  function Initial(day: string): State {
    State(Audit.Initial(day), [], {day}, [])
  }

  predicate Enabled(registry: Registry, s: State, l: Label) {
    match l
    case Arrive(c) => true
    case Emit(i, u) => i < |s.active|
    case Finish(i) => i < |s.active|
    case Work(step) => (step.Take? || step.Process?) && Audit.Enabled(s.audit, step)
    case NextDay(d) => d !in s.days
  }

  /** The gate refuses the client. */
  predicate Shut(s: State, c: Client) {
    UsedUp(s.audit.table, s.audit.day, c.gate, c.limit)
  }

  function Apply(registry: Registry, s: State, l: Label): State
    requires Enabled(registry, s, l)
  {
    match l
    case Arrive(c) => if Shut(s, c) then s else s.(active := s.active + [c], admitted := s.admitted + [c])
    case Emit(i, u) =>
      s.(active := Remove(s.active, i),
         audit := Audit.Apply(registry, s.audit, Audit.Push(Audit.Record(s.active[i].billed, u))))
    case Finish(i) => s.(active := Remove(s.active, i))
    case Work(step) => s.(audit := Audit.Apply(registry, s.audit, step))
    case NextDay(d) => s.(audit := Audit.Apply(registry, s.audit, Audit.NextDay(d)), days := s.days + {d})
  }

  predicate Runnable(registry: Registry, s: State, run: seq<Label>)
    decreases run
  {
    run == [] || (Enabled(registry, s, run[0]) && Runnable(registry, Apply(registry, s, run[0]), run[1..]))
  }

  function After(registry: Registry, s: State, run: seq<Label>): State
    requires Runnable(registry, s, run)
    decreases run
  {
    if run == [] then s else After(registry, Apply(registry, s, run[0]), run[1..])
  }

  function By(f: Fingerprint): Audit.Record -> int {
    (r: Audit.Record) => if r.fingerprint == f then 1 else 0
  }

  function BilledTo(f: Fingerprint): Client -> int {
    (c: Client) => if c.billed == f then 1 else 0
  }

  /** The requests billed to a slot that were admitted and whose tokens are not in the table yet. */
  function Unrecorded(s: State, f: Fingerprint): int {
    Sum(BilledTo(f), s.active) + Sum(By(f), s.audit.queue) + Sum(Audit.IfHeld(By(f)), s.audit.workers)
  }

  predicate AtMostUnrecorded(registry: Registry, s: State, run: seq<Label>, f: Fingerprint, n: int)
    requires Runnable(registry, s, run)
    decreases run
  {
    Unrecorded(s, f) <= n && (run == [] || AtMostUnrecorded(registry, Apply(registry, s, run[0]), run[1..], f, n))
  }

  /** Every record emitted during the run reports between no tokens and `most`. */
  predicate EmitsAtMost(run: seq<Label>, most: int) {
    forall i :: 0 <= i < |run| && run[i].Emit? ==> 0 <= run[i].usage.totalTokens <= most
  }

  predicate Modest(r: Audit.Record, most: int) {
    0 <= r.usage.totalTokens <= most
  }

  predicate AllModest(a: Audit.State, most: int) {
    && (forall i :: 0 <= i < |a.queue| ==> Modest(a.queue[i], most))
    && (forall i :: 0 <= i < |a.workers| && a.workers[i].Some? ==> Modest(a.workers[i].value, most))
  }

  function Bound(limit: int, n: int, most: int): int {
    limit - 1 + n * most
  }

  lemma StepModest(registry: Registry, s: State, l: Label, most: int)
    requires Enabled(registry, s, l) && AllModest(s.audit, most) && EmitsAtMost([l], most)
    ensures AllModest(Apply(registry, s, l).audit, most)
  {
    assert [l][0] == l;
  }

  lemma AccountAddsTokens(registry: Registry, t: Table, e: Entry, d: string, f: Fingerprint)
    requires Filed(registry)
    ensures TotalOf(Account(registry, t, e), d, f) == TotalOf(t, d, f)
      + if registry(f).Some? && f != NoFingerprint && e.day == d && e.fingerprint == f then e.usage.totalTokens else 0
  {
  }

  // How each step changes what a caller still has unrecorded.

  lemma ArriveUnrecorded(registry: Registry, s: State, c: Client, f: Fingerprint)
    requires Enabled(registry, s, Arrive(c))
    ensures Unrecorded(Apply(registry, s, Arrive(c)), f)
         == Unrecorded(s, f) + if c.billed == f && !Shut(s, c) then 1 else 0
  {
    SumAppend(BilledTo(f), s.active, c);
  }

  lemma LeaveUnrecorded(registry: Registry, s: State, l: Label, f: Fingerprint)
    requires Enabled(registry, s, l) && (l.Emit? || l.Finish?)
    ensures Unrecorded(Apply(registry, s, l), f) <= Unrecorded(s, f)
  {
    SumRemove(BilledTo(f), s.active, l.request);
    if l.Emit? {
      SumAppend(By(f), s.audit.queue, Audit.Record(s.active[l.request].billed, l.usage));
    }
  }

  lemma TakeUnrecorded(registry: Registry, s: State, w: nat, f: Fingerprint)
    requires Enabled(registry, s, Work(Audit.Take(w)))
    ensures Unrecorded(Apply(registry, s, Work(Audit.Take(w))), f) == Unrecorded(s, f)
  {
    Audit.HeadFirst(By(f), s.audit.queue);
    SumUpdate(Audit.IfHeld(By(f)), s.audit.workers, w, Some(s.audit.queue[0]));
  }

  lemma ProcessUnrecorded(registry: Registry, s: State, w: nat, f: Fingerprint)
    requires Enabled(registry, s, Work(Audit.Process(w)))
    ensures Unrecorded(Apply(registry, s, Work(Audit.Process(w))), f)
         == Unrecorded(s, f) - if s.audit.workers[w].value.fingerprint == f then 1 else 0
  {
    SumUpdate(Audit.IfHeld(By(f)), s.audit.workers, w, None);
  }

  lemma UnrecordedIsNat(s: State, f: Fingerprint)
    ensures Unrecorded(s, f) >= 0
  {
    SumBounds(BilledTo(f), s.active, 0, 1);
    SumBounds(By(f), s.audit.queue, 0, 1);
    SumBounds(Audit.IfHeld(By(f)), s.audit.workers, 0, 1);
  }

  function TotalOn(s: State, d: string, f: Fingerprint): int {
    TotalOf(s.audit.table, d, f)
  }

  /** What one step adds to a caller's total on a day. */
  function Added(registry: Registry, s: State, l: Label, d: string, f: Fingerprint): int {
    if l.Work? && l.step.Process? && Enabled(registry, s, l) && s.audit.day == d
       && s.audit.workers[l.step.worker].value.fingerprint == f && registry(f).Some? && f != NoFingerprint
    then s.audit.workers[l.step.worker].value.usage.totalTokens else 0
  }

  lemma TotalStep(registry: Registry, s: State, l: Label, d: string, f: Fingerprint)
    requires Filed(registry) && Enabled(registry, s, l)
    ensures TotalOn(Apply(registry, s, l), d, f) == TotalOn(s, d, f) + Added(registry, s, l, d, f)
  {
    if l.Work? && l.step.Process? {
      var e := Audit.EntryOf(s.audit.day, s.audit.workers[l.step.worker].value);
      AccountAddsTokens(registry, s.audit.table, e, d, f);
    }
  }

  // ---- whose quota it is ----

  /** Requests of these clients only. */
  ghost predicate OnlyFrom(clients: iset<Client>, run: seq<Label>) {
    forall i :: 0 <= i < |run| && run[i].Arrive? ==> run[i].client in clients
  }

  /** Whoever is billed to the slot is gated by it, with a limit no larger than the slot's. */
  ghost predicate Governed(clients: iset<Client>, f: Fingerprint, limit: int) {
    forall c :: c in clients && c.billed == f ==> c.gate == f && 0 < c.limit <= limit
  }

  /** Days not seen yet are empty, and no day is over the bound, now or once everything in flight is recorded. */
  ghost predicate Inv(s: State, f: Fingerprint, limit: int, n: int, most: int) {
    && s.audit.day in s.days
    && AllModest(s.audit, most)
    && (forall d :: d !in s.days ==> TotalOn(s, d, f) == 0)
    && (forall d :: TotalOn(s, d, f) <= Bound(limit, n, most))
    && TotalOn(s, s.audit.day, f) + Unrecorded(s, f) * most <= Bound(limit, n, most)
  }

  lemma InvStep(
    registry: Registry, clients: iset<Client>, s: State, l: Label, f: Fingerprint, limit: int, n: int, most: int)
    requires Filed(registry) && Governed(clients, f, limit) && OnlyFrom(clients, [l]) && limit > 0 && most >= 0
    requires Enabled(registry, s, l) && EmitsAtMost([l], most)
    requires Inv(s, f, limit, n, most) && Unrecorded(Apply(registry, s, l), f) <= n
    ensures Inv(Apply(registry, s, l), f, limit, n, most)
  {
    var s' := Apply(registry, s, l);
    StepModest(registry, s, l, most);
    StepReserve(registry, clients, s, l, f, limit, n, most);
    UnrecordedIsNat(s', f);
    forall d
      ensures d !in s'.days ==> TotalOn(s', d, f) == 0
      ensures TotalOn(s', d, f) <= Bound(limit, n, most)
    {
      DayStep(registry, s, l, d, f, limit, n, most);
    }
  }

  /** What the invariant says of one day. */
  lemma DayStep(registry: Registry, s: State, l: Label, d: string, f: Fingerprint, limit: int, n: int, most: int)
    requires Filed(registry) && most >= 0 && Enabled(registry, s, l) && Inv(s, f, limit, n, most)
    requires var s' := Apply(registry, s, l);
      Unrecorded(s', f) >= 0 && TotalOn(s', s'.audit.day, f) + Unrecorded(s', f) * most <= Bound(limit, n, most)
    ensures d !in Apply(registry, s, l).days ==> TotalOn(Apply(registry, s, l), d, f) == 0
    ensures TotalOn(Apply(registry, s, l), d, f) <= Bound(limit, n, most)
  {
    TotalStep(registry, s, l, d, f);
    if d == Apply(registry, s, l).audit.day {
      Scales(most, 0, Unrecorded(Apply(registry, s, l), f));
    } else {
      assert Added(registry, s, l, d, f) == 0;
    }
  }

  /** A step leaves room for whatever is in flight. */
  lemma StepReserve(
    registry: Registry, clients: iset<Client>, s: State, l: Label, f: Fingerprint, limit: int, n: int, most: int)
    requires Filed(registry) && Governed(clients, f, limit) && OnlyFrom(clients, [l]) && limit > 0 && most >= 0
    requires Enabled(registry, s, l)
    requires Inv(s, f, limit, n, most) && Unrecorded(Apply(registry, s, l), f) <= n
    ensures TotalOn(Apply(registry, s, l), Apply(registry, s, l).audit.day, f)
          + Unrecorded(Apply(registry, s, l), f) * most
         <= Bound(limit, n, most)
  {
    var s' := Apply(registry, s, l);
    TotalStep(registry, s, l, s'.audit.day, f);
    Scales(most, Unrecorded(s', f), n);
    Scales(most, Unrecorded(s', f), Unrecorded(s, f));
    match l
    case Arrive(c) =>
      ArriveUnrecorded(registry, s, c, f);
      assert [l][0].client in clients;
    case Emit(_, _) => LeaveUnrecorded(registry, s, l, f);
    case Finish(_) => LeaveUnrecorded(registry, s, l, f);
    case Work(step) =>
      if step.Take? {
        TakeUnrecorded(registry, s, step.worker, f);
      } else {
        ProcessUnrecorded(registry, s, step.worker, f);
      }
    case NextDay(_) =>
  }

  lemma Scales(most: int, a: int, b: int)
    requires most >= 0
    ensures a <= b ==> a * most <= b * most
    ensures a == b - 1 ==> a * most == b * most - most
  {
  }

  lemma {:induction false} RunKeepsInv(
    registry: Registry, clients: iset<Client>, s: State, run: seq<Label>, f: Fingerprint, limit: int, n: int, most: int)
    requires Filed(registry) && Governed(clients, f, limit) && OnlyFrom(clients, run) && limit > 0 && most >= 0
    requires Runnable(registry, s, run) && EmitsAtMost(run, most) && AtMostUnrecorded(registry, s, run, f, n)
    requires Inv(s, f, limit, n, most)
    ensures Inv(After(registry, s, run), f, limit, n, most)
    decreases run
  {
    if run == [] {
    } else {
      assert EmitsAtMost([run[0]], most) && OnlyFrom(clients, [run[0]]);
      InvStep(registry, clients, s, run[0], f, limit, n, most);
      RunKeepsInv(registry, clients, Apply(registry, s, run[0]), run[1..], f, limit, n, most);
    }
  }

  /**
   * Overshoot bound: where everyone billed to a slot is gated by it within its limit, and never more than `n`
   * admitted requests are unrecorded, each worth at most `most` tokens, no day's total of the slot exceeds
   * `limit - 1 + n * most`.
   */
  lemma OvershootBound(
    registry: Registry, clients: iset<Client>, start: string, run: seq<Label>, f: Fingerprint, limit: int, n: int,
    most: int, d: string)
    requires Filed(registry) && Governed(clients, f, limit) && OnlyFrom(clients, run) && limit > 0 && most >= 0
    requires Runnable(registry, Initial(start), run) && EmitsAtMost(run, most)
    requires AtMostUnrecorded(registry, Initial(start), run, f, n)
    ensures TotalOn(After(registry, Initial(start), run), d, f) <= limit - 1 + n * most
  {
    var s := Initial(start);
    UnrecordedIsNat(s, f);
    InitialUnrecorded(start, f);
    Scales(most, 0, n);
    RunKeepsInv(registry, clients, s, run, f, limit, n, most);
  }

  lemma InitialUnrecorded(start: string, f: Fingerprint)
    ensures Unrecorded(Initial(start), f) == 0
  {
    Audit.IdleHoldsNothing(By(f), Initial(start).audit.workers);
  }

  predicate KeepsDay(run: seq<Label>) {
    forall i :: 0 <= i < |run| ==> !run[i].NextDay?
  }

  /** A gate once shut stays shut for the rest of the day. */
  lemma {:induction false} StaysShut(registry: Registry, s: State, run: seq<Label>, c: Client, most: int)
    requires Filed(registry) && Runnable(registry, s, run) && KeepsDay(run)
    requires EmitsAtMost(run, most) && AllModest(s.audit, most) && Shut(s, c)
    ensures Shut(After(registry, s, run), c)
    decreases run
  {
    if run == [] {
    } else {
      assert EmitsAtMost([run[0]], most);
      StepModest(registry, s, run[0], most);
      TotalStep(registry, s, run[0], s.audit.day, c.gate);
      StaysShut(registry, Apply(registry, s, run[0]), run[1..], c, most);
    }
  }

  /**
   * Where everyone billed to a slot is gated by it within its limit, none of them gets through for the rest
   * of the day once the limit is used up.
   */
  lemma {:induction false} StaysClosed(
    registry: Registry, clients: iset<Client>, s: State, run: seq<Label>, f: Fingerprint, limit: int, most: int)
    requires Filed(registry) && Runnable(registry, s, run) && KeepsDay(run)
    requires Governed(clients, f, limit) && OnlyFrom(clients, run)
    requires EmitsAtMost(run, most) && AllModest(s.audit, most)
    requires limit > 0 && TotalOf(s.audit.table, s.audit.day, f) >= limit
    ensures Sum(BilledTo(f), After(registry, s, run).admitted) == Sum(BilledTo(f), s.admitted)
    decreases run
  {
    if run == [] {
    } else {
      var l := run[0];
      assert EmitsAtMost([l], most);
      StepModest(registry, s, l, most);
      TotalStep(registry, s, l, s.audit.day, f);
      if l.Arrive? {
        SumAppend(BilledTo(f), s.admitted, l.client);
      }
      StaysClosed(registry, clients, Apply(registry, s, l), run[1..], f, limit, most);
    }
  }
}
