/**
 * The audit queue, its three workers and the usage table they feed (internal/audit/aduitor.go).
 * One label is one step of one goroutine; a run is any sequence of enabled steps.
 */
module Audit {
  import opened Redact
  import opened Wire
  import opened Sums
  import opened Usage
  import opened UsageTotals

  const QUEUE_CAPACITY := 10000
  const WORKERS := 3

  /** The part of an audit record that is queued and accounted; ids and timestamps are only logged. */
  datatype Record = Record(fingerprint: Fingerprint, usage: Usage)

  datatype State = State(
    day: string,                    // what every worker's clock shows
    queue: seq<Record>,
    workers: seq<Option<Record>>,   // the record each worker holds
    table: Table,
    pushed: seq<Record>,            // history: everything handed to PushRecord
    dropped: seq<Record>,           // history: pushed on a full queue
    entries: seq<Entry>)            // history: accounted for, in order

  datatype Label =
    | Push(record: Record)
    | Take(worker: nat)
    | Process(worker: nat)
    | NextDay(day: string)

  function Initial(day: string): State {
    State(day, [], [None, None, None], map[], [], [], [])
  }

  predicate Enabled(s: State, l: Label) {
    match l
    case Push(r) => true
    case Take(w) => w < |s.workers| && s.workers[w].None? && s.queue != []
    case Process(w) => w < |s.workers| && s.workers[w].Some?
    case NextDay(d) => true
  }

  function Apply(registry: Registry, s: State, l: Label): State
    requires Enabled(s, l)
  {
    match l
    case Push(r) =>
      if |s.queue| < QUEUE_CAPACITY then s.(queue := s.queue + [r], pushed := s.pushed + [r])
      else s.(dropped := s.dropped + [r], pushed := s.pushed + [r])
    case Take(w) => s.(queue := s.queue[1..], workers := s.workers[w := Some(s.queue[0])])
    case Process(w) =>
      var e := EntryOf(s.day, s.workers[w].value);
      s.(workers := s.workers[w := None], entries := s.entries + [e], table := Account(registry, s.table, e))
    case NextDay(d) => s.(day := d)
  }

  function EntryOf(day: string, r: Record): Entry {
    Entry(day, r.fingerprint, r.usage)
  }

  predicate Runnable(registry: Registry, s: State, run: seq<Label>)
    decreases run
  {
    run == [] || (Enabled(s, run[0]) && Runnable(registry, Apply(registry, s, run[0]), run[1..]))
  }

  function After(registry: Registry, s: State, run: seq<Label>): State
    requires Runnable(registry, s, run)
    decreases run
  {
    if run == [] then s else After(registry, Apply(registry, s, run[0]), run[1..])
  }

  function RecordOf(e: Entry): Record {
    Record(e.fingerprint, e.usage)
  }

  /** A weight on records, carried over to workers and to entries. */
  function IfHeld(w: Record -> int): Option<Record> -> int {
    (o: Option<Record>) => if o.Some? then w(o.value) else 0
  }

  function IfEntered(w: Record -> int): Entry -> int {
    (e: Entry) => w(RecordOf(e))
  }

  /** Weighed in any way, the pushed records are those queued, held, accounted for and dropped. */
  ghost predicate Conserved(w: Record -> int, s: State) {
    Sum(w, s.pushed) == Sum(w, s.queue) + Sum(IfHeld(w), s.workers) + Sum(IfEntered(w), s.entries) + Sum(w, s.dropped)
  }

  predicate WithinBounds(s: State) {
    |s.queue| <= QUEUE_CAPACITY && |s.workers| == WORKERS
  }

  lemma InitialConserves(w: Record -> int, day: string)
    ensures Conserved(w, Initial(day)) && WithinBounds(Initial(day))
  {
    var ws := Initial(day).workers;
    assert ws == ([] + [None] + [None]) + [None];
    SumAppend(IfHeld(w), [], None);
    SumAppend(IfHeld(w), [] + [None], None);
    SumAppend(IfHeld(w), [] + [None] + [None], None);
  }

  lemma HeadFirst<T>(w: T -> int, q: seq<T>)
    requires q != []
    ensures Sum(w, q) == w(q[0]) + Sum(w, q[1..])
  {
    SumRemove(w, q, 0);
    assert Remove(q, 0) == q[1..];
  }

  lemma StepConserves(w: Record -> int, registry: Registry, s: State, l: Label)
    requires Conserved(w, s) && WithinBounds(s) && Enabled(s, l)
    ensures Conserved(w, Apply(registry, s, l)) && WithinBounds(Apply(registry, s, l))
  {
    match l
    case Push(r) => PushConserves(w, registry, s, r);
    case Take(i) => TakeMoves(w, s.queue, s.workers, i);
    case Process(i) => ProcessMoves(w, s.workers, s.entries, s.day, i);
    case NextDay(d) =>
  }

  lemma PushConserves(w: Record -> int, registry: Registry, s: State, r: Record)
    requires Conserved(w, s) && WithinBounds(s)
    ensures Conserved(w, Apply(registry, s, Push(r))) && WithinBounds(Apply(registry, s, Push(r)))
  {
    SumAppend(w, s.pushed, r);
    SumAppend(w, s.queue, r);
    SumAppend(w, s.dropped, r);
  }

  /** Taking the first queued record keeps what queue and workers weigh together. */
  lemma TakeMoves(w: Record -> int, queue: seq<Record>, workers: seq<Option<Record>>, i: nat)
    requires queue != [] && i < |workers| && workers[i] == None
    ensures Sum(w, queue[1..]) + Sum(IfHeld(w), workers[i := Some(queue[0])]) == Sum(w, queue) + Sum(IfHeld(w), workers)
  {
    HeadFirst(w, queue);
    SumUpdate(IfHeld(w), workers, i, Some(queue[0]));
  }

  /** Entering a held record keeps what workers and entries weigh together. */
  lemma ProcessMoves(w: Record -> int, workers: seq<Option<Record>>, entries: seq<Entry>, day: string, i: nat)
    requires i < |workers| && workers[i].Some?
    ensures Sum(IfHeld(w), workers[i := None]) + Sum(IfEntered(w), entries + [EntryOf(day, workers[i].value)])
         == Sum(IfHeld(w), workers) + Sum(IfEntered(w), entries)
  {
    var e := EntryOf(day, workers[i].value);
    assert RecordOf(e) == workers[i].value;
    SumUpdate(IfHeld(w), workers, i, None);
    SumAppend(IfEntered(w), entries, e);
  }

  /** Over any run the queue stays within its capacity and no record is lost track of or counted twice. */
  lemma {:induction false} RunConserves(w: Record -> int, registry: Registry, s: State, run: seq<Label>)
    requires Runnable(registry, s, run) && Conserved(w, s) && WithinBounds(s)
    ensures Conserved(w, After(registry, s, run)) && WithinBounds(After(registry, s, run))
    decreases run
  {
    if run == [] {
    } else {
      StepConserves(w, registry, s, run[0]);
      RunConserves(w, registry, Apply(registry, s, run[0]), run[1..]);
    }
  }

  lemma TableAppend(registry: Registry, es: seq<Entry>, e: Entry)
    ensures TableAfter(registry, es + [e]) == Account(registry, TableAfter(registry, es), e)
  {
    assert (es + [e])[..|es|] == es;
  }

  lemma TableStep(registry: Registry, s: State, l: Label)
    requires Enabled(s, l) && s.table == TableAfter(registry, s.entries)
    ensures Apply(registry, s, l).table == TableAfter(registry, Apply(registry, s, l).entries)
  {
    if l.Process? {
      TableAppend(registry, s.entries, EntryOf(s.day, s.workers[l.worker].value));
    }
  }

  /** The table is always what the entries, in the order the workers made them, leave behind. */
  lemma {:induction false} TableFollowsEntries(registry: Registry, s: State, run: seq<Label>)
    requires Runnable(registry, s, run) && s.table == TableAfter(registry, s.entries)
    ensures After(registry, s, run).table == TableAfter(registry, After(registry, s, run).entries)
    decreases run
  {
    if run == [] {
    } else {
      TableStep(registry, s, run[0]);
      TableFollowsEntries(registry, Apply(registry, s, run[0]), run[1..]);
    }
  }

  /** Nothing is left to do: the queue is drained and every worker is idle. */
  predicate Drained(s: State) {
    s.queue == [] && forall i :: 0 <= i < |s.workers| ==> s.workers[i].None?
  }

  predicate KeepsDay(run: seq<Label>) {
    forall i :: 0 <= i < |run| ==> !run[i].NextDay?
  }

  predicate AllOn(day: string, es: seq<Entry>) {
    forall i :: 0 <= i < |es| ==> es[i].day == day
  }

  lemma {:induction false} EntriesOn(registry: Registry, s: State, run: seq<Label>)
    requires Runnable(registry, s, run) && KeepsDay(run) && AllOn(s.day, s.entries)
    ensures AllOn(s.day, After(registry, s, run).entries)
    decreases run
  {
    if run == [] {
    } else {
      EntriesOn(registry, Apply(registry, s, run[0]), run[1..]);
    }
  }

  function Is<T(==)>(x: T): T -> int {
    (y: T) => if y == x then 1 else 0
  }

  lemma {:induction false} SumCounts<T>(x: T, s: seq<T>)
    ensures Sum(Is(x), s) == multiset(s)[x]
  {
    if s == [] {
    } else {
      SumCounts(x, s[..|s| - 1]);
      assert s == s[..|s| - 1] + [s[|s| - 1]];
    }
  }

  lemma {:induction false} IdleHoldsNothing(w: Record -> int, ws: seq<Option<Record>>)
    requires forall i :: 0 <= i < |ws| ==> ws[i].None?
    ensures Sum(IfHeld(w), ws) == 0
  {
    if ws == [] {
    } else {
      IdleHoldsNothing(w, ws[..|ws| - 1]);
    }
  }

  lemma {:induction false} EntriesCount(day: string, e: Entry, es: seq<Entry>)
    requires AllOn(day, es)
    ensures multiset(es)[e] == if e.day == day then Sum(IfEntered(Is(RecordOf(e))), es) else 0
  {
    if es == [] {
    } else {
      var n := |es| - 1;
      EntriesCount(day, e, es[..n]);
      assert es == es[..n] + [es[n]];
      assert es[n] == e <==> e.day == day && RecordOf(es[n]) == RecordOf(e);
    }
  }

  /**
   * On one day, two runs that push the same records, drop none of them and drain leave the same usage
   * table, whichever worker takes which record and in whatever order they finish.
   */
  lemma ScheduleIndependent(registry: Registry, day: string, a: seq<Label>, b: seq<Label>)
    requires Filed(registry) && KeepsDay(a) && KeepsDay(b)
    requires Runnable(registry, Initial(day), a) && Runnable(registry, Initial(day), b)
    requires Drained(After(registry, Initial(day), a)) && Drained(After(registry, Initial(day), b))
    requires After(registry, Initial(day), a).dropped == [] == After(registry, Initial(day), b).dropped
    requires multiset(After(registry, Initial(day), a).pushed) == multiset(After(registry, Initial(day), b).pushed)
    ensures After(registry, Initial(day), a).table == After(registry, Initial(day), b).table
  {
    var x, y := After(registry, Initial(day), a), After(registry, Initial(day), b);
    TableFollowsEntries(registry, Initial(day), a);
    TableFollowsEntries(registry, Initial(day), b);
    forall e: Entry
      ensures multiset(x.entries)[e] == multiset(y.entries)[e]
    {
      DrainedEntry(registry, day, a, e);
      DrainedEntry(registry, day, b, e);
    }
    assert multiset(x.entries) == multiset(y.entries);
    OrderIndependent(registry, x.entries, y.entries);
  }

  /** Once drained without drops, each record pushed on the day has been entered exactly once. */
  lemma DrainedEntry(registry: Registry, day: string, run: seq<Label>, e: Entry)
    requires Runnable(registry, Initial(day), run) && KeepsDay(run)
    requires Drained(After(registry, Initial(day), run)) && After(registry, Initial(day), run).dropped == []
    ensures multiset(After(registry, Initial(day), run).entries)[e]
         == if e.day == day then multiset(After(registry, Initial(day), run).pushed)[RecordOf(e)] else 0
  {
    var x := After(registry, Initial(day), run);
    var w := Is(RecordOf(e));
    InitialConserves(w, day);
    RunConserves(w, registry, Initial(day), run);
    EntriesOn(registry, Initial(day), run);
    IdleHoldsNothing(w, x.workers);
    EntriesCount(day, e, x.entries);
    SumCounts(RecordOf(e), x.pushed);
  }

  /** No record is dropped in a run that pushes no more records than the queue holds. */
  lemma {:induction false} NoDropsWithinCapacity(registry: Registry, s: State, run: seq<Label>)
    requires Runnable(registry, s, run)
    requires |s.queue| <= |s.pushed| && (s.dropped != [] ==> |s.pushed| > QUEUE_CAPACITY)
    ensures |After(registry, s, run).pushed| <= QUEUE_CAPACITY ==> After(registry, s, run).dropped == []
    decreases run
  {
    if run == [] {
    } else {
      NoDropsWithinCapacity(registry, Apply(registry, s, run[0]), run[1..]);
    }
  }

  /** The pipeline holds ten thousand records and three workers' worth; up to ten thousand, none is dropped. */
  lemma PipelineHolds(registry: Registry, day: string, run: seq<Label>)
    requires Runnable(registry, Initial(day), run)
    ensures var s := After(registry, Initial(day), run);
      |s.queue| <= 10000 && |s.workers| == 3 && (|s.pushed| <= 10000 ==> s.dropped == [])
  {
    InitialConserves((r: Record) => 0, day);
    RunConserves((r: Record) => 0, registry, Initial(day), run);
    NoDropsWithinCapacity(registry, Initial(day), run);
  }

  /** As long as nothing is dropped, the queue holds the latest records pushed, in their order: first in, first out. */
  lemma {:induction false} QueueIsFirstInFirstOut(registry: Registry, s: State, run: seq<Label>)
    requires Runnable(registry, s, run) && After(registry, s, run).dropped == []
    requires |s.queue| <= |s.pushed| && s.queue == s.pushed[|s.pushed| - |s.queue|..]
    ensures var z := After(registry, s, run);
      |z.queue| <= |z.pushed| && z.queue == z.pushed[|z.pushed| - |z.queue|..]
    decreases run
  {
    if run == [] {
    } else {
      var s' := Apply(registry, s, run[0]);
      DropsAreKept(registry, s', run[1..]);
      assert s'.queue == s'.pushed[|s'.pushed| - |s'.queue|..];
      QueueIsFirstInFirstOut(registry, s', run[1..]);
    }
  }

  lemma {:induction false} DropsAreKept(registry: Registry, s: State, run: seq<Label>)
    requires Runnable(registry, s, run)
    ensures |s.dropped| <= |After(registry, s, run).dropped|
    decreases run
  {
    if run == [] {
    } else {
      DropsAreKept(registry, Apply(registry, s, run[0]), run[1..]);
    }
  }
}
