/**
 * The double-checked locking of `getBreaker` (internal/proxy/transport.go), as an interleaving of any
 * number of callers over the map and its read-write lock. The settings a breaker is made with are left out.
 */
module Breaker {
  import opened Sums
  import opened Wire

  datatype Pc =
    | Start
    | Reading                         // holds the read lock, has not looked yet
    | Looked(found: Option<nat>)      // holds the read lock
    | Missed                          // holds nothing, is about to lock for writing
    | Locked                          // holds the write lock, has not looked again
    | Made(breaker: nat)              // holds the write lock, has made a breaker but not entered it
    | Leaving(breaker: nat)           // holds the write lock
    | Done(breaker: nat)

  datatype Caller = Caller(key: string, pc: Pc)

  /** A breaker is named by its index in `made`, which holds the key each was made for. */
  datatype State = State(
    callers: seq<Caller>, readers: set<nat>, writer: Option<nat>, cbMap: map<string, nat>, made: seq<string>)

  predicate Initial(s: State) {
    && (forall t :: 0 <= t < |s.callers| ==> s.callers[t].pc == Start)
    && s.readers == {} && s.writer == None && s.cbMap == map[] && s.made == []
  }

  predicate Enabled(s: State, t: nat) {
    && t < |s.callers|
    && !s.callers[t].pc.Done?
    && (s.callers[t].pc.Start? ==> s.writer == None)
    && (s.callers[t].pc.Missed? ==> s.writer == None && s.readers == {})
  }

  function SetPc(s: State, t: nat, pc: Pc): State
    requires t < |s.callers|
  {
    s.(callers := s.callers[t := s.callers[t].(pc := pc)])
  }

  function Lookup(s: State, key: string): Option<nat> {
    if key in s.cbMap then Some(s.cbMap[key]) else None
  }

  /** The caller's next step. */
  function Step(s: State, t: nat): State
    requires Enabled(s, t)
  {
    var key, pc := s.callers[t].key, s.callers[t].pc;
    match pc
    case Start => SetPc(s, t, Reading).(readers := s.readers + {t})
    case Reading => SetPc(s, t, Looked(Lookup(s, key)))
    case Looked(found) => SetPc(s, t, if found.Some? then Done(found.value) else Missed).(readers := s.readers - {t})
    case Missed => SetPc(s, t, Locked).(writer := Some(t))
    case Locked =>
      if key in s.cbMap then SetPc(s, t, Leaving(s.cbMap[key]))
      else SetPc(s, t, Made(|s.made|)).(made := s.made + [key])
    case Made(b) => SetPc(s, t, Leaving(b)).(cbMap := s.cbMap[key := b])
    case Leaving(b) => SetPc(s, t, Done(b)).(writer := None)
  }

  /** A run is the list of who moves next. */
  predicate Runnable(s: State, run: seq<nat>)
    decreases run
  {
    run == [] || (Enabled(s, run[0]) && Runnable(Step(s, run[0]), run[1..]))
  }

  function After(s: State, run: seq<nat>): State
    requires Runnable(s, run)
    decreases run
  {
    if run == [] then s else After(Step(s, run[0]), run[1..])
  }

  predicate HoldsRead(pc: Pc) { pc.Reading? || pc.Looked? }
  predicate HoldsWrite(pc: Pc) { pc.Locked? || pc.Made? || pc.Leaving? }

  /** The breaker a caller has got from the map or put there. */
  function Got(pc: Pc): Option<nat> {
    match pc
    case Looked(found) => found
    case Leaving(b) => Some(b)
    case Done(b) => Some(b)
    case _ => None
  }

  predicate CallerInv(s: State, t: nat)
    requires t < |s.callers|
  {
    var key, pc := s.callers[t].key, s.callers[t].pc;
    && (HoldsRead(pc) <==> t in s.readers)
    && (HoldsWrite(pc) <==> s.writer == Some(t))
    && (Got(pc).Some? ==> Lookup(s, key) == Got(pc))
    && (pc.Made? ==> key !in s.cbMap && pc.breaker < |s.made| && s.made[pc.breaker] == key)
  }

  /** The breaker is in the map under its key, or its maker still holds the write lock. */
  predicate Placed(s: State, b: nat)
    requires b < |s.made|
  {
    || Lookup(s, s.made[b]) == Some(b)
    || (s.writer.Some? && s.writer.value < |s.callers| && s.callers[s.writer.value].pc == Made(b))
  }

  predicate Inv(s: State) {
    && (s.writer.Some? ==> s.readers == {} && s.writer.value < |s.callers|)
    && (forall t :: t in s.readers ==> t < |s.callers|)
    && (forall t :: 0 <= t < |s.callers| ==> CallerInv(s, t))
    && (forall k :: k in s.cbMap ==> s.cbMap[k] < |s.made| && s.made[s.cbMap[k]] == k)
    && (forall b :: 0 <= b < |s.made| ==> Placed(s, b))
  }

  lemma StepKeepsCaller(s: State, t: nat, u: nat)
    requires Inv(s) && Enabled(s, t) && u < |s.callers|
    ensures CallerInv(Step(s, t), u)
  {
    assert CallerInv(s, t);
    assert CallerInv(s, u);
  }

  lemma StepKeepsPlaced(s: State, t: nat, b: nat)
    requires Inv(s) && Enabled(s, t) && b < |Step(s, t).made|
    ensures Placed(Step(s, t), b)
  {
    assert CallerInv(s, t);
    if b < |s.made| {
      assert Placed(s, b);
    }
  }

  lemma InvStep(s: State, t: nat)
    requires Inv(s) && Enabled(s, t)
    ensures Inv(Step(s, t))
  {
    var s' := Step(s, t);
    assert CallerInv(s, t);
    forall u | 0 <= u < |s'.callers|
      ensures CallerInv(s', u)
    {
      StepKeepsCaller(s, t, u);
    }
    forall b | 0 <= b < |s'.made|
      ensures Placed(s', b)
    {
      StepKeepsPlaced(s, t, b);
    }
  }

  lemma {:induction false} InvAfter(s: State, run: seq<nat>)
    requires Inv(s) && Runnable(s, run)
    ensures Inv(After(s, run))
    decreases run
  {
    if run == [] {
    } else {
      InvStep(s, run[0]);
      InvAfter(Step(s, run[0]), run[1..]);
    }
  }

  /** In every interleaving at most one breaker is ever made for a key. */
  lemma OneBreakerPerKey(s: State, run: seq<nat>, a: nat, b: nat)
    requires Initial(s) && Runnable(s, run)
    requires a < |After(s, run).made| && b < |After(s, run).made|
    requires After(s, run).made[a] == After(s, run).made[b]
    ensures a == b
  {
    InvAfter(s, run);
    var z := After(s, run);
    assert Placed(z, a) && Placed(z, b);
    if z.writer.Some? {
      assert CallerInv(z, z.writer.value);
    }
  }

  /** All callers of a key get the same breaker, the one made for that key. */
  lemma SameBreaker(s: State, run: seq<nat>, t: nat, u: nat)
    requires Initial(s) && Runnable(s, run)
    requires t < |After(s, run).callers| && u < |After(s, run).callers|
    requires After(s, run).callers[t].pc.Done? && After(s, run).callers[u].pc.Done?
    ensures After(s, run).callers[t].pc.breaker < |After(s, run).made|
    ensures After(s, run).made[After(s, run).callers[t].pc.breaker] == After(s, run).callers[t].key
    ensures After(s, run).callers[t].key == After(s, run).callers[u].key
       <==> After(s, run).callers[t].pc.breaker == After(s, run).callers[u].pc.breaker
  {
    InvAfter(s, run);
    assert CallerInv(After(s, run), t);
    assert CallerInv(After(s, run), u);
  }

  /** An entry once in the map is never replaced or removed. */
  lemma {:induction false} MapOnlyGrows(s: State, run: seq<nat>, key: string)
    requires Inv(s) && Runnable(s, run)
    requires key in s.cbMap
    ensures Lookup(After(s, run), key) == Some(s.cbMap[key])
    decreases run
  {
    if run == [] {
    } else {
      assert CallerInv(s, run[0]);
      InvStep(s, run[0]);
      MapOnlyGrows(Step(s, run[0]), run[1..], key);
    }
  }

  /** The map is never written while another caller may be reading or writing it. */
  lemma WriterIsAlone(s: State, run: seq<nat>, t: nat, u: nat)
    requires Initial(s) && Runnable(s, run)
    requires t < |After(s, run).callers| && u < |After(s, run).callers| && t != u
    requires HoldsWrite(After(s, run).callers[t].pc)
    ensures !HoldsWrite(After(s, run).callers[u].pc) && !HoldsRead(After(s, run).callers[u].pc)
  {
    InvAfter(s, run);
    assert CallerInv(After(s, run), t);
    assert CallerInv(After(s, run), u);
  }

  /** Until every caller has its breaker, some caller can move. */
  lemma NeverStuck(s: State, run: seq<nat>)
    requires Initial(s) && Runnable(s, run)
    requires exists t :: 0 <= t < |After(s, run).callers| && !After(s, run).callers[t].pc.Done?
    ensures exists u :: Enabled(After(s, run), u)
  {
    InvAfter(s, run);
    var z := After(s, run);
    var t :| 0 <= t < |z.callers| && !z.callers[t].pc.Done?;
    if z.writer.Some? {
      assert CallerInv(z, z.writer.value);
      assert Enabled(z, z.writer.value);
    } else if z.readers != {} {
      var r :| r in z.readers;
      assert CallerInv(z, r);
      assert Enabled(z, r);
    } else {
      assert CallerInv(z, t);
      assert Enabled(z, t);
    }
  }

  function StepsLeft(pc: Pc): nat {
    match pc
    case Start => 7
    case Reading => 6
    case Looked(_) => 5
    case Missed => 4
    case Locked => 3
    case Made(_) => 2
    case Leaving(_) => 1
    case Done(_) => 0
  }

  function Left(): Caller -> int {
    (c: Caller) => StepsLeft(c.pc)
  }

  lemma StepCounts(s: State, t: nat)
    requires Enabled(s, t)
    ensures Sum(Left(), Step(s, t).callers) < Sum(Left(), s.callers)
  {
    SumUpdate(Left(), s.callers, t, Step(s, t).callers[t]);
    assert Step(s, t).callers == s.callers[t := Step(s, t).callers[t]];
  }

  /** No run is longer than seven steps a caller. */
  lemma {:induction false} RunsAreBounded(s: State, run: seq<nat>)
    requires Runnable(s, run)
    ensures |run| <= Sum(Left(), s.callers) <= 7 * |s.callers|
    decreases run
  {
    SumBounds(Left(), s.callers, 0, 7);
    if run == [] {
    } else {
      StepCounts(s, run[0]);
      RunsAreBounded(Step(s, run[0]), run[1..]);
    }
  }
}
