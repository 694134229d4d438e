/** What holds in every run of the single-flight protocol, for any number of callers and any interleaving. */
module CoalescerRuns {
  import opened Sums
  import opened Wire
  import opened Coalescer

  lemma {:induction false} InvAfter(s: State, labels: seq<Label>)
    requires Inv(s) && Runnable(s, labels)
    ensures Inv(After(s, labels))
  {
    if labels == [] {
    } else {
      InvAfter(s, labels[..|labels| - 1]);
      InvStep(After(s, labels[..|labels| - 1]), labels[|labels| - 1]);
    }
  }

  lemma {:induction false} CallersKept(s: State, labels: seq<Label>)
    requires Runnable(s, labels)
    ensures var e := After(s, labels);
      |e.callers| == |s.callers| && forall t :: 0 <= t < |s.callers| ==> e.callers[t].key == s.callers[t].key
  {
    if labels == [] {
    } else {
      CallersKept(s, labels[..|labels| - 1]);
      var m, l := After(s, labels[..|labels| - 1]), labels[|labels| - 1];
      forall t: nat | t < |s.callers|
        ensures Apply(m, l).callers[t].key == s.callers[t].key
      {
        LeadingIsStable(m, l, t);
      }
    }
  }

  // ---- safety ----

  /** The map holds exactly the leaders that have not deleted their entry, so at most one for each key. */
  lemma MapHoldsLiveLeaders(s0: State, labels: seq<Label>, key: string, t: nat)
    requires Initial(s0) && Runnable(s0, labels) && t < |After(s0, labels).callers|
    ensures var s := After(s0, labels);
      key in s.calls && s.calls[key] == t <==> s.callers[t].key == key && Registered(s.callers[t].pc)
    ensures var s := After(s0, labels); key in s.calls ==> s.calls[key] < |s.callers|
  {
    InvInitial(s0);
    InvAfter(s0, labels);
    var s := After(s0, labels);
    assert LeaderInv(s, t);
    assert key in s.calls ==> EntryInv(s, key);
  }

  /** No two callers are inside a section of the mutex, no two leaders of a key are registered, and no done
      channel is closed twice. */
  lemma ClosedAtMostOnce(s0: State, labels: seq<Label>, t: nat, u: nat)
    requires Initial(s0) && Runnable(s0, labels)
    requires t < |After(s0, labels).callers| && u < |After(s0, labels).callers|
    ensures var s := After(s0, labels);
      && (HoldsMutex(s.callers[t].pc) && HoldsMutex(s.callers[u].pc) ==> t == u)
      && (Registered(s.callers[t].pc) && Registered(s.callers[u].pc) && s.callers[t].key == s.callers[u].key ==> t == u)
      && (t in s.objects ==> s.objects[t].closes <= 1)
  {
    InvInitial(s0);
    InvAfter(s0, labels);
    assert LeaderInv(After(s0, labels), t) && LeaderInv(After(s0, labels), u);
  }

  /** A caller about to read a call object finds it fully written and its channel closed once, and what a
      caller shares is exactly the result its leader published under the same key. */
  lemma SharedIsPublished(s0: State, labels: seq<Label>, t: nat)
    requires Initial(s0) && Runnable(s0, labels) && t < |After(s0, labels).callers|
    ensures var s := After(s0, labels);
      var pc := s.callers[t].pc;
      && (pc.Awake? || pc.ReadResp? ==>
        && pc.call in s.objects && s.objects[pc.call].closes == 1
        && s.objects[pc.call].resp.Set? && s.objects[pc.call].err.Set?)
      && (pc.Finished? && pc.outcome.Shared? ==>
        && pc.outcome.leader < |s.callers|
        && s.callers[pc.outcome.leader].key == s.callers[t].key
        && Published(s.callers[pc.outcome.leader].pc) == Some(pc.outcome.result))
  {
    InvInitial(s0);
    InvAfter(s0, labels);
    var s := After(s0, labels);
    assert WaiterInv(s, t);
    if JoinedTo(s.callers[t].pc).Some? {
      assert LeaderInv(s, JoinedTo(s.callers[t].pc).value);
    }
  }

  /** Nothing writes a call object once its channel is closed. */
  lemma {:induction false} ClosedIsFrozen(s: State, labels: seq<Label>, call: nat)
    requires Inv(s) && Runnable(s, labels)
    requires call < |s.callers| && call in s.objects && s.objects[call].closes > 0
    ensures var e := After(s, labels); call in e.objects && e.objects[call] == s.objects[call]
  {
    if labels == [] {
    } else {
      var m, l := After(s, labels[..|labels| - 1]), labels[|labels| - 1];
      ClosedIsFrozen(s, labels[..|labels| - 1], call);
      InvAfter(s, labels[..|labels| - 1]);
      CallersKept(s, labels[..|labels| - 1]);
      ClosedIsKept(m, l, call);
    }
  }

  lemma ClosedIsKept(s: State, l: Label, call: nat)
    requires Inv(s) && Enabled(s, l)
    requires call < |s.callers| && call in s.objects && s.objects[call].closes > 0
    ensures call in Apply(s, l).objects && Apply(s, l).objects[call] == s.objects[call]
  {
    assert LeaderInv(s, call);
    if call != l.t {
      OthersFrame(s, l, call);
    }
  }

  // ---- where results come from ----

  /** The result a leader carries once its function has returned. */
  function Carried(pc: Pc): Option<Result> {
    match pc
    case Returned(r) => Some(r)
    case Locked(r) => Some(r)
    case WroteResp(r) => Some(r)
    case WroteErr(r) => Some(r)
    case _ => Published(pc)
  }

  lemma CarriedStep(s: State, l: Label, t: nat)
    requires Enabled(s, l) && t < |s.callers|
    ensures var now := Carried(Apply(s, l).callers[t].pc);
      now == Carried(s.callers[t].pc) || (l.FnReturns? && l.t == t && now == Some(l.result))
  {
    if t != l.t {
      OthersFrame(s, l, t);
    }
  }

  /** A leader's result is what its own execution of the function returned. */
  lemma {:induction false} CarriedWasReturned(s0: State, labels: seq<Label>, t: nat) returns (i: nat)
    requires Initial(s0) && Runnable(s0, labels) && t < |s0.callers|
    requires t < |After(s0, labels).callers| && Carried(After(s0, labels).callers[t].pc).Some?
    ensures i < |labels| && labels[i] == FnReturns(t, Carried(After(s0, labels).callers[t].pc).value)
  {
    assert labels != [];
    var n := |labels| - 1;
    var m := After(s0, labels[..n]);
    CallersKept(s0, labels[..n]);
    CarriedStep(m, labels[n], t);
    if Carried(After(s0, labels).callers[t].pc) == Carried(m.callers[t].pc) {
      i := CarriedWasReturned(s0, labels[..n], t);
    } else {
      i := n;
    }
  }

  /** Every uncancelled outcome is, field by field, what one execution for the same key returned: the
      caller's own when it led, its leader's when it shared. */
  lemma OutcomeWasReturned(s0: State, labels: seq<Label>, t: nat) returns (i: nat, leader: nat)
    requires Initial(s0) && Runnable(s0, labels) && t < |s0.callers| && t < |After(s0, labels).callers|
    requires After(s0, labels).callers[t].pc.Finished? && !After(s0, labels).callers[t].pc.outcome.Cancelled?
    ensures var outcome := After(s0, labels).callers[t].pc.outcome;
      && i < |labels| && labels[i] == FnReturns(leader, outcome.result)
      && leader == (if outcome.Led? then t else outcome.leader)
      && leader < |s0.callers| && s0.callers[leader].key == s0.callers[t].key
  {
    var outcome := After(s0, labels).callers[t].pc.outcome;
    leader := if outcome.Led? then t else outcome.leader;
    SharedIsPublished(s0, labels, t);
    CallersKept(s0, labels);
    i := CarriedWasReturned(s0, labels, leader);
  }

  /** With an upstream that is deterministic per key, every uncancelled call returns what executing the
      function directly would have returned. */
  lemma AsIfCalledDirectly(s0: State, labels: seq<Label>, upstream: string -> Result, t: nat)
    requires Initial(s0) && Runnable(s0, labels) && t < |s0.callers| && t < |After(s0, labels).callers|
    requires forall i :: 0 <= i < |labels| && labels[i].FnReturns? && labels[i].t < |s0.callers| ==>
      labels[i].result == upstream(s0.callers[labels[i].t].key)
    requires After(s0, labels).callers[t].pc.Finished? && !After(s0, labels).callers[t].pc.outcome.Cancelled?
    ensures After(s0, labels).callers[t].pc.outcome.result == upstream(s0.callers[t].key)
  {
    var i, leader := OutcomeWasReturned(s0, labels, t);
  }

  /** The captured execution never fails, so the only error a caller can see is its own cancellation. */
  lemma OnlyOwnCancellation(s0: State, labels: seq<Label>, t: nat)
    requires Initial(s0) && Runnable(s0, labels) && t < |s0.callers| && t < |After(s0, labels).callers|
    requires forall i :: 0 <= i < |labels| && labels[i].FnReturns? ==>
      labels[i].result.resp.Some? && labels[i].result.err == None
    requires After(s0, labels).callers[t].pc.Finished?
    ensures var c := After(s0, labels).callers[t];
      if c.pc.outcome.Cancelled? then c.cancelled
      else c.pc.outcome.result.resp.Some? && c.pc.outcome.result.err == None
  {
    if After(s0, labels).callers[t].pc.outcome.Cancelled? {
      InvInitial(s0);
      InvAfter(s0, labels);
      assert LeaderInv(After(s0, labels), t);
    } else {
      var i, leader := OutcomeWasReturned(s0, labels, t);
    }
  }

  lemma JoinStep(s: State, l: Label, t: nat, call: nat)
    requires Inv(s) && Enabled(s, l) && t < |s.callers|
    requires JoinedTo(Apply(s, l).callers[t].pc) == Some(call)
    ensures JoinedTo(s.callers[t].pc) == Some(call) ||
      (l == Go(t) && s.callers[t].pc.Looking? && call < |s.callers| &&
       (s.callers[call].pc.Running? || s.callers[call].pc.Returned?) &&
       call in s.objects && s.objects[call] == Call(0, Unset, Unset))
  {
    if t != l.t {
      OthersFrame(s, l, t);
    } else if JoinedTo(s.callers[t].pc) != Some(call) {
      assert LeaderInv(s, t);
      assert EntryInv(s, s.callers[t].key);
      assert LeaderInv(s, call);
    }
  }

  /** No stale result is shared: at the step in which a caller joined, its leader was still executing or
      had not begun to publish, and nothing of its call object had been written. */
  lemma {:induction false} JoinedBeforePublishing(s0: State, labels: seq<Label>, t: nat, call: nat) returns (i: nat)
    requires Initial(s0) && Runnable(s0, labels) && t < |s0.callers| && t < |After(s0, labels).callers|
    requires JoinedTo(After(s0, labels).callers[t].pc) == Some(call)
    ensures i < |labels| && labels[i] == Go(t) && Runnable(s0, labels[..i])
    ensures var s := After(s0, labels[..i]);
      && t < |s.callers| && s.callers[t].pc.Looking? && call < |s.callers|
      && (s.callers[call].pc.Running? || s.callers[call].pc.Returned?)
      && call in s.objects && s.objects[call] == Call(0, Unset, Unset)
  {
    assert labels != [];
    var n := |labels| - 1;
    var m := After(s0, labels[..n]);
    InvInitial(s0);
    InvAfter(s0, labels[..n]);
    CallersKept(s0, labels[..n]);
    JoinStep(m, labels[n], t, call);
    if JoinedTo(m.callers[t].pc) == Some(call) {
      i := JoinedBeforePublishing(s0, labels[..n], t, call);
      assert labels[..n][..i] == labels[..i];
    } else {
      i := n;
    }
  }

  // ---- progress ----

  /** How many more steps a caller can take by itself. */
  function Rank(pc: Pc): nat {
    match pc
    case Start => 14
    case Looking => 13
    case Inserted => 12
    case Running => 11
    case Returned(_) => 10
    case Locked(_) => 9
    case WroteResp(_) => 8
    case WroteErr(_) => 7
    case Closed(_) => 6
    case Deleted(_) => 5
    case Joining(_) => 4
    case Waiting(_) => 3
    case Awake(_) => 2
    case ReadResp(_, _) => 1
    case Finished(_) => 0
  }

  /** A caller's own steps, and the one by which its context may still be cancelled. */
  function Effort(): Caller -> int {
    (c: Caller) => Rank(c.pc) + if c.cancelled then 0 else 1
  }

  function Work(callers: seq<Caller>): int {
    Sum(Effort(), callers)
  }

  lemma OneCallerMoves(s: State, l: Label)
    requires Enabled(s, l)
    ensures Apply(s, l).callers == s.callers[l.t := Apply(s, l).callers[l.t]]
  {
    forall u: nat | u < |s.callers| && u != l.t
      ensures Apply(s, l).callers[u] == s.callers[u]
    {
      OthersFrame(s, l, u);
    }
  }

  lemma MoverGetsCloser(s: State, l: Label)
    requires Enabled(s, l)
    ensures var before, after := s.callers[l.t], Apply(s, l).callers[l.t];
      || (Rank(after.pc) < Rank(before.pc) && after.cancelled == before.cancelled)
      || (after.pc == before.pc && after.cancelled && !before.cancelled)
  {
  }

  lemma StepWorks(s: State, l: Label)
    requires Enabled(s, l)
    ensures Work(Apply(s, l).callers) < Work(s.callers)
  {
    OneCallerMoves(s, l);
    MoverGetsCloser(s, l);
    SumUpdate(Effort(), s.callers, l.t, Apply(s, l).callers[l.t]);
  }

  /** No schedule is longer than the work its callers bring: at most fifteen steps each. */
  lemma {:induction false} RunsAreBounded(s: State, labels: seq<Label>)
    requires Runnable(s, labels)
    ensures |labels| <= Work(s.callers) - Work(After(s, labels).callers) <= 15 * |s.callers|
  {
    SumBounds(Effort(), s.callers, 0, 15);
    SumBounds(Effort(), After(s, labels).callers, 0, 15);
    if labels == [] {
    } else {
      RunsAreBounded(s, labels[..|labels| - 1]);
      StepWorks(After(s, labels[..|labels| - 1]), labels[|labels| - 1]);
    }
  }

  /** In every reachable state an unfinished caller means that some caller can step without any context
      being cancelled; so a run that cannot be extended has finished every call. */
  lemma NeverStuck(s0: State, labels: seq<Label>, t: nat) returns (l: Label)
    requires Initial(s0) && Runnable(s0, labels)
    requires t < |After(s0, labels).callers| && !After(s0, labels).callers[t].pc.Finished?
    ensures Enabled(After(s0, labels), l) && !l.CancelCtx?
  {
    InvInitial(s0);
    InvAfter(s0, labels);
    var s := After(s0, labels);
    if s.mutex.Some? {
      l := Go(s.mutex.value);
      assert LeaderInv(s, s.mutex.value);
    } else {
      l := FreeStep(s, t);
    }
  }

  lemma FreeStep(s: State, t: nat) returns (l: Label)
    requires Inv(s) && s.mutex == None && t < |s.callers| && !s.callers[t].pc.Finished?
    ensures Enabled(s, l) && !l.CancelCtx?
  {
    assert LeaderInv(s, t) && WaiterInv(s, t);
    match s.callers[t].pc
    case Running => l := FnReturns(t, Result(None, None));
    case Waiting(call) =>
      assert LeaderInv(s, call);
      if s.objects[call].closes > 0 {
        l := Wake(t);
      } else if s.callers[call].pc.Running? {
        l := FnReturns(call, Result(None, None));
      } else {
        l := Go(call);
      }
    case Awake(call) =>
      assert LeaderInv(s, call);
      l := Go(t);
    case ReadResp(call, _) =>
      assert LeaderInv(s, call);
      l := Go(t);
    case _ => l := Go(t);
  }
}
