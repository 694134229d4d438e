/** The mutex-map-channel protocol implements atomic single flight: publishing happens when the done
    channel is closed, joining when the map is looked up, and every other step is invisible. */
module CoalescerRefinement {
  import opened Wire
  import opened Coalescer
  import opened CoalescerRuns
  import SF = SingleFlight

  function AbsPc(pc: Pc): SF.Pc {
    match pc
    case Start => SF.Idle
    case Looking => SF.Idle
    case Inserted => SF.Leading
    case Running => SF.Leading
    case Returned(r) => SF.Executed(r)
    case Locked(r) => SF.Executed(r)
    case WroteResp(r) => SF.Executed(r)
    case WroteErr(r) => SF.Executed(r)
    case Closed(r) => SF.Done(SF.Led(r))
    case Deleted(r) => SF.Done(SF.Led(r))
    case Joining(c) => SF.Joined(c)
    case Waiting(c) => SF.Joined(c)
    case Awake(c) => SF.Joined(c)
    case ReadResp(c, _) => SF.Joined(c)
    case Finished(o) => SF.Done(o)
  }

  function AbsCaller(c: Caller): SF.Caller {
    SF.Caller(c.key, AbsPc(c.pc), c.cancelled)
  }

  predicate Open(s: State, key: string) {
    key in s.calls && s.calls[key] < |s.callers| && !s.callers[s.calls[key]].pc.Closed?
  }

  function Abs(s: State): SF.State {
    SF.State(
      seq(|s.callers|, t requires 0 <= t < |s.callers| => AbsCaller(s.callers[t])),
      map key | key in s.calls && Open(s, key) :: s.calls[key])
  }

  /** The atomic step a step of the protocol stands for, if any. */
  function AbsLabel(s: State, l: Label): Option<SF.Label>
    requires Enabled(s, l)
  {
    var key, pc := s.callers[l.t].key, s.callers[l.t].pc;
    match l
    case Go(t) =>
      (match pc
       case Looking => if key in s.calls then Some(SF.Join(t)) else Some(SF.Lead(t))
       case WroteErr(_) => Some(SF.Publish(t))
       case ReadResp(_, _) => Some(SF.Deliver(t))
       case _ => None)
    case FnReturns(t, r) => Some(SF.Execute(t, r))
    case Wake(_) => None
    case GiveUp(t) => Some(SF.GiveUp(t))
    case CancelCtx(t) => Some(SF.CancelCtx(t))
  }

  lemma AbsInitial(s: State)
    requires Initial(s)
    ensures SF.Initial(Abs(s))
    ensures forall t :: 0 <= t < |s.callers| ==> Abs(s).callers[t] == SF.Caller(s.callers[t].key, SF.Idle, false)
  {
  }

  /** While the mutex is in other hands, or no publishing is under way, every entry of the map is open. */
  lemma EntriesOpen(s: State, l: Label, key: string)
    requires Inv(s) && Enabled(s, l) && HoldsMutex(s.callers[l.t].pc) && key in s.calls && s.calls[key] != l.t
    ensures Open(s, key)
  {
    assert EntryInv(s, key);
    assert LeaderInv(s, s.calls[key]) && LeaderInv(s, l.t);
  }

  lemma AbsEnabled(s: State, l: Label)
    requires Inv(s) && Enabled(s, l) && AbsLabel(s, l).Some?
    ensures SF.Enabled(Abs(s), AbsLabel(s, l).value)
  {
    var key, pc := s.callers[l.t].key, s.callers[l.t].pc;
    assert LeaderInv(s, l.t) && WaiterInv(s, l.t);
    if pc.Looking? && key in s.calls {
      assert EntryInv(s, key);
      EntriesOpen(s, l, key);
    }
  }

  lemma AbsCallersStep(s: State, l: Label, u: nat)
    requires Inv(s) && Enabled(s, l) && u < |s.callers|
    ensures |Apply(s, l).callers| == |s.callers|
    ensures var abs := AbsCaller(Apply(s, l).callers[u]);
      match AbsLabel(s, l)
      case None => abs == AbsCaller(s.callers[u])
      case Some(a) => SF.Enabled(Abs(s), a) && abs == SF.Apply(Abs(s), a).callers[u]
  {
    LeadingIsStable(s, l, u);
    if AbsLabel(s, l).Some? {
      AbsEnabled(s, l);
    }
    if u != l.t {
      OthersFrame(s, l, u);
    } else {
      AbsMover(s, l);
    }
  }

  lemma AbsMover(s: State, l: Label)
    requires Inv(s) && Enabled(s, l)
    requires AbsLabel(s, l).Some? ==> SF.Enabled(Abs(s), AbsLabel(s, l).value)
    ensures var abs := AbsCaller(Apply(s, l).callers[l.t]);
      match AbsLabel(s, l)
      case None => abs == AbsCaller(s.callers[l.t])
      case Some(a) => abs == SF.Apply(Abs(s), a).callers[l.t]
  {
    if AbsLabel(s, l).None? {
      InvisibleMove(s, l);
    } else {
      VisibleMove(s, l);
    }
  }

  lemma InvisibleMove(s: State, l: Label)
    requires Enabled(s, l) && AbsLabel(s, l).None?
    ensures AbsCaller(Apply(s, l).callers[l.t]) == AbsCaller(s.callers[l.t])
  {
    if l.Go? {
      InvisibleGo(s, l.t);
    }
  }

  lemma InvisibleGo(s: State, t: nat)
    requires Enabled(s, Go(t))
    requires !s.callers[t].pc.Looking? && !s.callers[t].pc.WroteErr? && !s.callers[t].pc.ReadResp?
    ensures AbsCaller(Advance(s, t).callers[t]) == AbsCaller(s.callers[t])
  {
  }

  lemma VisibleMove(s: State, l: Label)
    requires Inv(s) && Enabled(s, l)
    requires AbsLabel(s, l).Some? && SF.Enabled(Abs(s), AbsLabel(s, l).value)
    ensures AbsCaller(Apply(s, l).callers[l.t]) == SF.Apply(Abs(s), AbsLabel(s, l).value).callers[l.t]
  {
    if l.Go? {
      VisibleGo(s, l.t);
    }
  }

  lemma VisibleGo(s: State, t: nat)
    requires Inv(s) && Enabled(s, Go(t))
    requires AbsLabel(s, Go(t)).Some? && SF.Enabled(Abs(s), AbsLabel(s, Go(t)).value)
    ensures AbsCaller(Advance(s, t).callers[t]) == SF.Apply(Abs(s), AbsLabel(s, Go(t)).value).callers[t]
  {
    var key, pc := s.callers[t].key, s.callers[t].pc;
    if pc.Looking? && key in s.calls {
      JoinMatches(s, t);
    } else if pc.ReadResp? {
      DeliverMatches(s, t);
    }
  }

  lemma JoinMatches(s: State, t: nat)
    requires Inv(s) && Enabled(s, Go(t)) && s.callers[t].pc.Looking? && s.callers[t].key in s.calls
    ensures Open(s, s.callers[t].key)
    ensures AbsCaller(Apply(s, Go(t)).callers[t]).pc == SF.Joined(Abs(s).inflight[s.callers[t].key])
  {
    assert EntryInv(s, s.callers[t].key);
    EntriesOpen(s, Go(t), s.callers[t].key);
  }

  lemma DeliverMatches(s: State, t: nat)
    requires Inv(s) && Enabled(s, Go(t)) && s.callers[t].pc.ReadResp?
    ensures var call := s.callers[t].pc.call;
      && call < |s.callers| && AbsCaller(s.callers[call]).pc.Done? && AbsCaller(s.callers[call]).pc.outcome.Led?
      && AbsCaller(Apply(s, Go(t)).callers[t]).pc ==
         SF.Done(SF.Shared(call, AbsCaller(s.callers[call]).pc.outcome.result))
  {
    assert WaiterInv(s, t) && LeaderInv(s, s.callers[t].pc.call);
  }

  /** What a step does to the open entries. */
  lemma OpenStep(s: State, l: Label, key: string)
    requires Inv(s) && Enabled(s, l)
    ensures var s', own, a := Apply(s, l), s.callers[l.t].key, AbsLabel(s, l);
      if a == Some(SF.Lead(l.t)) && key == own then Open(s', key) && s'.calls[key] == l.t
      else if a == Some(SF.Publish(l.t)) && key == own then !Open(s', key)
      else (Open(s', key) <==> Open(s, key)) && (Open(s, key) ==> s'.calls[key] == s.calls[key])
  {
    var own, pc := s.callers[l.t].key, s.callers[l.t].pc;
    CallsFrame(s, l);
    assert LeaderInv(s, l.t);
    if key in s.calls {
      assert EntryInv(s, key);
      if s.calls[key] != l.t {
        OthersFrame(s, l, s.calls[key]);
      }
    }
  }

  function InflightAfter(abs: SF.State, a: Option<SF.Label>): map<string, nat>
    requires a.Some? ==> SF.Enabled(abs, a.value)
  {
    if a.Some? then SF.Apply(abs, a.value).inflight else abs.inflight
  }

  lemma InflightAt(s: State, l: Label, key: string)
    requires Inv(s) && Enabled(s, l)
    requires AbsLabel(s, l).Some? ==> SF.Enabled(Abs(s), AbsLabel(s, l).value)
    ensures var next := InflightAfter(Abs(s), AbsLabel(s, l));
      (key in next <==> Open(Apply(s, l), key)) && (key in next ==> next[key] == Apply(s, l).calls[key])
  {
    OpenStep(s, l, key);
  }

  lemma AbsInflightStep(s: State, l: Label)
    requires Inv(s) && Enabled(s, l)
    requires AbsLabel(s, l).Some? ==> SF.Enabled(Abs(s), AbsLabel(s, l).value)
    ensures Abs(Apply(s, l)).inflight == InflightAfter(Abs(s), AbsLabel(s, l))
  {
    var next, s' := InflightAfter(Abs(s), AbsLabel(s, l)), Apply(s, l);
    forall key
      ensures (key in next <==> Open(s', key)) && (key in next ==> next[key] == s'.calls[key])
    {
      InflightAt(s, l, key);
    }
    InflightIs(s', next);
  }

  lemma InflightIs(s: State, next: map<string, nat>)
    requires forall key :: (key in next <==> Open(s, key)) && (key in next ==> next[key] == s.calls[key])
    ensures Abs(s).inflight == next
  {
  }

  /** Each step of the protocol is an atomic step or no step at all. */
  lemma StepRefines(s: State, l: Label)
    requires Inv(s) && Enabled(s, l)
    ensures match AbsLabel(s, l)
      case None => Abs(Apply(s, l)) == Abs(s)
      case Some(a) => SF.Enabled(Abs(s), a) && Abs(Apply(s, l)) == SF.Apply(Abs(s), a)
  {
    if AbsLabel(s, l).Some? {
      AbsEnabled(s, l);
    }
    forall u: nat | u < |s.callers|
      ensures match AbsLabel(s, l)
        case None => AbsCaller(Apply(s, l).callers[u]) == AbsCaller(s.callers[u])
        case Some(a) => AbsCaller(Apply(s, l).callers[u]) == SF.Apply(Abs(s), a).callers[u]
    {
      AbsCallersStep(s, l, u);
    }
    AbsCallersStep(s, l, l.t);
    AbsInflightStep(s, l);
  }

  lemma OneMore(s: SF.State, atomic: seq<SF.Label>, a: SF.Label)
    requires SF.Runnable(s, atomic) && SF.Enabled(SF.After(s, atomic), a)
    ensures SF.Runnable(s, atomic + [a]) && SF.After(s, atomic + [a]) == SF.Apply(SF.After(s, atomic), a)
  {
    assert (atomic + [a])[..|atomic|] == atomic;
  }

  /** Every run of the protocol is a run of atomic single flight from its start, ending in the same abstract state. */
  lemma {:induction false} RunRefines(s0: State, labels: seq<Label>) returns (atomic: seq<SF.Label>)
    requires Initial(s0) && Runnable(s0, labels)
    ensures SF.Initial(Abs(s0)) && SF.Runnable(Abs(s0), atomic)
    ensures SF.After(Abs(s0), atomic) == Abs(After(s0, labels))
    ensures |atomic| <= |labels|
  {
    AbsInitial(s0);
    if labels == [] {
      atomic := [];
    } else {
      var n := |labels| - 1;
      atomic := RunRefines(s0, labels[..n]);
      InvInitial(s0);
      InvAfter(s0, labels[..n]);
      var m := After(s0, labels[..n]);
      StepRefines(m, labels[n]);
      if AbsLabel(m, labels[n]).Some? {
        var a := AbsLabel(m, labels[n]).value;
        OneMore(Abs(s0), atomic, a);
        atomic := atomic + [a];
      }
    }
  }
}
