/** Request coalescing with atomic steps: the specification that the mutex, map and channel protocol of
    `responseCoalescer.Do` implements. A caller either leads, executing once and publishing to everyone
    who joined it, or joins a leader that has not published yet. */
module SingleFlight {
  import opened Wire

  /** How a call ends; `leader` names the call whose execution was shared. */
  datatype Outcome =
    | Led(result: Result)
    | Shared(leader: nat, result: Result)
    | Cancelled

  datatype Pc =
    | Idle
    | Leading
    | Executed(result: Result)
    | Joined(leader: nat)
    | Done(outcome: Outcome)

  datatype Caller = Caller(key: string, pc: Pc, cancelled: bool)

  datatype State = State(callers: seq<Caller>, inflight: map<string, nat>)

  datatype Label =
    | Lead(t: nat)
    | Join(t: nat)
    | Execute(t: nat, result: Result)
    | Publish(t: nat)
    | Deliver(t: nat)
    | GiveUp(t: nat)
    | CancelCtx(t: nat)

  /** Nobody has called yet. */
  predicate Initial(s: State) {
    && s.inflight == map[]
    && (forall t :: 0 <= t < |s.callers| ==> s.callers[t].pc == Idle && !s.callers[t].cancelled)
  }

  predicate Enabled(s: State, l: Label) {
    l.t < |s.callers| &&
    var c := s.callers[l.t];
    match l
    case Lead(_) => c.pc == Idle && c.key !in s.inflight
    case Join(_) => c.pc == Idle && c.key in s.inflight
    case Execute(_, _) => c.pc == Leading
    case Publish(_) => c.pc.Executed?
    case Deliver(_) =>
      && c.pc.Joined? && c.pc.leader < |s.callers|
      && s.callers[c.pc.leader].pc.Done? && s.callers[c.pc.leader].pc.outcome.Led?
    case GiveUp(_) => c.pc.Joined? && c.cancelled
    case CancelCtx(_) => !c.cancelled
  }

  function SetPc(s: State, t: nat, pc: Pc): State
    requires t < |s.callers|
  {
    s.(callers := s.callers[t := s.callers[t].(pc := pc)])
  }

  function Apply(s: State, l: Label): State
    requires Enabled(s, l)
  {
    var c := s.callers[l.t];
    match l
    case Lead(t) => SetPc(s, t, Leading).(inflight := s.inflight[c.key := t])
    case Join(t) => SetPc(s, t, Joined(s.inflight[c.key]))
    case Execute(t, result) => SetPc(s, t, Executed(result))
    case Publish(t) => SetPc(s, t, Done(Led(c.pc.result))).(inflight := s.inflight - {c.key})
    case Deliver(t) => SetPc(s, t, Done(Shared(c.pc.leader, s.callers[c.pc.leader].pc.outcome.result)))
    case GiveUp(t) => SetPc(s, t, Done(Cancelled))
    case CancelCtx(t) => s.(callers := s.callers[t := c.(cancelled := true)])
  }

  predicate Runnable(s: State, labels: seq<Label>)
    decreases |labels|, 0
  {
    labels == [] ||
    var before := labels[..|labels| - 1];
    Runnable(s, before) && Enabled(After(s, before), labels[|labels| - 1])
  }

  function After(s: State, labels: seq<Label>): State
    requires Runnable(s, labels)
    decreases |labels|, 1
  {
    if labels == [] then s
    else Apply(After(s, labels[..|labels| - 1]), labels[|labels| - 1])
  }
}
