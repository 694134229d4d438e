/** The single-flight protocol of `responseCoalescer.Do` (internal/middleware/cache.go) as an interleaving
    of any number of callers. The mutex, the in-flight map, the call objects and their done channels are
    explicit, and every write of the publishing section is a step of its own. A caller may rest in Start
    for as long as it likes, so callers may arrive at any time. The coalesced function is assumed to
    return; what it returns is arbitrary. */
module Coalescer {
  import opened Wire
  import SingleFlight

  datatype Pc =
    | Start
    | Looking                                                // holds the mutex, has not looked yet
    | Joining(call: nat)                                     // holds the mutex, found an entry
    | Inserted                                               // holds the mutex, made an entry
    | Waiting(call: nat)
    | Awake(call: nat)                                       // received from the done channel
    | ReadResp(call: nat, resp: Option<Response>)            // has read call.resp, not yet call.err
    | Running                                                // executing the function
    | Returned(result: Result)
    | Locked(result: Result)                                 // holds the mutex again, nothing written
    | WroteResp(result: Result)
    | WroteErr(result: Result)
    | Closed(result: Result)
    | Deleted(result: Result)
    | Finished(outcome: SingleFlight.Outcome)

  datatype Caller = Caller(key: string, pc: Pc, cancelled: bool)

  /** A field of a call object: unwritten fields read as nil. */
  datatype Slot<T> = Unset | Set(value: T)

  function Read<T>(slot: Slot<Option<T>>): Option<T> {
    if slot.Set? then slot.value else None
  }

  /** A call object; `closes` counts the closings of its done channel, of which Go allows one. */
  datatype Call = Call(closes: nat, resp: Slot<Option<Response>>, err: Slot<Option<string>>)

  /** A call object is named by the caller that made it. */
  datatype State = State(
    callers: seq<Caller>, mutex: Option<nat>, calls: map<string, nat>, objects: map<nat, Call>)

  datatype Label =
    | Go(t: nat)                          // the caller's only next step
    | FnReturns(t: nat, result: Result)
    | Wake(t: nat)                        // select takes the done branch
    | GiveUp(t: nat)                      // select takes the cancellation branch
    | CancelCtx(t: nat)                   // the caller's context is cancelled

  predicate Initial(s: State) {
    && (forall t :: 0 <= t < |s.callers| ==> s.callers[t].pc == Start && !s.callers[t].cancelled)
    && s.mutex == None && s.calls == map[] && s.objects == map[]
  }

  predicate HoldsMutex(pc: Pc) {
    || pc.Looking? || pc.Joining? || pc.Inserted?
    || pc.Locked? || pc.WroteResp? || pc.WroteErr? || pc.Closed? || pc.Deleted?
  }

  predicate Enabled(s: State, l: Label) {
    l.t < |s.callers| &&
    var pc, cancelled := s.callers[l.t].pc, s.callers[l.t].cancelled;
    match l
    case Go(_) =>
      if pc.Start? || pc.Returned? then s.mutex == None
      else HoldsMutex(pc) || ((pc.Awake? || pc.ReadResp?) && pc.call in s.objects)
    case FnReturns(_, _) => pc.Running?
    case Wake(_) => pc.Waiting? && pc.call in s.objects && s.objects[pc.call].closes > 0
    case GiveUp(_) => pc.Waiting? && cancelled
    case CancelCtx(_) => !cancelled
  }

  function SetPc(s: State, t: nat, pc: Pc): State
    requires t < |s.callers|
  {
    s.(callers := s.callers[t := s.callers[t].(pc := pc)])
  }

  function Object(s: State, t: nat): Call {
    if t in s.objects then s.objects[t] else Call(0, Unset, Unset)
  }

  /** Where the only next step of a caller takes it. */
  function NextPc(s: State, t: nat): Pc
    requires Enabled(s, Go(t))
  {
    var key := s.callers[t].key;
    match s.callers[t].pc
    case Start => Looking
    case Looking => if key in s.calls then Joining(s.calls[key]) else Inserted
    case Joining(call) => Waiting(call)
    case Inserted => Running
    case Awake(call) => ReadResp(call, Read(s.objects[call].resp))
    case ReadResp(call, resp) => Finished(SingleFlight.Shared(call, Result(resp, Read(s.objects[call].err))))
    case Returned(result) => Locked(result)
    case Locked(result) => WroteResp(result)
    case WroteResp(result) => WroteErr(result)
    case WroteErr(result) => Closed(result)
    case Closed(result) => Deleted(result)
    case Deleted(result) => Finished(SingleFlight.Led(result))
  }

  /** What that step does to the map of calls. */
  function NextCalls(s: State, t: nat): map<string, nat>
    requires t < |s.callers|
  {
    var key, pc := s.callers[t].key, s.callers[t].pc;
    if pc.Looking? && key !in s.calls then s.calls[key := t]
    else if pc.Closed? then s.calls - {key}
    else s.calls
  }

  /** What that step writes to the caller's own call object. */
  function NextObjects(s: State, t: nat): map<nat, Call>
    requires t < |s.callers|
  {
    var key, pc, own := s.callers[t].key, s.callers[t].pc, Object(s, t);
    match pc
    case Looking => if key in s.calls then s.objects else s.objects[t := Call(0, Unset, Unset)]
    case Locked(result) => s.objects[t := own.(resp := Set(result.resp))]
    case WroteResp(result) => s.objects[t := own.(err := Set(result.err))]
    case WroteErr(result) => s.objects[t := own.(closes := own.closes + 1)]
    case _ => s.objects
  }

  function Advance(s: State, t: nat): State
    requires Enabled(s, Go(t))
  {
    var pc := s.callers[t].pc;
    State(
      s.callers[t := s.callers[t].(pc := NextPc(s, t))],
      if pc.Start? || pc.Returned? then Some(t)
      else if pc.Joining? || pc.Inserted? || pc.Deleted? then None
      else s.mutex,
      NextCalls(s, t),
      NextObjects(s, t))
  }

  function Apply(s: State, l: Label): State
    requires Enabled(s, l)
  {
    match l
    case Go(t) => Advance(s, t)
    case FnReturns(t, result) => SetPc(s, t, Returned(result))
    case Wake(t) => SetPc(s, t, Awake(s.callers[t].pc.call))
    case GiveUp(t) => SetPc(s, t, Finished(SingleFlight.Cancelled))
    case CancelCtx(t) => s.(callers := s.callers[t := s.callers[t].(cancelled := true)])
  }

  predicate Runnable(s: State, labels: seq<Label>)
    decreases |labels|, 0
  {
    labels == [] ||
    var before := labels[..|labels| - 1];
    Runnable(s, before) && Enabled(After(s, before), labels[|labels| - 1])
  }

  /** The state reached from s by a sequence of steps. */
  function After(s: State, labels: seq<Label>): State
    requires Runnable(s, labels)
    decreases |labels|, 1
  {
    if labels == [] then s
    else Apply(After(s, labels[..|labels| - 1]), labels[|labels| - 1])
  }

  // ---- the invariant ----

  /** The caller's entry is in the map. */
  predicate Registered(pc: Pc) {
    pc.Inserted? || pc.Running? || pc.Returned? || pc.Locked? || pc.WroteResp? || pc.WroteErr? || pc.Closed?
  }

  predicate Leads(pc: Pc) {
    Registered(pc) || pc.Deleted? || (pc.Finished? && pc.outcome.Led?)
  }

  /** The contents of a leader's call object are determined by how far the leader has got. */
  function ExpectedObject(pc: Pc): Call
    requires Leads(pc)
  {
    match pc
    case WroteResp(r) => Call(0, Set(r.resp), Unset)
    case WroteErr(r) => Call(0, Set(r.resp), Set(r.err))
    case Closed(r) => Call(1, Set(r.resp), Set(r.err))
    case Deleted(r) => Call(1, Set(r.resp), Set(r.err))
    case Finished(o) => Call(1, Set(o.result.resp), Set(o.result.err))
    case _ => Call(0, Unset, Unset)
  }

  /** The leader this caller has joined, if any. */
  function JoinedTo(pc: Pc): Option<nat> {
    match pc
    case Joining(c) => Some(c)
    case Waiting(c) => Some(c)
    case Awake(c) => Some(c)
    case ReadResp(c, _) => Some(c)
    case Finished(Shared(c, _)) => Some(c)
    case _ => None
  }

  /** The result a leader has closed its channel on, if it has. */
  function Published(pc: Pc): Option<Result> {
    match pc
    case Closed(r) => Some(r)
    case Deleted(r) => Some(r)
    case Finished(Led(r)) => Some(r)
    case _ => None
  }

  predicate LeaderInv(s: State, t: nat)
    requires t < |s.callers|
  {
    var key, pc := s.callers[t].key, s.callers[t].pc;
    && (HoldsMutex(pc) <==> s.mutex == Some(t))
    && (Registered(pc) ==> key in s.calls && s.calls[key] == t)
    && (Leads(pc) <==> t in s.objects)
    && (Leads(pc) ==> s.objects[t] == ExpectedObject(pc))
    && (pc == Finished(SingleFlight.Cancelled) ==> s.callers[t].cancelled)
  }

  predicate WaiterInv(s: State, t: nat)
    requires t < |s.callers|
  {
    var key, pc := s.callers[t].key, s.callers[t].pc;
    JoinedTo(pc).Some? ==>
      var c := JoinedTo(pc).value;
      && c < |s.callers| && s.callers[c].key == key && Leads(s.callers[c].pc)
      && (pc.Joining? ==> key in s.calls && s.calls[key] == c)
      && (pc.Awake? || pc.ReadResp? || pc.Finished? ==> Published(s.callers[c].pc).Some?)
      && (pc.ReadResp? ==> pc.resp == Published(s.callers[c].pc).value.resp)
      && (pc.Finished? ==> pc.outcome.result == Published(s.callers[c].pc).value)
  }

  predicate EntryInv(s: State, key: string)
    requires key in s.calls
  {
    var t := s.calls[key];
    t < |s.callers| && s.callers[t].key == key && Registered(s.callers[t].pc)
  }

  ghost predicate Inv(s: State) {
    && (forall t :: 0 <= t < |s.callers| ==> LeaderInv(s, t))
    && (forall t :: 0 <= t < |s.callers| ==> WaiterInv(s, t))
    && (forall key :: key in s.calls ==> EntryInv(s, key))
    && (s.mutex.Some? ==> s.mutex.value < |s.callers|)
  }

  lemma InvInitial(s: State)
    requires Initial(s)
    ensures Inv(s)
  {
  }

  /** A step moves one caller and writes at most that caller's own call object. */
  lemma OthersFrame(s: State, l: Label, u: nat)
    requires Enabled(s, l) && u < |s.callers| && u != l.t
    ensures var s' := Apply(s, l);
      && s'.callers[u] == s.callers[u]
      && (u in s'.objects <==> u in s.objects)
      && (u in s.objects ==> s'.objects[u] == s.objects[u])
  {
  }

  /** Leading and publishing are never undone. */
  lemma LeadingIsStable(s: State, l: Label, u: nat)
    requires Enabled(s, l) && u < |s.callers|
    ensures var s' := Apply(s, l);
      && |s'.callers| == |s.callers| && s'.callers[u].key == s.callers[u].key
      && (Leads(s.callers[u].pc) ==> Leads(s'.callers[u].pc))
      && (Published(s.callers[u].pc).Some? ==> Published(s'.callers[u].pc) == Published(s.callers[u].pc))
  {
    if u != l.t {
      OthersFrame(s, l, u);
    }
  }

  /** Only the holder of the mutex changes the map, and only for its own key. */
  lemma CallsFrame(s: State, l: Label)
    requires Inv(s) && Enabled(s, l)
    ensures var s', pc := Apply(s, l), s.callers[l.t].pc;
      && (!HoldsMutex(pc) ==> s'.calls == s.calls)
      && (forall k :: k != s.callers[l.t].key ==> (k in s'.calls <==> k in s.calls))
      && (forall k :: k != s.callers[l.t].key && k in s.calls ==> s'.calls[k] == s.calls[k])
      && (s.mutex.Some? && s.mutex != Some(l.t) ==> s'.mutex == s.mutex && s'.calls == s.calls)
      && (s.mutex == None ==> s'.mutex == None || s'.mutex == Some(l.t))
      && (s.mutex == Some(l.t) ==> s'.mutex == None || s'.mutex == Some(l.t))
  {
    assert LeaderInv(s, l.t);
  }

  lemma LeaderInvGoes(s: State, t: nat)
    requires Inv(s) && Enabled(s, Go(t))
    ensures LeaderInv(Advance(s, t), t)
  {
    assert LeaderInv(s, t);
  }

  lemma LeaderInvSelf(s: State, l: Label)
    requires Inv(s) && Enabled(s, l)
    ensures LeaderInv(Apply(s, l), l.t)
  {
    if l.Go? {
      LeaderInvGoes(s, l.t);
    } else {
      assert LeaderInv(s, l.t);
    }
  }

  lemma LeaderInvStep(s: State, l: Label, t: nat)
    requires Inv(s) && Enabled(s, l) && t < |s.callers|
    ensures LeaderInv(Apply(s, l), t)
  {
    if t == l.t {
      LeaderInvSelf(s, l);
    } else {
      assert LeaderInv(s, t) && LeaderInv(s, l.t);
      OthersFrame(s, l, t);
      CallsFrame(s, l);
    }
  }

  lemma WaiterInvJoins(s: State, t: nat)
    requires Inv(s) && Enabled(s, Go(t)) && s.callers[t].pc.Looking?
    ensures WaiterInv(Advance(s, t), t)
  {
    var key := s.callers[t].key;
    if key in s.calls {
      assert EntryInv(s, key) && LeaderInv(s, t);
    }
  }

  lemma WaiterInvGoes(s: State, t: nat)
    requires Inv(s) && Enabled(s, Go(t)) && JoinedTo(s.callers[t].pc).Some?
    ensures WaiterInv(Advance(s, t), t)
  {
    assert WaiterInv(s, t) && LeaderInv(s, JoinedTo(s.callers[t].pc).value);
  }

  lemma WaiterInvReads(s: State, l: Label)
    requires Inv(s) && Enabled(s, l) && !l.Go? && JoinedTo(s.callers[l.t].pc).Some?
    ensures WaiterInv(Apply(s, l), l.t)
  {
    assert WaiterInv(s, l.t) && LeaderInv(s, l.t) && LeaderInv(s, JoinedTo(s.callers[l.t].pc).value);
  }

  lemma WaiterInvSelf(s: State, l: Label)
    requires Inv(s) && Enabled(s, l)
    ensures WaiterInv(Apply(s, l), l.t)
  {
    var pc := s.callers[l.t].pc;
    if JoinedTo(pc).Some? {
      if l.Go? {
        WaiterInvGoes(s, l.t);
      } else {
        WaiterInvReads(s, l);
      }
    } else if pc.Looking? && l.Go? {
      WaiterInvJoins(s, l.t);
    } else {
      assert JoinedTo(Apply(s, l).callers[l.t].pc) == None;
    }
  }

  lemma WaiterInvOther(s: State, l: Label, t: nat)
    requires Inv(s) && Enabled(s, l) && t < |s.callers| && t != l.t
    ensures WaiterInv(Apply(s, l), t)
  {
    assert WaiterInv(s, t) && LeaderInv(s, t) && LeaderInv(s, l.t);
    OthersFrame(s, l, t);
    CallsFrame(s, l);
    if JoinedTo(s.callers[t].pc).Some? {
      LeadingIsStable(s, l, JoinedTo(s.callers[t].pc).value);
    }
  }

  lemma WaiterInvStep(s: State, l: Label, t: nat)
    requires Inv(s) && Enabled(s, l) && t < |s.callers|
    ensures WaiterInv(Apply(s, l), t)
  {
    if t == l.t {
      WaiterInvSelf(s, l);
    } else {
      WaiterInvOther(s, l, t);
    }
  }

  lemma EntryInvStep(s: State, l: Label, key: string)
    requires Inv(s) && Enabled(s, l) && key in Apply(s, l).calls
    ensures EntryInv(Apply(s, l), key)
  {
    assert LeaderInv(s, l.t);
    if key in s.calls {
      assert EntryInv(s, key);
    }
  }

  lemma InvStep(s: State, l: Label)
    requires Inv(s) && Enabled(s, l)
    ensures Inv(Apply(s, l))
  {
    var s' := Apply(s, l);
    forall t: nat | t < |s'.callers|
      ensures LeaderInv(s', t) && WaiterInv(s', t)
    {
      LeaderInvStep(s, l, t);
      WaiterInvStep(s, l, t);
    }
    forall key | key in s'.calls
      ensures EntryInv(s', key)
    {
      EntryInvStep(s, l, key);
    }
  }
}
