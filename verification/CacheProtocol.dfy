/**
 * The cached path over the coalescer as it is written: the locked map, the call objects and their channels
 * (internal/middleware/cache.go) take the place of atomic single flight, and nothing a caller sees changes.
 */
module CacheProtocol {
  import opened CacheKey
  import opened Wire
  import Cache
  import CacheSoundness
  import Coalescer
  import CoalescerRefinement

  /** The gateway without its coalescer, whose part of `front` is not looked at, and the coalescer. */
  datatype State = State(front: Cache.State, protocol: Coalescer.State)

  datatype Label =
    | Gateway(step: Cache.Label)        // anything but the coalescer moves
    | Protocol(move: Coalescer.Label)   // one access to the coalescer's lock, map, objects or channels

  /** The gateway as it looks with single flight in atomic steps. */
  function View(s: State): Cache.State {
    s.front.(flight := CoalescerRefinement.Abs(s.protocol))
  }

  predicate Initial(cfg: Cache.Config, s: State, day: string) {
    Coalescer.Initial(s.protocol) && Cache.Initial(cfg, View(s), day)
  }

  function PcOf(s: State, t: nat): Coalescer.Pc
    requires t < |s.protocol.callers|
  {
    s.protocol.callers[t].pc
  }

  /** A request replies once `Do` has returned, and fails over only while its function runs. */
  predicate GatewayEnabled(cfg: Cache.Config, s: State, step: Cache.Label) {
    && !step.Flight? && Cache.Enabled(cfg, View(s), step)
    && (step.Reply? && s.front.requests[step.t].pc.Missed? ==> PcOf(s, step.t).Finished?)
    && (step.FailOver? && cfg.coalesce ==> PcOf(s, step.t).Running?)
  }

  /** A request is in the coalescer while it waits for an answer; its function always returns a response. */
  predicate ProtocolEnabled(cfg: Cache.Config, s: State, move: Coalescer.Label) {
    && move.t < |s.front.requests| && Coalescer.Enabled(s.protocol, move)
    && (move.CancelCtx? || (cfg.coalesce && s.front.requests[move.t].pc.Missed?))
    && (move.FnReturns? ==> move.result.resp.Some? && move.result.err == None)
  }

  predicate Enabled(cfg: Cache.Config, s: State, l: Label) {
    match l
    case Gateway(step) => GatewayEnabled(cfg, s, step)
    case Protocol(move) => ProtocolEnabled(cfg, s, move)
  }

  function Apply(cfg: Cache.Config, s: State, l: Label): State
    requires Enabled(cfg, s, l)
  {
    match l
    case Gateway(step) => s.(front := Cache.Apply(cfg, View(s), step))
    case Protocol(move) =>
      var s' := s.(protocol := Coalescer.Apply(s.protocol, move));
      if move.FnReturns? then
        var e := Cache.ExecutionOf(s.front.requests[move.t], move.result.resp.value);
        s'.(front := s.front.(executions := s.front.executions + [e]))
      else s'
  }

  predicate Runnable(cfg: Cache.Config, s: State, run: seq<Label>)
    decreases run
  {
    run == [] || (Enabled(cfg, s, run[0]) && Runnable(cfg, Apply(cfg, s, run[0]), run[1..]))
  }

  function After(cfg: Cache.Config, s: State, run: seq<Label>): State
    requires Runnable(cfg, s, run)
    decreases run
  {
    if run == [] then s else After(cfg, Apply(cfg, s, run[0]), run[1..])
  }

  /** The step with atomic single flight that a step stands for, if any. */
  function Mapped(cfg: Cache.Config, s: State, l: Label): Option<Cache.Label>
    requires Enabled(cfg, s, l)
  {
    match l
    case Gateway(step) => Some(step)
    case Protocol(move) =>
      var a := CoalescerRefinement.AbsLabel(s.protocol, move);
      if a.Some? then Some(Cache.Flight(a.value)) else None
  }

  lemma ProtocolMaps(cfg: Cache.Config, s: State, move: Coalescer.Label)
    requires Coalescer.Inv(s.protocol) && ProtocolEnabled(cfg, s, move)
    ensures var l := Protocol(move);
      match Mapped(cfg, s, l)
      case None => View(Apply(cfg, s, l)) == View(s)
      case Some(step) => Cache.Enabled(cfg, View(s), step) && View(Apply(cfg, s, l)) == Cache.Apply(cfg, View(s), step)
  {
    CoalescerRefinement.StepRefines(s.protocol, move);
  }

  /** Each step is a step over atomic single flight, or none. */
  lemma StepMaps(cfg: Cache.Config, s: State, l: Label)
    requires Coalescer.Inv(s.protocol) && Enabled(cfg, s, l)
    ensures Coalescer.Inv(Apply(cfg, s, l).protocol)
    ensures match Mapped(cfg, s, l)
      case None => View(Apply(cfg, s, l)) == View(s)
      case Some(step) => Cache.Enabled(cfg, View(s), step) && View(Apply(cfg, s, l)) == Cache.Apply(cfg, View(s), step)
  {
    match l
    case Gateway(step) =>
    case Protocol(move) =>
      Coalescer.InvStep(s.protocol, move);
      ProtocolMaps(cfg, s, move);
  }

  /** Every run over the written protocol is a run over atomic single flight, ending in the same view. */
  lemma {:induction false} RunMaps(cfg: Cache.Config, s: State, run: seq<Label>) returns (atomic: seq<Cache.Label>)
    requires Coalescer.Inv(s.protocol) && Runnable(cfg, s, run)
    ensures Cache.Runnable(cfg, View(s), atomic)
    ensures Cache.After(cfg, View(s), atomic) == View(After(cfg, s, run))
    decreases run
  {
    if run == [] {
      atomic := [];
    } else {
      StepMaps(cfg, s, run[0]);
      atomic := RunMaps(cfg, Apply(cfg, s, run[0]), run[1..]);
      var step := Mapped(cfg, s, run[0]);
      if step.Some? {
        Prepend(cfg, View(s), step.value, atomic);
        atomic := [step.value] + atomic;
      }
    }
  }

  lemma Prepend(cfg: Cache.Config, s: Cache.State, step: Cache.Label, rest: seq<Cache.Label>)
    requires Cache.Enabled(cfg, s, step) && Cache.Runnable(cfg, Cache.Apply(cfg, s, step), rest)
    ensures Cache.Runnable(cfg, s, [step] + rest)
    ensures Cache.After(cfg, s, [step] + rest) == Cache.After(cfg, Cache.Apply(cfg, s, step), rest)
  {
    assert ([step] + rest)[0] == step && ([step] + rest)[1..] == rest;
  }

  /** The same from the start: what callers see and what is logged is what atomic single flight would show. */
  lemma {:induction false} RunsAsAtomic(cfg: Cache.Config, s: State, day: string, run: seq<Label>)
    returns (atomic: seq<Cache.Label>)
    requires Initial(cfg, s, day) && Runnable(cfg, s, run)
    ensures Cache.Initial(cfg, View(s), day) && Cache.Runnable(cfg, View(s), atomic)
    ensures Cache.After(cfg, View(s), atomic) == View(After(cfg, s, run))
  {
    Coalescer.InvInitial(s.protocol);
    atomic := RunMaps(cfg, s, run);
  }

  /** Cache soundness over the written protocol. */
  lemma {:induction false} HitsAreSound(cfg: Cache.Config, s: State, day: string, run: seq<Label>, t: nat)
    returns (i: nat)
    requires Initial(cfg, s, day) && Runnable(cfg, s, run) && t < |After(cfg, s, run).front.requests|
    requires var z := After(cfg, s, run).front; z.requests[t].pc.Answered? && z.requests[t].pc.answer.Hit?
    requires var z := After(cfg, s, run).front;
      forall k :: 0 <= k < |z.executions| ==>
        CacheSoundness.Separate(cfg, z.executions[k].route, z.requests[t].route)
    ensures var z := After(cfg, s, run).front;
      var body := z.requests[t].pc.answer.body;
      && 0 < |body| <= cfg.maxPayloadBytes
      && i < |z.executions| && z.executions[i].route == z.requests[t].route
      && z.executions[i].resp.status == 200 && z.executions[i].resp.body == body
  {
    var atomic := RunsAsAtomic(cfg, s, day, run);
    i := CacheSoundness.HitsAreSound(cfg, View(s), day, atomic, t);
  }

  /** Over a deterministic upstream, neither the cache nor the written protocol shows in any answer. */
  lemma {:induction false} CachingIsTransparent(
    cfg: Cache.Config, s: State, day: string, run: seq<Label>, upstream: Route -> Response, t: nat)
    requires Initial(cfg, s, day) && Runnable(cfg, s, run) && t < |After(cfg, s, run).front.requests|
    requires var z := After(cfg, s, run).front;
      z.requests[t].pc.Answered? && z.requests[t].pc.answer != Cache.GaveUp
    requires var z := After(cfg, s, run).front;
      forall k :: 0 <= k < |z.executions| ==>
        && CacheSoundness.Separate(cfg, z.executions[k].route, z.requests[t].route)
        && z.executions[k].resp == upstream(z.executions[k].route)
    ensures var r := After(cfg, s, run).front.requests[t];
      CacheSoundness.StatusAndBody(r.pc.answer) == Some((upstream(r.route).status, upstream(r.route).body))
  {
    var atomic := RunsAsAtomic(cfg, s, day, run);
    CacheSoundness.CachingIsTransparent(cfg, View(s), day, atomic, upstream, t);
  }
}
