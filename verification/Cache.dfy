/**
 * The cached non-stream path (CacheMiddleware in internal/middleware/cache.go) over whole runs: any number
 * of requests, the coalescer with atomic steps, a Redis that may expire entries or fail at any time,
 * asynchronous stores, and the audit pipeline behind it. One label is one step of one goroutine.
 */
module Cache {
  import opened CacheKey
  import opened Redact
  import opened Sums
  import opened Usage
  import opened UsageTotals
  import opened Wire
  import Audit
  import SF = SingleFlight

  /** `hash` stands for SHA-256 and `parse` for the JSON decoding of an answer's usage, which may fail. */
  datatype Config = Config(
    hash: string -> string, parse: Bytes -> Option<Usage>, maxPayloadBytes: int, coalesce: bool, registry: Registry)

  function KeyOf(cfg: Config, r: Route): string {
    "llm_cache:" + cfg.hash(Preimage(r))
  }

  datatype Answer =
    | Hit(body: Bytes)
    | Miss(resp: Response)
    | Shared(resp: Response)
    | GaveUp                          // the caller's own context ended while it waited

  datatype Pc =
    | Arrived
    | Keyed(key: string)
    | Missed(key: string, readable: bool)                  // waits for an answer from upstream
    | Ran(key: string, readable: bool, resp: Response)     // has one, without coalescing
    | Answered(answer: Answer)

  /** `target` is the provider that the request's context names at the moment; failover changes it. */
  datatype Request = Request(route: Route, target: string, fingerprint: Fingerprint, pc: Pc)

  datatype Reply = Unavailable | Failure | Working

  datatype Store = Store(key: string, body: Bytes)
  datatype Emit = Emit(fingerprint: Fingerprint, body: Bytes)
  datatype Execution = Execution(route: Route, fingerprint: Fingerprint, resp: Response)

  datatype State = State(
    requests: seq<Request>,
    flight: SF.State,
    redis: map<string, Bytes>,
    stores: seq<Store>,               // goroutines about to write to Redis
    emits: seq<Emit>,                 // goroutines about to decode an answer and push its record
    unparseable: seq<Emit>,           // history: answers whose usage could not be decoded
    emitted: seq<Emit>,               // history: answers whose record was pushed
    executions: seq<Execution>,       // history: upstream executions
    audit: Audit.State)

  datatype Label =
    | BuildKey(t: nat)
    | Ask(t: nat, reply: Reply)
    | Flight(step: SF.Label)
    | FailOver(t: nat, provider: string)
    | RunAlone(t: nat, resp: Response)
    | Reply(t: nat)
    | StoreDone(i: nat)
    | StoreFails(i: nat)
    | Expire(key: string)
    | Decode(i: nat)
    | Work(work: Audit.Label)

  predicate Fresh(cfg: Config, r: Request, c: SF.Caller) {
    && r.pc == Arrived && r.target == r.route.provider
    && c == SF.Caller(KeyOf(cfg, r.route), SF.Idle, false)
  }

  predicate Initial(cfg: Config, s: State, day: string) {
    && |s.requests| == |s.flight.callers|
    && (forall t :: 0 <= t < |s.requests| ==> Fresh(cfg, s.requests[t], s.flight.callers[t]))
    && s.flight.inflight == map[] && s.redis == map[] && s.stores == [] && s.emits == []
    && s.unparseable == [] && s.emitted == [] && s.executions == []
    && s.audit == Audit.Initial(day)
  }

  /** The request is inside its upstream execution. */
  predicate Executing(cfg: Config, s: State, t: nat) {
    && t < |s.requests| && t < |s.flight.callers| && s.requests[t].pc.Missed?
    && (if cfg.coalesce then s.flight.callers[t].pc == SF.Leading else true)
  }

  predicate FlightEnabled(cfg: Config, s: State, step: SF.Label) {
    && step.t < |s.requests| && SF.Enabled(s.flight, step)
    && (step.CancelCtx? || (cfg.coalesce && s.requests[step.t].pc.Missed?))
    && (step.Execute? ==> step.result.resp.Some? && step.result.err == None)
  }

  predicate Enabled(cfg: Config, s: State, l: Label) {
    match l
    case BuildKey(t) => t < |s.requests| && s.requests[t].pc.Arrived?
    case Ask(t, reply) => t < |s.requests| && s.requests[t].pc.Keyed?
    case Flight(step) => FlightEnabled(cfg, s, step)
    case FailOver(t, provider) => Executing(cfg, s, t)
    case RunAlone(t, resp) => !cfg.coalesce && Executing(cfg, s, t)
    case Reply(t) =>
      && t < |s.requests| && t < |s.flight.callers|
      && (s.requests[t].pc.Ran? || (s.requests[t].pc.Missed? && s.flight.callers[t].pc.Done?))
    case StoreDone(i) => i < |s.stores|
    case StoreFails(i) => i < |s.stores|
    case Expire(key) => true
    case Decode(i) => i < |s.emits|
    case Work(work) => (work.Take? || work.Process? || work.NextDay?) && Audit.Enabled(s.audit, work)
  }

  function SetPc(s: State, t: nat, pc: Pc): State
    requires t < |s.requests|
  {
    s.(requests := s.requests[t := s.requests[t].(pc := pc)])
  }

  function Zero(status: string): Usage {
    Usage(0, 0, 0, status)
  }

  function Push(cfg: Config, s: State, f: Fingerprint, u: Usage): State {
    s.(audit := Audit.Apply(cfg.registry, s.audit, Audit.Push(Audit.Record(f, u))))
  }

  function ExecutionOf(r: Request, resp: Response): Execution {
    Execution(r.route, r.fingerprint, resp)
  }

  /** What Redis says to a request whose key is known. */
  function Asked(cfg: Config, s: State, t: nat, reply: Reply): State
    requires t < |s.requests| && s.requests[t].pc.Keyed?
  {
    var key := s.requests[t].pc.key;
    if reply.Working? && key in s.redis then
      if s.redis[key] != [] then
        Push(cfg, SetPc(s, t, Answered(Hit(s.redis[key]))), s.requests[t].fingerprint, Zero("hit_cache"))
      else SetPc(s, t, Missed(key, false))
    else SetPc(s, t, Missed(key, reply.Working?))
  }

  /** The answer of a request's own execution: it is audited and, if it may be, stored. */
  function Own(cfg: Config, s: State, t: nat, key: string, readable: bool, resp: Response): State
    requires t < |s.requests|
  {
    var s' := SetPc(s, t, Answered(Miss(resp))).(emits := s.emits + [Emit(s.requests[t].fingerprint, resp.body)]);
    if resp.status == 200 && readable && |resp.body| <= cfg.maxPayloadBytes
    then s'.(stores := s.stores + [Store(key, resp.body)])
    else s'
  }

  function Replied(cfg: Config, s: State, t: nat): State
    requires Enabled(cfg, s, Reply(t))
  {
    var r := s.requests[t];
    if r.pc.Ran? then Own(cfg, s, t, r.pc.key, r.pc.readable, r.pc.resp)
    else
      match s.flight.callers[t].pc.outcome
      case Cancelled => SetPc(s, t, Answered(GaveUp))
      case Led(result) =>
        if result.resp.Some? then Own(cfg, s, t, r.pc.key, r.pc.readable, result.resp.value) else s
      case Shared(_, result) =>
        if result.resp.Some? then
          Push(cfg, SetPc(s, t, Answered(Shared(result.resp.value))), r.fingerprint, Zero("coalesced_shared"))
        else s
  }

  function Decoded(cfg: Config, s: State, i: nat): State
    requires i < |s.emits|
  {
    var e, rest := s.emits[i], Remove(s.emits, i);
    match cfg.parse(e.body)
    case None => s.(emits := rest, unparseable := s.unparseable + [e])
    case Some(u) =>
      Push(cfg, s.(emits := rest, emitted := s.emitted + [e]), e.fingerprint, u)
  }

  function Apply(cfg: Config, s: State, l: Label): State
    requires Enabled(cfg, s, l)
  {
    match l
    case BuildKey(t) =>
      var r := s.requests[t];
      SetPc(s, t, Keyed(KeyOf(cfg, r.route.(provider := r.target))))
    case Ask(t, reply) => Asked(cfg, s, t, reply)
    case Flight(step) =>
      var s' := s.(flight := SF.Apply(s.flight, step));
      if step.Execute? then s'.(executions := s.executions + [ExecutionOf(s.requests[step.t], step.result.resp.value)])
      else s'
    case FailOver(t, provider) => s.(requests := s.requests[t := s.requests[t].(target := provider)])
    case RunAlone(t, resp) =>
      var pc := s.requests[t].pc;
      SetPc(s, t, Ran(pc.key, pc.readable, resp)).(executions := s.executions + [ExecutionOf(s.requests[t], resp)])
    case Reply(t) => Replied(cfg, s, t)
    case StoreDone(i) => s.(redis := s.redis[s.stores[i].key := s.stores[i].body], stores := Remove(s.stores, i))
    case StoreFails(i) => s.(stores := Remove(s.stores, i))
    case Expire(key) => s.(redis := s.redis - {key})
    case Decode(i) => Decoded(cfg, s, i)
    case Work(work) => s.(audit := Audit.Apply(cfg.registry, s.audit, work))
  }

  predicate Runnable(cfg: Config, s: State, run: seq<Label>)
    decreases run
  {
    run == [] || (Enabled(cfg, s, run[0]) && Runnable(cfg, Apply(cfg, s, run[0]), run[1..]))
  }

  function After(cfg: Config, s: State, run: seq<Label>): State
    requires Runnable(cfg, s, run)
    decreases run
  {
    if run == [] then s else After(cfg, Apply(cfg, s, run[0]), run[1..])
  }
}
