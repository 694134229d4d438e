/** Over any run, whatever a request is answered with came from an upstream execution under its own key. */
module CacheSoundness {
  import opened Cache
  import opened CacheKey
  import opened Wire
  import SF = SingleFlight

  /** Some execution under the key gave this response. */
  predicate Came(cfg: Config, es: seq<Execution>, key: string, resp: Response) {
    es != [] &&
    (Came(cfg, es[..|es| - 1], key, resp) || (KeyOf(cfg, es[|es| - 1].route) == key && es[|es| - 1].resp == resp))
  }

  /** Some execution under the key gave this body with status 200. */
  predicate CameOk(cfg: Config, es: seq<Execution>, key: string, body: Bytes) {
    es != [] &&
    (CameOk(cfg, es[..|es| - 1], key, body) ||
     (KeyOf(cfg, es[|es| - 1].route) == key && es[|es| - 1].resp.status == 200 && es[|es| - 1].resp.body == body))
  }

  predicate Storable(cfg: Config, es: seq<Execution>, key: string, body: Bytes) {
    |body| <= cfg.maxPayloadBytes && CameOk(cfg, es, key, body)
  }

  predicate ResultCame(cfg: Config, es: seq<Execution>, key: string, result: Result) {
    result.resp.Some? && result.err == None && Came(cfg, es, key, result.resp.value)
  }

  predicate AnswerCame(cfg: Config, es: seq<Execution>, key: string, answer: Answer) {
    match answer
    case Hit(body) => body != [] && Storable(cfg, es, key, body)
    case Miss(resp) => Came(cfg, es, key, resp)
    case Shared(resp) => Came(cfg, es, key, resp)
    case GaveUp => true
  }

  predicate RequestInv(cfg: Config, es: seq<Execution>, r: Request) {
    var key := KeyOf(cfg, r.route);
    match r.pc
    case Arrived => r.target == r.route.provider
    case Keyed(k) => k == key
    case Missed(k, _) => k == key
    case Ran(k, _, resp) => k == key && Came(cfg, es, key, resp)
    case Answered(answer) => AnswerCame(cfg, es, key, answer)
  }

  predicate CallerInv(cfg: Config, es: seq<Execution>, cs: seq<SF.Caller>, c: SF.Caller) {
    match c.pc
    case Idle => true
    case Leading => true
    case Executed(result) => ResultCame(cfg, es, c.key, result)
    case Joined(leader) => leader < |cs| && cs[leader].key == c.key
    case Done(outcome) => outcome.Cancelled? || ResultCame(cfg, es, c.key, outcome.result)
  }

  predicate FlightInv(cfg: Config, es: seq<Execution>, f: SF.State) {
    && (forall t :: 0 <= t < |f.callers| ==> CallerInv(cfg, es, f.callers, f.callers[t]))
    && (forall k :: k in f.inflight ==> f.inflight[k] < |f.callers| && f.callers[f.inflight[k]].key == k)
  }

  predicate SameKeys(cfg: Config, rs: seq<Request>, cs: seq<SF.Caller>) {
    |rs| == |cs| && forall t :: 0 <= t < |rs| ==> cs[t].key == KeyOf(cfg, rs[t].route)
  }

  predicate RequestsInv(cfg: Config, es: seq<Execution>, rs: seq<Request>) {
    forall t :: 0 <= t < |rs| ==> RequestInv(cfg, es, rs[t])
  }

  predicate RedisInv(cfg: Config, es: seq<Execution>, redis: map<string, Bytes>) {
    forall k :: k in redis ==> Storable(cfg, es, k, redis[k])
  }

  predicate StoresInv(cfg: Config, es: seq<Execution>, stores: seq<Store>) {
    forall i :: 0 <= i < |stores| ==> Storable(cfg, es, stores[i].key, stores[i].body)
  }

  predicate Inv(cfg: Config, s: State) {
    && SameKeys(cfg, s.requests, s.flight.callers)
    && FlightInv(cfg, s.executions, s.flight)
    && RequestsInv(cfg, s.executions, s.requests)
    && RedisInv(cfg, s.executions, s.redis)
    && StoresInv(cfg, s.executions, s.stores)
  }

  lemma {:induction false} CameAsOk(cfg: Config, es: seq<Execution>, key: string, resp: Response)
    requires Came(cfg, es, key, resp) && resp.status == 200
    ensures CameOk(cfg, es, key, resp.body)
  {
    if Came(cfg, es[..|es| - 1], key, resp) {
      CameAsOk(cfg, es[..|es| - 1], key, resp);
    }
  }

  /** A longer log of executions keeps what a shorter one shows. */
  lemma CameGrows(cfg: Config, es: seq<Execution>, e: Execution)
    ensures forall key, resp :: Came(cfg, es, key, resp) ==> Came(cfg, es + [e], key, resp)
    ensures forall key, body :: CameOk(cfg, es, key, body) ==> CameOk(cfg, es + [e], key, body)
    ensures Came(cfg, es + [e], KeyOf(cfg, e.route), e.resp)
  {
    assert (es + [e])[..|es|] == es;
  }

  lemma LogGrows(cfg: Config, s: State, e: Execution)
    requires Inv(cfg, s)
    ensures Inv(cfg, s.(executions := s.executions + [e]))
    ensures Came(cfg, s.executions + [e], KeyOf(cfg, e.route), e.resp)
  {
    CameGrows(cfg, s.executions, e);
    var es := s.executions + [e];
    forall t | 0 <= t < |s.requests|
      ensures RequestInv(cfg, es, s.requests[t])
    {
      assert RequestInv(cfg, s.executions, s.requests[t]);
    }
    forall t | 0 <= t < |s.flight.callers|
      ensures CallerInv(cfg, es, s.flight.callers, s.flight.callers[t])
    {
      assert CallerInv(cfg, s.executions, s.flight.callers, s.flight.callers[t]);
    }
  }

  lemma CallerStep(cfg: Config, es: seq<Execution>, f: SF.State, step: SF.Label, t: nat)
    requires FlightInv(cfg, es, f) && SF.Enabled(f, step) && t < |f.callers|
    requires step.Execute? ==> ResultCame(cfg, es, f.callers[step.t].key, step.result)
    ensures CallerInv(cfg, es, SF.Apply(f, step).callers, SF.Apply(f, step).callers[t])
  {
    assert CallerInv(cfg, es, f.callers, f.callers[t]);
    if step.Deliver? {
      var leader := f.callers[step.t].pc.leader;
      assert CallerInv(cfg, es, f.callers, f.callers[leader]);
      assert CallerInv(cfg, es, f.callers, f.callers[step.t]);
    }
  }

  lemma CallersKeepKeys(f: SF.State, step: SF.Label)
    requires SF.Enabled(f, step)
    ensures |SF.Apply(f, step).callers| == |f.callers|
    ensures forall t :: 0 <= t < |f.callers| ==> SF.Apply(f, step).callers[t].key == f.callers[t].key
  {
  }

  lemma FlightStep(cfg: Config, es: seq<Execution>, f: SF.State, step: SF.Label)
    requires FlightInv(cfg, es, f) && SF.Enabled(f, step)
    requires step.Execute? ==> ResultCame(cfg, es, f.callers[step.t].key, step.result)
    ensures FlightInv(cfg, es, SF.Apply(f, step))
  {
    var f' := SF.Apply(f, step);
    forall t | 0 <= t < |f'.callers|
      ensures CallerInv(cfg, es, f'.callers, f'.callers[t])
    {
      CallerStep(cfg, es, f, step, t);
    }
    CallersKeepKeys(f, step);
  }

  /** One request moves on, to a place that the log bears out. */
  lemma RequestMoves(cfg: Config, s: State, t: nat, r: Request)
    requires Inv(cfg, s) && t < |s.requests|
    requires r.route == s.requests[t].route && RequestInv(cfg, s.executions, r)
    ensures Inv(cfg, s.(requests := s.requests[t := r]))
  {
  }

  lemma OwnStep(cfg: Config, s: State, t: nat, key: string, readable: bool, resp: Response)
    requires Inv(cfg, s) && t < |s.requests| && key == KeyOf(cfg, s.requests[t].route)
    requires Came(cfg, s.executions, key, resp)
    ensures Inv(cfg, Own(cfg, s, t, key, readable, resp))
  {
    RequestMoves(cfg, s, t, s.requests[t].(pc := Answered(Miss(resp))));
    if resp.status == 200 {
      CameAsOk(cfg, s.executions, key, resp);
    }
  }

  lemma ReplyStep(cfg: Config, s: State, t: nat)
    requires Inv(cfg, s) && Enabled(cfg, s, Reply(t))
    ensures Inv(cfg, Replied(cfg, s, t))
  {
    var r, c := s.requests[t], s.flight.callers[t];
    assert RequestInv(cfg, s.executions, r);
    assert CallerInv(cfg, s.executions, s.flight.callers, c);
    if r.pc.Ran? {
      OwnStep(cfg, s, t, r.pc.key, r.pc.readable, r.pc.resp);
    } else if c.pc.outcome.Led? {
      OwnStep(cfg, s, t, r.pc.key, r.pc.readable, c.pc.outcome.result.resp.value);
    } else {
      var answer := if c.pc.outcome.Cancelled? then GaveUp else Answer.Shared(c.pc.outcome.result.resp.value);
      RequestMoves(cfg, s, t, r.(pc := Answered(answer)));
    }
  }

  lemma AskStep(cfg: Config, s: State, t: nat, reply: Reply)
    requires Inv(cfg, s) && Enabled(cfg, s, Ask(t, reply))
    ensures Inv(cfg, Asked(cfg, s, t, reply))
  {
    var r := s.requests[t];
    assert RequestInv(cfg, s.executions, r);
    RequestMoves(cfg, s, t, Asked(cfg, s, t, reply).requests[t]);
  }

  lemma ExecuteStep(cfg: Config, s: State, step: SF.Label)
    requires Inv(cfg, s) && Enabled(cfg, s, Flight(step)) && step.Execute?
    ensures Inv(cfg, Apply(cfg, s, Flight(step)))
  {
    var e := ExecutionOf(s.requests[step.t], step.result.resp.value);
    LogGrows(cfg, s, e);
    FlightStep(cfg, s.executions + [e], s.flight, step);
    CallersKeepKeys(s.flight, step);
  }

  lemma RunAloneStep(cfg: Config, s: State, t: nat, resp: Response)
    requires Inv(cfg, s) && Enabled(cfg, s, RunAlone(t, resp))
    ensures Inv(cfg, Apply(cfg, s, RunAlone(t, resp)))
  {
    var r := s.requests[t];
    var e := ExecutionOf(r, resp);
    LogGrows(cfg, s, e);
    assert RequestInv(cfg, s.executions, r);
    RequestMoves(cfg, s.(executions := s.executions + [e]), t, r.(pc := Ran(r.pc.key, r.pc.readable, resp)));
  }

  lemma InvStep(cfg: Config, s: State, l: Label)
    requires Inv(cfg, s) && Enabled(cfg, s, l)
    ensures Inv(cfg, Apply(cfg, s, l))
  {
    match l
    case BuildKey(t) =>
      assert RequestInv(cfg, s.executions, s.requests[t]);
      RequestMoves(cfg, s, t, Apply(cfg, s, l).requests[t]);
    case Ask(t, reply) => AskStep(cfg, s, t, reply);
    case Flight(step) =>
      if step.Execute? {
        ExecuteStep(cfg, s, step);
      } else {
        FlightStep(cfg, s.executions, s.flight, step);
        CallersKeepKeys(s.flight, step);
      }
    case FailOver(t, provider) =>
      assert RequestInv(cfg, s.executions, s.requests[t]);
      RequestMoves(cfg, s, t, s.requests[t].(target := provider));
    case RunAlone(t, resp) => RunAloneStep(cfg, s, t, resp);
    case Reply(t) => ReplyStep(cfg, s, t);
    case StoreDone(i) =>
    case StoreFails(i) =>
    case Expire(key) =>
    case Decode(i) =>
    case Work(work) =>
  }

  lemma InitialInv(cfg: Config, s: State, day: string)
    requires Initial(cfg, s, day)
    ensures Inv(cfg, s)
  {
    forall t | 0 <= t < |s.requests|
      ensures RequestInv(cfg, [], s.requests[t]) && CallerInv(cfg, [], s.flight.callers, s.flight.callers[t])
      ensures s.flight.callers[t].key == KeyOf(cfg, s.requests[t].route)
    {
      assert Fresh(cfg, s.requests[t], s.flight.callers[t]);
    }
  }

  lemma {:induction false} InvAfter(cfg: Config, s: State, run: seq<Label>)
    requires Inv(cfg, s) && Runnable(cfg, s, run)
    ensures Inv(cfg, After(cfg, s, run))
    decreases run
  {
    if run == [] {
    } else {
      InvStep(cfg, s, run[0]);
      InvAfter(cfg, Apply(cfg, s, run[0]), run[1..]);
    }
  }

  /** No two different preimages in play hash alike, and no route's provider or model holds a NUL. */
  predicate Separate(cfg: Config, r: Route, q: Route) {
    NulFree(r) && NulFree(q) && (cfg.hash(Preimage(r)) == cfg.hash(Preimage(q)) ==> Preimage(r) == Preimage(q))
  }

  lemma SameKeySameRoute(cfg: Config, r: Route, q: Route)
    requires Separate(cfg, r, q) && KeyOf(cfg, r) == KeyOf(cfg, q)
    ensures r == q
  {
    assert KeyOf(cfg, r)[10..] == cfg.hash(Preimage(r)) && KeyOf(cfg, q)[10..] == cfg.hash(Preimage(q));
    PreimageInjective(r, q);
  }

  lemma {:induction false} CameFromRoute(cfg: Config, es: seq<Execution>, route: Route, resp: Response) returns (i: nat)
    requires Came(cfg, es, KeyOf(cfg, route), resp)
    requires forall k :: 0 <= k < |es| ==> Separate(cfg, es[k].route, route)
    ensures i < |es| && es[i].route == route && es[i].resp == resp
  {
    var n := |es| - 1;
    if Came(cfg, es[..n], KeyOf(cfg, route), resp) {
      i := CameFromRoute(cfg, es[..n], route, resp);
    } else {
      SameKeySameRoute(cfg, es[n].route, route);
      i := n;
    }
  }

  lemma {:induction false} BodyFromRoute(cfg: Config, es: seq<Execution>, route: Route, body: Bytes) returns (i: nat)
    requires CameOk(cfg, es, KeyOf(cfg, route), body)
    requires forall k :: 0 <= k < |es| ==> Separate(cfg, es[k].route, route)
    ensures i < |es| && es[i].route == route && es[i].resp.status == 200 && es[i].resp.body == body
  {
    var n := |es| - 1;
    if CameOk(cfg, es[..n], KeyOf(cfg, route), body) {
      i := BodyFromRoute(cfg, es[..n], route, body);
    } else {
      SameKeySameRoute(cfg, es[n].route, route);
      i := n;
    }
  }

  /**
   * Cache soundness: in any run from an empty cache, whatever expires or fails, a hit is a non-empty body
   * within the payload limit that an upstream execution answered with status 200 to a request with the same
   * first candidate provider, model and upstream body.
   */
  lemma HitsAreSound(cfg: Config, s: State, day: string, run: seq<Label>, t: nat) returns (i: nat)
    requires Initial(cfg, s, day) && Runnable(cfg, s, run) && t < |After(cfg, s, run).requests|
    requires var z := After(cfg, s, run); z.requests[t].pc.Answered? && z.requests[t].pc.answer.Hit?
    requires var z := After(cfg, s, run);
      forall k :: 0 <= k < |z.executions| ==> Separate(cfg, z.executions[k].route, z.requests[t].route)
    ensures var z := After(cfg, s, run);
      var body := z.requests[t].pc.answer.body;
      && 0 < |body| <= cfg.maxPayloadBytes
      && i < |z.executions| && z.executions[i].route == z.requests[t].route
      && z.executions[i].resp.status == 200 && z.executions[i].resp.body == body
  {
    InitialInv(cfg, s, day);
    InvAfter(cfg, s, run);
    var z := After(cfg, s, run);
    assert RequestInv(cfg, z.executions, z.requests[t]);
    i := BodyFromRoute(cfg, z.executions, z.requests[t].route, z.requests[t].pc.answer.body);
  }

  function Given(answer: Answer): Option<Response> {
    match answer
    case Miss(resp) => Some(resp)
    case Shared(resp) => Some(resp)
    case _ => None
  }

  /** An answer that is not a hit, the caller's own or a shared one, is an execution for the very same route. */
  lemma AnswersAreSound(cfg: Config, s: State, day: string, run: seq<Label>, t: nat) returns (i: nat)
    requires Initial(cfg, s, day) && Runnable(cfg, s, run) && t < |After(cfg, s, run).requests|
    requires var z := After(cfg, s, run); z.requests[t].pc.Answered? && Given(z.requests[t].pc.answer).Some?
    requires var z := After(cfg, s, run);
      forall k :: 0 <= k < |z.executions| ==> Separate(cfg, z.executions[k].route, z.requests[t].route)
    ensures var z := After(cfg, s, run);
      && i < |z.executions|
      && z.executions[i].route == z.requests[t].route && z.executions[i].resp == Given(z.requests[t].pc.answer).value
  {
    InitialInv(cfg, s, day);
    InvAfter(cfg, s, run);
    var z := After(cfg, s, run);
    assert RequestInv(cfg, z.executions, z.requests[t]);
    i := CameFromRoute(cfg, z.executions, z.requests[t].route, Given(z.requests[t].pc.answer).value);
  }

  /** What a caller is sent: a hit is replayed as a 200 with the cached body. */
  function StatusAndBody(answer: Answer): Option<(int, Bytes)> {
    match answer
    case Hit(body) => Some((200, body))
    case Miss(resp) => Some((resp.status, resp.body))
    case Shared(resp) => Some((resp.status, resp.body))
    case GaveUp => None
  }

  /** Over a deterministic upstream, caching and coalescing are invisible: status and body are the upstream's own. */
  lemma CachingIsTransparent(cfg: Config, s: State, day: string, run: seq<Label>, upstream: Route -> Response, t: nat)
    requires Initial(cfg, s, day) && Runnable(cfg, s, run) && t < |After(cfg, s, run).requests|
    requires var z := After(cfg, s, run); z.requests[t].pc.Answered? && z.requests[t].pc.answer != GaveUp
    requires var z := After(cfg, s, run);
      forall k :: 0 <= k < |z.executions| ==>
        && Separate(cfg, z.executions[k].route, z.requests[t].route)
        && z.executions[k].resp == upstream(z.executions[k].route)
    ensures var r := After(cfg, s, run).requests[t];
      StatusAndBody(r.pc.answer) == Some((upstream(r.route).status, upstream(r.route).body))
  {
    var i;
    if After(cfg, s, run).requests[t].pc.answer.Hit? {
      i := HitsAreSound(cfg, s, day, run, t);
    } else {
      i := AnswersAreSound(cfg, s, day, run, t);
    }
  }
}
