/** When the cached path (CacheMiddleware in internal/middleware/cache.go) serves from its cache, and what it stores. */
module CacheServes {
  import opened Cache
  import opened CacheKey
  import opened CacheSoundness
  import opened Usage
  import opened Wire
  import Audit

  /** The step neither lets the key's entry expire nor writes another one over it. */
  predicate LeavesEntry(s: State, key: string, l: Label) {
    && (l.Expire? ==> l.key != key)
    && (l.StoreDone? ==> l.i < |s.stores| && s.stores[l.i].key != key)
  }

  predicate Undisturbed(cfg: Config, s: State, key: string, run: seq<Label>)
    requires Runnable(cfg, s, run)
    decreases run
  {
    run == [] || (LeavesEntry(s, key, run[0]) && Undisturbed(cfg, Apply(cfg, s, run[0]), key, run[1..]))
  }

  lemma EntryStays(cfg: Config, s: State, key: string, l: Label)
    requires Enabled(cfg, s, l) && LeavesEntry(s, key, l) && key in s.redis
    ensures key in Apply(cfg, s, l).redis && Apply(cfg, s, l).redis[key] == s.redis[key]
  {
  }

  lemma {:induction false} EntryKept(cfg: Config, s: State, key: string, run: seq<Label>)
    requires Runnable(cfg, s, run) && Undisturbed(cfg, s, key, run) && key in s.redis
    ensures key in After(cfg, s, run).redis && After(cfg, s, run).redis[key] == s.redis[key]
    decreases run
  {
    if run == [] {
    } else {
      EntryStays(cfg, s, key, run[0]);
      EntryKept(cfg, Apply(cfg, s, run[0]), key, run[1..]);
    }
  }

  /** A stored body is served: nothing but the request's answer and one record of no tokens comes of it. */
  lemma HitMeans(cfg: Config, s: State, t: nat, body: Bytes)
    requires t < |s.requests| && s.requests[t].pc.Keyed? && body != []
    requires s.requests[t].pc.key in s.redis && s.redis[s.requests[t].pc.key] == body
    ensures var r, s' := s.requests[t], Apply(cfg, s, Ask(t, Working));
      && s'.requests == s.requests[t := r.(pc := Answered(Hit(body)))]
      && s'.executions == s.executions && s'.stores == s.stores && s'.emits == s.emits && s'.redis == s.redis
      && s'.audit.pushed == s.audit.pushed + [Audit.Record(r.fingerprint, Usage(0, 0, 0, "hit_cache"))]
  {
  }

  /**
   * Once a non-empty body is stored for a route and its entry neither expires nor is overwritten, every request
   * for the route that finds Redis working is answered with that body: it reaches no upstream, and one record
   * without tokens is pushed for it.
   */
  lemma {:induction false} StoredIsServed(
    cfg: Config, s: State, day: string, before: seq<Label>, i: nat, between: seq<Label>,
    t: nat, route: Route, body: Bytes)
    requires Initial(cfg, s, day) && Runnable(cfg, s, before)
    requires i < |After(cfg, s, before).stores|
    requires After(cfg, s, before).stores[i] == Store(KeyOf(cfg, route), body) && body != []
    requires var stored := Apply(cfg, After(cfg, s, before), StoreDone(i));
      Runnable(cfg, stored, between) && Undisturbed(cfg, stored, KeyOf(cfg, route), between)
    requires var z := After(cfg, Apply(cfg, After(cfg, s, before), StoreDone(i)), between);
      t < |z.requests| && z.requests[t].route == route && z.requests[t].pc.Keyed?
    ensures var z := After(cfg, Apply(cfg, After(cfg, s, before), StoreDone(i)), between);
      var r, z' := z.requests[t], Apply(cfg, z, Ask(t, Working));
      && z'.requests == z.requests[t := r.(pc := Answered(Hit(body)))]
      && z'.executions == z.executions && z'.stores == z.stores && z'.emits == z.emits && z'.redis == z.redis
      && z'.audit.pushed == z.audit.pushed + [Audit.Record(r.fingerprint, Usage(0, 0, 0, "hit_cache"))]
  {
    var z0 := After(cfg, s, before);
    var z1 := Apply(cfg, z0, StoreDone(i));
    InitialInv(cfg, s, day);
    InvAfter(cfg, s, before);
    InvStep(cfg, z0, StoreDone(i));
    InvAfter(cfg, z1, between);
    EntryKept(cfg, z1, KeyOf(cfg, route), between);
    var z := After(cfg, z1, between);
    assert RequestInv(cfg, z.executions, z.requests[t]);
    HitMeans(cfg, z, t, body);
  }

  /** A step of the request's own. */
  predicate Moves(l: Label, t: nat) {
    match l
    case BuildKey(u) => u == t
    case Ask(u, _) => u == t
    case FailOver(u, _) => u == t
    case RunAlone(u, _) => u == t
    case Reply(u) => u == t
    case _ => false
  }

  /** Only its own steps change a request. */
  lemma OthersStay(cfg: Config, s: State, t: nat, l: Label)
    requires Enabled(cfg, s, l) && t < |s.requests| && !Moves(l, t)
    ensures |Apply(cfg, s, l).requests| == |s.requests| && Apply(cfg, s, l).requests[t] == s.requests[t]
  {
  }

  /** A request once answered takes no step. */
  lemma AnsweredIsDone(cfg: Config, s: State, t: nat, l: Label)
    requires Enabled(cfg, s, l) && t < |s.requests| && s.requests[t].pc.Answered?
    ensures !Moves(l, t) && (l.Flight? && l.step.Execute? ==> l.step.t != t)
  {
  }

  lemma {:induction false} AnswersAreFinal(cfg: Config, s: State, t: nat, run: seq<Label>)
    requires Runnable(cfg, s, run) && t < |s.requests| && s.requests[t].pc.Answered?
    ensures |After(cfg, s, run).requests| == |s.requests| && After(cfg, s, run).requests[t] == s.requests[t]
    decreases run
  {
    if run == [] {
    } else {
      AnsweredIsDone(cfg, s, t, run[0]);
      OthersStay(cfg, s, t, run[0]);
      AnswersAreFinal(cfg, Apply(cfg, s, run[0]), t, run[1..]);
    }
  }

  // ---- what is stored ----

  /** Whether a request that Redis did not serve may write to it, once it has asked. */
  function MayStore(r: Request): Option<bool> {
    match r.pc
    case Missed(_, readable) => Some(readable)
    case Ran(_, readable, _) => Some(readable)
    case _ => None
  }

  /** The request found Redis working and its key absent. */
  predicate FoundAbsent(s: State, r: Request, reply: Reply) {
    r.pc.Keyed? && reply == Working && r.pc.key !in s.redis
  }

  lemma AskDecides(cfg: Config, s: State, t: nat, reply: Reply)
    requires Enabled(cfg, s, Ask(t, reply)) && MayStore(Asked(cfg, s, t, reply).requests[t]).Some?
    ensures MayStore(s.requests[t]) == None
    ensures MayStore(Asked(cfg, s, t, reply).requests[t]).value == FoundAbsent(s, s.requests[t], reply)
  {
  }

  lemma NothingElseDecides(cfg: Config, s: State, t: nat, l: Label)
    requires Enabled(cfg, s, l) && t < |s.requests| && Moves(l, t) && !l.Ask?
    requires MayStore(Apply(cfg, s, l).requests[t]).Some?
    ensures MayStore(Apply(cfg, s, l).requests[t]) == MayStore(s.requests[t])
  {
  }

  /** Asking Redis is the only step that decides whether an answer may be stored. */
  lemma MayStoreStep(cfg: Config, s: State, t: nat, l: Label)
    requires Enabled(cfg, s, l) && t < |s.requests| && MayStore(Apply(cfg, s, l).requests[t]).Some?
    ensures MayStore(s.requests[t]) == None ==>
      l.Ask? && l.t == t && MayStore(Apply(cfg, s, l).requests[t]).value == FoundAbsent(s, s.requests[t], l.reply)
    ensures MayStore(s.requests[t]).Some? ==> MayStore(Apply(cfg, s, l).requests[t]) == MayStore(s.requests[t])
  {
    if !Moves(l, t) {
      OthersStay(cfg, s, t, l);
    } else if l.Ask? {
      AskDecides(cfg, s, t, l.reply);
    } else {
      NothingElseDecides(cfg, s, t, l);
    }
  }

  lemma {:induction false} MayStoreKept(cfg: Config, s: State, t: nat, run: seq<Label>)
    requires Runnable(cfg, s, run) && t < |s.requests| && MayStore(s.requests[t]).Some?
    requires t < |After(cfg, s, run).requests| && MayStore(After(cfg, s, run).requests[t]).Some?
    ensures MayStore(After(cfg, s, run).requests[t]) == MayStore(s.requests[t])
    decreases run
  {
    if run == [] {
    } else {
      var s' := Apply(cfg, s, run[0]);
      StaysAnswered(cfg, s, t, run);
      MayStoreStep(cfg, s, t, run[0]);
      MayStoreKept(cfg, s', t, run[1..]);
    }
  }

  /** A request that still may or may not store has not been answered by the first step. */
  lemma {:induction false} StaysAnswered(cfg: Config, s: State, t: nat, run: seq<Label>)
    requires Runnable(cfg, s, run) && run != [] && t < |s.requests| && MayStore(s.requests[t]).Some?
    requires t < |After(cfg, s, run).requests| && MayStore(After(cfg, s, run).requests[t]).Some?
    ensures t < |Apply(cfg, s, run[0]).requests| && MayStore(Apply(cfg, s, run[0]).requests[t]).Some?
  {
    SameCount(cfg, s, run[0]);
    MovesOn(cfg, s, t, run[0]);
    if Apply(cfg, s, run[0]).requests[t].pc.Answered? {
      AnswersAreFinal(cfg, Apply(cfg, s, run[0]), t, run[1..]);
    }
  }

  lemma SameCount(cfg: Config, s: State, l: Label)
    requires Enabled(cfg, s, l)
    ensures |Apply(cfg, s, l).requests| == |s.requests|
  {
  }

  lemma MovesOn(cfg: Config, s: State, t: nat, l: Label)
    requires Enabled(cfg, s, l) && t < |s.requests| && t < |Apply(cfg, s, l).requests|
    ensures MayStore(s.requests[t]).Some? ==>
      MayStore(Apply(cfg, s, l).requests[t]).Some? || Apply(cfg, s, l).requests[t].pc.Answered?
  {
  }

  /** Whether an answer may be stored was settled when the request asked Redis. */
  lemma {:induction false} AskedWhen(cfg: Config, s: State, t: nat, run: seq<Label>) returns (p: nat)
    requires Runnable(cfg, s, run) && t < |s.requests| && MayStore(s.requests[t]) == None
    requires t < |After(cfg, s, run).requests| && MayStore(After(cfg, s, run).requests[t]).Some?
    ensures p < |run| && Runnable(cfg, s, run[..p]) && run[p].Ask? && run[p].t == t
    ensures var asked := After(cfg, s, run[..p]);
      && t < |asked.requests|
      && MayStore(After(cfg, s, run).requests[t]).value == FoundAbsent(asked, asked.requests[t], run[p].reply)
    decreases run
  {
    var s' := Apply(cfg, s, run[0]);
    SameCount(cfg, s, run[0]);
    if MayStore(s'.requests[t]).Some? {
      MayStoreStep(cfg, s, t, run[0]);
      MayStoreKept(cfg, s', t, run[1..]);
      p := 0;
    } else {
      var q := AskedWhen(cfg, s', t, run[1..]);
      p := q + 1;
      assert run[..p][1..] == run[1..][..q];
    }
  }

  /** What a reply makes of the state, by the answer the request gets. */
  predicate ReplyIs(cfg: Config, s: State, s': State, t: nat, mayStore: bool)
    requires t < |s.requests|
  {
    var r := s.requests[t];
    && |s'.requests| == |s.requests| && s'.requests == s.requests[t := r.(pc := s'.requests[t].pc)]
    && s'.redis == s.redis && s'.executions == s.executions && s'.requests[t].pc.Answered?
    && match s'.requests[t].pc.answer
       case Hit(_) => false
       case Miss(resp) =>
         && s'.emits == s.emits + [Emit(r.fingerprint, resp.body)] && s'.audit == s.audit
         && s'.stores == s.stores +
              if resp.status == 200 && mayStore && |resp.body| <= cfg.maxPayloadBytes
              then [Store(KeyOf(cfg, r.route), resp.body)] else []
       case Shared(_) =>
         && s'.emits == s.emits && s'.stores == s.stores
         && s'.audit.pushed == s.audit.pushed + [Audit.Record(r.fingerprint, Usage(0, 0, 0, "coalesced_shared"))]
       case GaveUp => s'.emits == s.emits && s'.stores == s.stores && s'.audit == s.audit
  }

  lemma OwnMeans(cfg: Config, s: State, t: nat, readable: bool, resp: Response)
    requires t < |s.requests|
    ensures ReplyIs(cfg, s, Own(cfg, s, t, KeyOf(cfg, s.requests[t].route), readable, resp), t, readable)
  {
  }

  lemma ReplyMeans(cfg: Config, s: State, t: nat)
    requires Inv(cfg, s) && Enabled(cfg, s, Reply(t))
    ensures MayStore(s.requests[t]).Some?
    ensures ReplyIs(cfg, s, Apply(cfg, s, Reply(t)), t, MayStore(s.requests[t]).value)
  {
    assert RequestInv(cfg, s.executions, s.requests[t]);
    assert CallerInv(cfg, s.executions, s.flight.callers, s.flight.callers[t]);
    var r, c := s.requests[t], s.flight.callers[t];
    if r.pc.Ran? {
      OwnMeans(cfg, s, t, r.pc.readable, r.pc.resp);
    } else if c.pc.outcome.Led? {
      OwnMeans(cfg, s, t, r.pc.readable, c.pc.outcome.result.resp.value);
    }
  }

  /**
   * In any run, a request answered by its own execution leaves a store of its body to be made exactly when the
   * status is 200, the body is within the limit, and Redis, when asked, worked and did not hold the key.
   */
  lemma {:induction false} MissIsStoredIff(cfg: Config, s: State, day: string, run: seq<Label>, t: nat) returns (p: nat)
    requires Initial(cfg, s, day) && Runnable(cfg, s, run) && Enabled(cfg, After(cfg, s, run), Reply(t))
    ensures p < |run| && Runnable(cfg, s, run[..p]) && run[p].Ask? && run[p].t == t
    ensures var z, asked := After(cfg, s, run), After(cfg, s, run[..p]);
      && t < |asked.requests| && t < |z.requests|
      && ReplyIs(cfg, z, Apply(cfg, z, Reply(t)), t, FoundAbsent(asked, asked.requests[t], run[p].reply))
  {
    InitialInv(cfg, s, day);
    InvAfter(cfg, s, run);
    ReplyMeans(cfg, After(cfg, s, run), t);
    SameNumber(cfg, s, run);
    assert Fresh(cfg, s.requests[t], s.flight.callers[t]);
    p := AskedWhen(cfg, s, t, run);
  }

  lemma {:induction false} SameNumber(cfg: Config, s: State, run: seq<Label>)
    requires Runnable(cfg, s, run)
    ensures |After(cfg, s, run).requests| == |s.requests|
    decreases run
  {
    if run == [] {
    } else {
      SameCount(cfg, s, run[0]);
      SameNumber(cfg, Apply(cfg, s, run[0]), run[1..]);
    }
  }
}
