/** Where the usage of every upstream execution is, at any moment of any run of the cached path. */
module CacheBilling {
  import opened Cache
  import opened Redact
  import opened Sums
  import opened Usage
  import opened UsageTotals
  import opened Wire
  import Audit
  import SF = SingleFlight

  type Slotted = (Request, SF.Caller)

  function Zip(rs: seq<Request>, cs: seq<SF.Caller>): seq<Slotted>
    requires |rs| == |cs|
  {
    seq(|rs|, t requires 0 <= t < |rs| => (rs[t], cs[t]))
  }

  function Handover(r: Request, resp: Response): Emit {
    Emit(r.fingerprint, resp.body)
  }

  /** What a request owes for an execution it has had and not yet answered with. */
  function Holding(p: Slotted): Option<Emit> {
    if p.0.pc.Ran? then Some(Handover(p.0, p.0.pc.resp))
    else if p.0.pc.Missed? && p.1.pc.Executed? && p.1.pc.result.resp.Some? then
      Some(Handover(p.0, p.1.pc.result.resp.value))
    else if p.0.pc.Missed? && p.1.pc.Done? && p.1.pc.outcome.Led? && p.1.pc.outcome.result.resp.Some? then
      Some(Handover(p.0, p.1.pc.outcome.result.resp.value))
    else None
  }

  // A weight on answers and the callers they are charged to, carried over to the places where an answer can be.

  function WeightOf(v: Emit -> int, held: Option<Emit>): int {
    if held.Some? then v(held.value) else 0
  }

  function OnHeld(v: Emit -> int): Slotted -> int {
    (p: Slotted) => WeightOf(v, Holding(p))
  }

  function OnExecution(v: Emit -> int): Execution -> int {
    (e: Execution) => v(Emit(e.fingerprint, e.resp.body))
  }

  predicate Paired(s: State) {
    |s.requests| == |s.flight.callers|
  }

  /** Callers are idle in the coalescer until their request waits for an answer. */
  predicate CallerFits(p: Slotted) {
    (p.0.pc.Arrived? || p.0.pc.Keyed? ==> p.1.pc == SF.Idle) &&
    (p.1.pc.Executed? ==> p.1.pc.result.resp.Some?) &&
    (p.1.pc.Done? && !p.1.pc.outcome.Cancelled? ==> p.1.pc.outcome.result.resp.Some?)
  }

  predicate Fits(cfg: Config, s: State) {
    && Paired(s)
    && (forall t :: 0 <= t < |s.requests| ==> CallerFits((s.requests[t], s.flight.callers[t])))
    && (!cfg.coalesce ==> forall t :: 0 <= t < |s.flight.callers| ==> s.flight.callers[t].pc == SF.Idle)
  }

  /** Weighed in any way, the executions are those held, waiting to be decoded, undecodable and emitted. */
  ghost predicate Placed(v: Emit -> int, s: State)
    requires Paired(s)
  {
    Sum(OnExecution(v), s.executions) ==
    Sum(OnHeld(v), Zip(s.requests, s.flight.callers)) + Sum(v, s.emits) + Sum(v, s.unparseable) + Sum(v, s.emitted)
  }

  lemma ZipUpdate(rs: seq<Request>, cs: seq<SF.Caller>, t: nat, r: Request, c: SF.Caller)
    requires |rs| == |cs| && t < |rs|
    ensures Zip(rs[t := r], cs[t := c]) == Zip(rs, cs)[t := (r, c)]
  {
  }

  /** One request and its caller move on. */
  lemma HeldMoves(v: Emit -> int, rs: seq<Request>, cs: seq<SF.Caller>, t: nat, r: Request, c: SF.Caller)
    requires |rs| == |cs| && t < |rs|
    ensures Sum(OnHeld(v), Zip(rs[t := r], cs[t := c]))
         == Sum(OnHeld(v), Zip(rs, cs)) - OnHeld(v)((rs[t], cs[t])) + OnHeld(v)((r, c))
  {
    ZipUpdate(rs, cs, t, r, c);
    SumUpdate(OnHeld(v), Zip(rs, cs), t, (r, c));
  }

  /** A flight step changes the caller that moves and no other. */
  lemma FlightMoves(f: SF.State, step: SF.Label)
    requires SF.Enabled(f, step)
    ensures SF.Apply(f, step).callers == f.callers[step.t := SF.Apply(f, step).callers[step.t]]
  {
  }

  /** Only one request, or its caller, changes; the pair still fits. */
  lemma FitsMoves(cfg: Config, s: State, t: nat, r: Request, c: SF.Caller, s': State)
    requires Fits(cfg, s) && t < |s.requests| && CallerFits((r, c)) && (cfg.coalesce || c.pc == SF.Idle)
    requires s'.requests == s.requests[t := r] && s'.flight.callers == s.flight.callers[t := c]
    ensures Fits(cfg, s')
  {
  }

  lemma DeliveredFits(cfg: Config, s: State, step: SF.Label)
    requires Fits(cfg, s) && FlightEnabled(cfg, s, step)
    ensures CallerFits((s.requests[step.t], SF.Apply(s.flight, step).callers[step.t]))
  {
    assert CallerFits((s.requests[step.t], s.flight.callers[step.t]));
    if step.Deliver? {
      var leader := s.flight.callers[step.t].pc.leader;
      assert CallerFits((s.requests[leader], s.flight.callers[leader]));
    }
  }

  lemma FitsStep(cfg: Config, s: State, l: Label)
    requires Fits(cfg, s) && Enabled(cfg, s, l)
    ensures Fits(cfg, Apply(cfg, s, l))
  {
    var s' := Apply(cfg, s, l);
    if l.Flight? {
      FlightMoves(s.flight, l.step);
      DeliveredFits(cfg, s, l.step);
      FitsMoves(cfg, s, l.step.t, s.requests[l.step.t], s'.flight.callers[l.step.t], s');
    } else if l.BuildKey? || l.Ask? || l.FailOver? || l.RunAlone? || l.Reply? {
      RequestFits(cfg, s, l);
      FitsMoves(cfg, s, l.t, s'.requests[l.t], s.flight.callers[l.t], s');
    }
  }

  predicate OfRequest(l: Label) {
    l.BuildKey? || l.Ask? || l.FailOver? || l.RunAlone? || l.Reply?
  }

  lemma RequestFits(cfg: Config, s: State, l: Label)
    requires Fits(cfg, s) && Enabled(cfg, s, l) && OfRequest(l)
    ensures l.t < |s.requests|
    ensures Apply(cfg, s, l).flight == s.flight
    ensures |Apply(cfg, s, l).requests| == |s.requests|
    ensures Apply(cfg, s, l).requests == s.requests[l.t := Apply(cfg, s, l).requests[l.t]]
    ensures CallerFits((Apply(cfg, s, l).requests[l.t], s.flight.callers[l.t]))
  {
    assert CallerFits((s.requests[l.t], s.flight.callers[l.t]));
  }

  function Held(s: State, t: nat): Option<Emit>
    requires Paired(s) && t < |s.requests|
  {
    Holding((s.requests[t], s.flight.callers[t]))
  }

  /** A request's step either leaves the books alone, enters an execution it now holds, or hands over what it held. */
  lemma RequestBooks(cfg: Config, s: State, l: Label)
    requires Fits(cfg, s) && Enabled(cfg, s, l) && OfRequest(l)
    ensures l.t < |s.requests| && Paired(Apply(cfg, s, l))
    ensures Apply(cfg, s, l).unparseable == s.unparseable && Apply(cfg, s, l).emitted == s.emitted
    ensures l.RunAlone? ==>
      && Held(s, l.t) == None && Held(Apply(cfg, s, l), l.t) == Some(Handover(s.requests[l.t], l.resp))
      && Apply(cfg, s, l).executions == s.executions + [ExecutionOf(s.requests[l.t], l.resp)]
    ensures !l.RunAlone? ==> Apply(cfg, s, l).executions == s.executions
    ensures l.Reply? && Held(s, l.t).Some? ==>
      && Held(Apply(cfg, s, l), l.t) == None
      && Apply(cfg, s, l).emits == s.emits + [Held(s, l.t).value]
    ensures !(l.Reply? && Held(s, l.t).Some?) ==> Apply(cfg, s, l).emits == s.emits
    ensures !l.RunAlone? && !l.Reply? ==> Held(Apply(cfg, s, l), l.t) == Held(s, l.t)
    ensures l.Reply? ==> Held(Apply(cfg, s, l), l.t) == None
  {
    assert CallerFits((s.requests[l.t], s.flight.callers[l.t]));
  }

  /** If what a request gives up or takes on balances, so do the books. */
  lemma Rebalance(v: Emit -> int, s: State, s': State, t: nat)
    requires Paired(s) && Paired(s') && t < |s.requests| == |s'.requests| && Placed(v, s)
    requires s'.requests == s.requests[t := s'.requests[t]]
    requires s'.flight.callers == s.flight.callers[t := s'.flight.callers[t]]
    requires s'.unparseable == s.unparseable && s'.emitted == s.emitted
    requires WeightOf(v, Held(s', t)) + Sum(v, s'.emits) - Sum(OnExecution(v), s'.executions)
          == WeightOf(v, Held(s, t)) + Sum(v, s.emits) - Sum(OnExecution(v), s.executions)
    ensures Placed(v, s')
  {
    HeldMoves(v, s.requests, s.flight.callers, t, s'.requests[t], s'.flight.callers[t]);
  }

  lemma RequestPlaced(v: Emit -> int, cfg: Config, s: State, l: Label)
    requires Fits(cfg, s) && Placed(v, s) && Enabled(cfg, s, l) && OfRequest(l)
    ensures Paired(Apply(cfg, s, l)) && Placed(v, Apply(cfg, s, l))
  {
    RequestFits(cfg, s, l);
    RequestBooks(cfg, s, l);
    BooksBalance(v, cfg, s, l, Apply(cfg, s, l));
  }

  lemma BooksBalance(v: Emit -> int, cfg: Config, s: State, l: Label, s': State)
    requires Paired(s) && Paired(s') && Placed(v, s) && OfRequest(l) && l.t < |s.requests|
    requires s'.flight == s.flight && |s'.requests| == |s.requests|
    requires s'.requests == s.requests[l.t := s'.requests[l.t]]
    requires s'.unparseable == s.unparseable && s'.emitted == s.emitted
    requires l.RunAlone? ==> Held(s, l.t) == None && Held(s', l.t) == Some(Handover(s.requests[l.t], l.resp))
    requires l.RunAlone? ==> s'.executions == s.executions + [ExecutionOf(s.requests[l.t], l.resp)]
    requires !l.RunAlone? ==> s'.executions == s.executions
    requires l.Reply? ==> Held(s', l.t) == None
    requires if l.Reply? && Held(s, l.t).Some?
             then s'.emits == s.emits + [Held(s, l.t).value]
             else s'.emits == s.emits
    requires !l.RunAlone? && !l.Reply? ==> Held(s', l.t) == Held(s, l.t)
    ensures Placed(v, s')
  {
    if l.RunAlone? {
      SumAppend(OnExecution(v), s.executions, ExecutionOf(s.requests[l.t], l.resp));
    } else if l.Reply? && Held(s, l.t).Some? {
      SumAppend(v, s.emits, Held(s, l.t).value);
    }
    Rebalance(v, s, s', l.t);
  }

  /** Only executing gives a caller something to hold; publishing keeps it. */
  lemma FlightHolds(cfg: Config, s: State, step: SF.Label)
    requires Fits(cfg, s) && FlightEnabled(cfg, s, step)
    ensures Holding((s.requests[step.t], SF.Apply(s.flight, step).callers[step.t]))
         == if step.Execute? then Some(Handover(s.requests[step.t], step.result.resp.value))
            else Holding((s.requests[step.t], s.flight.callers[step.t]))
    ensures step.Execute? ==> Holding((s.requests[step.t], s.flight.callers[step.t])) == None
  {
  }

  lemma FlightPlaced(v: Emit -> int, cfg: Config, s: State, step: SF.Label)
    requires Fits(cfg, s) && Placed(v, s) && Enabled(cfg, s, Flight(step))
    ensures Paired(Apply(cfg, s, Flight(step))) && Placed(v, Apply(cfg, s, Flight(step)))
  {
    var s' := Apply(cfg, s, Flight(step));
    FlightMoves(s.flight, step);
    FlightHolds(cfg, s, step);
    FlightBalances(v, s, step, s');
  }

  lemma FlightBalances(v: Emit -> int, s: State, step: SF.Label, s': State)
    requires Paired(s) && Paired(s') && Placed(v, s) && step.t < |s.requests| && s'.requests == s.requests
    requires s'.flight.callers == s.flight.callers[step.t := s'.flight.callers[step.t]]
    requires s'.emits == s.emits && s'.unparseable == s.unparseable && s'.emitted == s.emitted
    requires step.Execute? ==> step.result.resp.Some? && Held(s, step.t) == None
    requires if step.Execute? then
        && Held(s', step.t) == Some(Handover(s.requests[step.t], step.result.resp.value))
        && s'.executions == s.executions + [ExecutionOf(s.requests[step.t], step.result.resp.value)]
      else Held(s', step.t) == Held(s, step.t) && s'.executions == s.executions
    ensures Placed(v, s')
  {
    if step.Execute? {
      SumAppend(OnExecution(v), s.executions, ExecutionOf(s.requests[step.t], step.result.resp.value));
    }
    Rebalance(v, s, s', step.t);
  }

  lemma DecodePlaced(v: Emit -> int, cfg: Config, s: State, i: nat)
    requires Paired(s) && Placed(v, s) && i < |s.emits|
    ensures Paired(Decoded(cfg, s, i)) && Placed(v, Decoded(cfg, s, i))
  {
    SumRemove(v, s.emits, i);
    SumAppend(v, s.unparseable, s.emits[i]);
    SumAppend(v, s.emitted, s.emits[i]);
  }

  lemma PlacedStep(v: Emit -> int, cfg: Config, s: State, l: Label)
    requires Fits(cfg, s) && Placed(v, s) && Enabled(cfg, s, l)
    ensures Paired(Apply(cfg, s, l)) && Placed(v, Apply(cfg, s, l))
  {
    if OfRequest(l) {
      RequestPlaced(v, cfg, s, l);
    } else if l.Flight? {
      FlightPlaced(v, cfg, s, l.step);
    } else if l.Decode? {
      DecodePlaced(v, cfg, s, l.i);
    }
  }

  // ---- what the pushed records are worth ----

  /** What the record of an answer weighs, nothing if its usage cannot be decoded. */
  function Billed(cfg: Config, w: Audit.Record -> int): Emit -> int {
    (e: Emit) => if cfg.parse(e.body).Some? then w(Audit.Record(e.fingerprint, cfg.parse(e.body).value)) else 0
  }

  /** Records of hits and of shared answers weigh nothing, whoever they are charged to. */
  ghost predicate FreeOfCharge(w: Audit.Record -> int) {
    forall f :: w(Audit.Record(f, Zero("hit_cache"))) == 0 && w(Audit.Record(f, Zero("coalesced_shared"))) == 0
  }

  ghost predicate Worth(cfg: Config, w: Audit.Record -> int, s: State) {
    Sum(w, s.audit.pushed) == Sum(Billed(cfg, w), s.emitted) && Sum(Billed(cfg, w), s.unparseable) == 0
  }

  predicate PushesFree(before: seq<Audit.Record>, after: seq<Audit.Record>) {
    && |after| == |before| + 1 && after[..|before|] == before
    && (after[|before|].usage == Zero("hit_cache") || after[|before|].usage == Zero("coalesced_shared"))
  }

  /** A step pushes nothing, a free record, or the record of the answer it decodes. */
  predicate Bills(cfg: Config, s: State, l: Label, s': State)
    requires l.Decode? ==> l.i < |s.emits|
  {
    if l.Decode? then
      var e := s.emits[l.i];
      match cfg.parse(e.body)
      case None => s'.audit == s.audit && s'.emitted == s.emitted && s'.unparseable == s.unparseable + [e]
      case Some(u) =>
        && s'.audit.pushed == s.audit.pushed + [Audit.Record(e.fingerprint, u)]
        && s'.emitted == s.emitted + [e] && s'.unparseable == s.unparseable
    else
      && s'.emitted == s.emitted && s'.unparseable == s.unparseable
      && (s'.audit.pushed == s.audit.pushed || PushesFree(s.audit.pushed, s'.audit.pushed))
  }

  lemma StepBills(cfg: Config, s: State, l: Label)
    requires Fits(cfg, s) && Enabled(cfg, s, l)
    ensures Bills(cfg, s, l, Apply(cfg, s, l))
  {
  }

  lemma WorthStep(cfg: Config, w: Audit.Record -> int, s: State, l: Label)
    requires FreeOfCharge(w) && Fits(cfg, s) && Worth(cfg, w, s) && Enabled(cfg, s, l)
    ensures Worth(cfg, w, Apply(cfg, s, l))
  {
    StepBills(cfg, s, l);
    WorthKept(cfg, w, s, l, Apply(cfg, s, l));
  }

  lemma FreeRecord(w: Audit.Record -> int, r: Audit.Record)
    requires FreeOfCharge(w) && (r.usage == Zero("hit_cache") || r.usage == Zero("coalesced_shared"))
    ensures w(r) == 0
  {
    assert r == Audit.Record(r.fingerprint, r.usage);
  }

  lemma WorthKept(cfg: Config, w: Audit.Record -> int, s: State, l: Label, s': State)
    requires FreeOfCharge(w) && Worth(cfg, w, s)
    requires (l.Decode? ==> l.i < |s.emits|) && Bills(cfg, s, l, s')
    ensures Worth(cfg, w, s')
  {
    var before := s.audit.pushed;
    if l.Decode? {
      var e := s.emits[l.i];
      if cfg.parse(e.body).Some? {
        SumAppend(w, before, Audit.Record(e.fingerprint, cfg.parse(e.body).value));
        SumAppend(Billed(cfg, w), s.emitted, e);
      } else {
        SumAppend(Billed(cfg, w), s.unparseable, e);
      }
    } else if s'.audit.pushed != before {
      FreeRecord(w, s'.audit.pushed[|before|]);
      assert s'.audit.pushed[..|s'.audit.pushed| - 1] == before;
    }
  }

  /** The step of the audit pipeline that a step takes along, if any. */
  function AuditLabel(cfg: Config, s: State, l: Label): Option<Audit.Label>
    requires Enabled(cfg, s, l)
  {
    match l
    case Work(work) => Some(work)
    case Ask(t, reply) =>
      if Apply(cfg, s, l).requests[t].pc.Answered? then
        Some(Audit.Push(Audit.Record(s.requests[t].fingerprint, Zero("hit_cache"))))
      else None
    case Reply(t) =>
      var pc := s.flight.callers[t].pc;
      if s.requests[t].pc.Missed? && pc.outcome.Shared? && pc.outcome.result.resp.Some? then
        Some(Audit.Push(Audit.Record(s.requests[t].fingerprint, Zero("coalesced_shared"))))
      else None
    case Decode(i) =>
      var u := cfg.parse(s.emits[i].body);
      if u.Some? then Some(Audit.Push(Audit.Record(s.emits[i].fingerprint, u.value))) else None
    case _ => None
  }

  lemma AuditMoves(cfg: Config, s: State, l: Label)
    requires Enabled(cfg, s, l)
    ensures var a := AuditLabel(cfg, s, l);
      && (a.Some? ==> Audit.Enabled(s.audit, a.value))
      && Apply(cfg, s, l).audit == if a.None? then s.audit else Audit.Apply(cfg.registry, s.audit, a.value)
  {
  }

  lemma AuditStep(w: Audit.Record -> int, cfg: Config, s: State, l: Label)
    requires Enabled(cfg, s, l)
    requires Audit.Conserved(w, s.audit) && Audit.WithinBounds(s.audit)
    ensures Audit.Conserved(w, Apply(cfg, s, l).audit) && Audit.WithinBounds(Apply(cfg, s, l).audit)
  {
    var a := AuditLabel(cfg, s, l);
    AuditMoves(cfg, s, l);
    if a.Some? {
      Audit.StepConserves(w, cfg.registry, s.audit, a.value);
    }
  }

  lemma TableStep(cfg: Config, s: State, l: Label)
    requires Enabled(cfg, s, l) && s.audit.table == TableAfter(cfg.registry, s.audit.entries)
    ensures Apply(cfg, s, l).audit.table == TableAfter(cfg.registry, Apply(cfg, s, l).audit.entries)
  {
    var a := AuditLabel(cfg, s, l);
    AuditMoves(cfg, s, l);
    if a.Some? {
      Audit.TableStep(cfg.registry, s.audit, a.value);
    }
  }

  ghost predicate Inv(cfg: Config, v: Emit -> int, w: Audit.Record -> int, s: State) {
    && Fits(cfg, s) && Placed(v, s) && Worth(cfg, w, s)
    && Audit.Conserved(w, s.audit) && Audit.WithinBounds(s.audit)
    && s.audit.table == TableAfter(cfg.registry, s.audit.entries)
  }

  lemma InitialInv(cfg: Config, v: Emit -> int, w: Audit.Record -> int, s: State, day: string)
    requires Initial(cfg, s, day)
    ensures Inv(cfg, v, w, s)
  {
    forall t | 0 <= t < |s.requests|
      ensures s.flight.callers[t].pc == SF.Idle && s.requests[t].pc == Arrived
    {
      assert Fresh(cfg, s.requests[t], s.flight.callers[t]);
    }
    var pairs := Zip(s.requests, s.flight.callers);
    forall t | 0 <= t < |pairs|
      ensures OnHeld(v)(pairs[t]) == 0
    {
      assert pairs[t] == (s.requests[t], s.flight.callers[t]);
      assert Holding(pairs[t]) == None;
    }
    SumBounds(OnHeld(v), pairs, 0, 0);
    Audit.InitialConserves(w, day);
  }

  lemma {:induction false} InvAfter(cfg: Config, v: Emit -> int, w: Audit.Record -> int, s: State, run: seq<Label>)
    requires FreeOfCharge(w) && Inv(cfg, v, w, s) && Runnable(cfg, s, run)
    ensures Inv(cfg, v, w, After(cfg, s, run))
    decreases run
  {
    if run == [] {
    } else {
      var l := run[0];
      FitsStep(cfg, s, l);
      PlacedStep(v, cfg, s, l);
      WorthStep(cfg, w, s, l);
      AuditStep(w, cfg, s, l);
      TableStep(cfg, s, l);
      InvAfter(cfg, v, w, Apply(cfg, s, l), run[1..]);
    }
  }

  /**
   * Every execution is in exactly one place, with the caller it is charged to: still held by its request,
   * waiting to be decoded, undecodable, or emitted once.
   */
  lemma ExecutionsArePlacedOnce(cfg: Config, s: State, day: string, run: seq<Label>, v: Emit -> int)
    requires Initial(cfg, s, day) && Runnable(cfg, s, run)
    ensures Paired(After(cfg, s, run)) && Placed(v, After(cfg, s, run))
  {
    var free := (r: Audit.Record) => 0;
    InitialInv(cfg, v, free, s, day);
    InvAfter(cfg, v, free, s, run);
  }

  /** What weighs on the way from an execution to the workers' entries. */
  function Underway(cfg: Config, w: Audit.Record -> int, z: State): int
    requires Paired(z)
  {
    Sum(OnHeld(Billed(cfg, w)), Zip(z.requests, z.flight.callers)) + Sum(Billed(cfg, w), z.emits)
    + Sum(w, z.audit.queue) + Sum(Audit.IfHeld(w), z.audit.workers)
  }

  /**
   * Billing conservation: at any moment of any run the usage that upstream executions reported is found, to
   * the token and for any way of weighing it by caller, in answers not yet handed over or decoded, the audit
   * queue, its workers, the records dropped on a full queue, and the workers' entries. Hits and shared
   * answers add nothing. The usage table is what those entries leave.
   */
  lemma BillingIsConserved(cfg: Config, s: State, day: string, run: seq<Label>, w: Audit.Record -> int)
    requires Initial(cfg, s, day) && Runnable(cfg, s, run) && FreeOfCharge(w)
    ensures Paired(After(cfg, s, run))
    ensures var z := After(cfg, s, run);
      Sum(OnExecution(Billed(cfg, w)), z.executions)
      == Underway(cfg, w, z) + Sum(w, z.audit.dropped) + Sum(Audit.IfEntered(w), z.audit.entries)
    ensures var z := After(cfg, s, run); z.audit.table == TableAfter(cfg.registry, z.audit.entries)
  {
    InitialInv(cfg, Billed(cfg, w), w, s, day);
    InvAfter(cfg, Billed(cfg, w), w, s, run);
  }

  // ---- misses and executions ----

  function OwnAnswer(r: Request): Option<Emit> {
    if r.pc.Answered? && r.pc.answer.Miss? then Some(Handover(r, r.pc.answer.resp)) else None
  }

  function OnMiss(v: Emit -> int): Request -> int {
    (r: Request) => WeightOf(v, OwnAnswer(r))
  }

  /** What was answered as a miss is what was handed over for decoding. */
  ghost predicate Handed(v: Emit -> int, s: State) {
    Sum(OnMiss(v), s.requests) == Sum(v, s.emits) + Sum(v, s.unparseable) + Sum(v, s.emitted)
  }

  /** A request is answered as a miss exactly when it hands over the execution it held. */
  lemma MissIsHandedOver(cfg: Config, s: State, l: Label)
    requires Fits(cfg, s) && Enabled(cfg, s, l) && OfRequest(l)
    ensures l.t < |s.requests| == |Apply(cfg, s, l).requests| && OwnAnswer(s.requests[l.t]) == None
    ensures OwnAnswer(Apply(cfg, s, l).requests[l.t]) == if l.Reply? then Held(s, l.t) else None
  {
    assert CallerFits((s.requests[l.t], s.flight.callers[l.t]));
  }

  lemma HandedStep(v: Emit -> int, cfg: Config, s: State, l: Label)
    requires Fits(cfg, s) && Handed(v, s) && Enabled(cfg, s, l)
    ensures Handed(v, Apply(cfg, s, l))
  {
    if OfRequest(l) {
      RequestHanded(v, cfg, s, l);
    } else if l.Decode? {
      DecodeHanded(v, cfg, s, l.i);
    }
  }

  lemma RequestHanded(v: Emit -> int, cfg: Config, s: State, l: Label)
    requires Fits(cfg, s) && Handed(v, s) && Enabled(cfg, s, l) && OfRequest(l)
    ensures Handed(v, Apply(cfg, s, l))
  {
    RequestFits(cfg, s, l);
    RequestBooks(cfg, s, l);
    MissIsHandedOver(cfg, s, l);
    HandedMoves(v, s, l, Apply(cfg, s, l));
  }

  lemma DecodeHanded(v: Emit -> int, cfg: Config, s: State, i: nat)
    requires Handed(v, s) && i < |s.emits|
    ensures Handed(v, Decoded(cfg, s, i))
  {
    SumRemove(v, s.emits, i);
    SumAppend(v, s.unparseable, s.emits[i]);
    SumAppend(v, s.emitted, s.emits[i]);
  }

  lemma HandedMoves(v: Emit -> int, s: State, l: Label, s': State)
    requires Paired(s) && Handed(v, s) && OfRequest(l) && l.t < |s.requests| == |s'.requests|
    requires s'.requests == s.requests[l.t := s'.requests[l.t]]
    requires s'.unparseable == s.unparseable && s'.emitted == s.emitted
    requires OwnAnswer(s.requests[l.t]) == None
    requires OwnAnswer(s'.requests[l.t]) == if l.Reply? then Held(s, l.t) else None
    requires if l.Reply? && Held(s, l.t).Some?
             then s'.emits == s.emits + [Held(s, l.t).value]
             else s'.emits == s.emits
    ensures Handed(v, s')
  {
    SumUpdate(OnMiss(v), s.requests, l.t, s'.requests[l.t]);
    if l.Reply? && Held(s, l.t).Some? {
      SumAppend(v, s.emits, Held(s, l.t).value);
    }
  }

  lemma {:induction false} HandedAfter(v: Emit -> int, cfg: Config, s: State, run: seq<Label>)
    requires Fits(cfg, s) && Handed(v, s) && Runnable(cfg, s, run)
    ensures Handed(v, After(cfg, s, run))
    decreases run
  {
    if run == [] {
    } else {
      FitsStep(cfg, s, run[0]);
      HandedStep(v, cfg, s, run[0]);
      HandedAfter(v, cfg, Apply(cfg, s, run[0]), run[1..]);
    }
  }

  lemma {:induction false} NoneAnswered(v: Emit -> int, rs: seq<Request>)
    requires forall t :: 0 <= t < |rs| ==> rs[t].pc == Arrived
    ensures Sum(OnMiss(v), rs) == 0
  {
    if rs == [] {
    } else {
      NoneAnswered(v, rs[..|rs| - 1]);
    }
  }

  /**
   * Upstream executions are, one for one, the answers marked as misses and the executions still held:
   * hits, shared answers and callers that gave up cost none. With a weight of one this counts them.
   */
  lemma MissesAreExecutions(cfg: Config, s: State, day: string, run: seq<Label>, v: Emit -> int)
    requires Initial(cfg, s, day) && Runnable(cfg, s, run)
    ensures Paired(After(cfg, s, run))
    ensures var z := After(cfg, s, run);
      Sum(OnExecution(v), z.executions)
      == Sum(OnMiss(v), z.requests) + Sum(OnHeld(v), Zip(z.requests, z.flight.callers))
  {
    forall t | 0 <= t < |s.requests|
      ensures s.requests[t].pc == Arrived
    {
      assert Fresh(cfg, s.requests[t], s.flight.callers[t]);
    }
    NoneAnswered(v, s.requests);
    InitialInv(cfg, v, (r: Audit.Record) => 0, s, day);
    HandedAfter(v, cfg, s, run);
    ExecutionsArePlacedOnce(cfg, s, day, run, v);
  }
}
