/**
 * Progress on the cached path: whatever has happened, every request can still be answered, every answer decoded
 * and every record accounted for, in a number of steps that no schedule can stretch.
 */
module CacheProgress {
  import opened Cache
  import opened CacheAccounts
  import opened Redact
  import opened Sums
  import opened UsageTotals
  import opened Wire
  import Audit
  import B = CacheBilling
  import SF = SingleFlight

  // ---- what keeps the steps coming ----

  predicate InFlight(pc: SF.Pc) {
    pc.Leading? || pc.Executed?
  }

  /** A caller in the coalescer has a request that waits for it. */
  predicate Waits(r: Request, c: SF.Caller) {
    InFlight(c.pc) || c.pc.Joined? ==> r.pc.Missed?
  }

  /** Whoever has been joined still leads, or has published. */
  predicate Leads(cs: seq<SF.Caller>, leader: nat) {
    leader < |cs| && (InFlight(cs[leader].pc) || (cs[leader].pc.Done? && cs[leader].pc.outcome.Led?))
  }

  /** The map holds leaders that have not published. */
  predicate Flying(f: SF.State) {
    forall k :: k in f.inflight ==>
      f.inflight[k] < |f.callers| && f.callers[f.inflight[k]].key == k && InFlight(f.callers[f.inflight[k]].pc)
  }

  predicate Followed(f: SF.State) {
    && Flying(f)
    && forall t :: 0 <= t < |f.callers| && f.callers[t].pc.Joined? ==> Leads(f.callers, f.callers[t].pc.leader)
  }

  lemma FlyingStep(f: SF.State, step: SF.Label)
    requires Flying(f) && SF.Enabled(f, step)
    ensures Flying(SF.Apply(f, step))
  {
  }

  lemma LeadsStep(f: SF.State, step: SF.Label, leader: nat)
    requires SF.Enabled(f, step) && Leads(f.callers, leader)
    ensures Leads(SF.Apply(f, step).callers, leader)
  {
  }

  lemma JoinsLeader(f: SF.State, step: SF.Label, t: nat)
    requires Followed(f) && SF.Enabled(f, step) && t < |f.callers| && SF.Apply(f, step).callers[t].pc.Joined?
    ensures Leads(SF.Apply(f, step).callers, SF.Apply(f, step).callers[t].pc.leader)
  {
    LeadsStep(f, step, SF.Apply(f, step).callers[t].pc.leader);
  }

  ghost predicate Live(cfg: Config, s: State) {
    && B.Fits(cfg, s) && Followed(s.flight) && |s.audit.workers| == 3
    && forall t :: 0 <= t < |s.requests| ==> Waits(s.requests[t], s.flight.callers[t])
  }

  lemma FollowedStep(f: SF.State, step: SF.Label)
    requires Followed(f) && SF.Enabled(f, step)
    ensures Followed(SF.Apply(f, step))
  {
    FlyingStep(f, step);
    forall t | 0 <= t < |f.callers| && SF.Apply(f, step).callers[t].pc.Joined?
      ensures Leads(SF.Apply(f, step).callers, SF.Apply(f, step).callers[t].pc.leader)
    {
      JoinsLeader(f, step, t);
    }
  }

  lemma WaitsMoves(s: State, t: nat, r: Request, c: SF.Caller, s': State)
    requires B.Paired(s) && t < |s.requests| && Waits(r, c)
    requires forall u :: 0 <= u < |s.requests| ==> Waits(s.requests[u], s.flight.callers[u])
    requires s'.requests == s.requests[t := r] && s'.flight.callers == s.flight.callers[t := c]
    ensures forall u :: 0 <= u < |s'.requests| ==> Waits(s'.requests[u], s'.flight.callers[u])
  {
  }

  lemma RequestWaits(cfg: Config, s: State, l: Label)
    requires Live(cfg, s) && Enabled(cfg, s, l) && B.OfRequest(l)
    requires l.t < |s.requests| && l.t < |Apply(cfg, s, l).requests|
    ensures Waits(Apply(cfg, s, l).requests[l.t], s.flight.callers[l.t])
  {
    assert B.CallerFits((s.requests[l.t], s.flight.callers[l.t]));
    assert Waits(s.requests[l.t], s.flight.callers[l.t]);
  }

  lemma WorkersStay(cfg: Config, s: State, l: Label)
    requires Enabled(cfg, s, l)
    ensures |Apply(cfg, s, l).audit.workers| == |s.audit.workers|
  {
    B.AuditMoves(cfg, s, l);
  }

  lemma LiveStep(cfg: Config, s: State, l: Label)
    requires Live(cfg, s) && Enabled(cfg, s, l)
    ensures Live(cfg, Apply(cfg, s, l))
  {
    var s' := Apply(cfg, s, l);
    B.FitsStep(cfg, s, l);
    WorkersStay(cfg, s, l);
    if l.Flight? {
      FollowedStep(s.flight, l.step);
      B.FlightMoves(s.flight, l.step);
      FlightWaits(cfg, s, l.step);
      WaitsMoves(s, l.step.t, s.requests[l.step.t], s'.flight.callers[l.step.t], s');
    } else if B.OfRequest(l) {
      B.RequestFits(cfg, s, l);
      RequestWaits(cfg, s, l);
      WaitsMoves(s, l.t, s'.requests[l.t], s.flight.callers[l.t], s');
    }
  }

  lemma FlightWaits(cfg: Config, s: State, step: SF.Label)
    requires Live(cfg, s) && FlightEnabled(cfg, s, step)
    ensures Waits(s.requests[step.t], SF.Apply(s.flight, step).callers[step.t])
  {
    assert Waits(s.requests[step.t], s.flight.callers[step.t]);
  }

  lemma InitialLive(cfg: Config, s: State, day: string)
    requires Initial(cfg, s, day)
    ensures Live(cfg, s)
  {
    forall t | 0 <= t < |s.requests|
      ensures s.flight.callers[t].pc == SF.Idle && s.requests[t].pc == Arrived
    {
      assert Fresh(cfg, s.requests[t], s.flight.callers[t]);
    }
  }

  lemma {:induction false} LiveAfter(cfg: Config, s: State, run: seq<Label>)
    requires Live(cfg, s) && Runnable(cfg, s, run)
    ensures Live(cfg, After(cfg, s, run))
    decreases run
  {
    if run == [] {
    } else {
      LiveStep(cfg, s, run[0]);
      LiveAfter(cfg, Apply(cfg, s, run[0]), run[1..]);
    }
  }

  // ---- how much is left to do ----

  function FlightRank(pc: SF.Pc): nat {
    match pc
    case Idle => 4
    case Leading => 3
    case Executed(_) => 2
    case Joined(_) => 1
    case Done(_) => 0
  }

  /** The steps a request may still take. */
  function Rank(p: B.Slotted): nat {
    match p.0.pc
    case Arrived => 7
    case Keyed(_) => 6
    case Missed(_, _) => 1 + FlightRank(p.1.pc)
    case Ran(_, _, _) => 1
    case Answered(_) => 0
  }

  function Ranks(): B.Slotted -> int {
    (p: B.Slotted) => Rank(p)
  }

  function One(): Audit.Record -> int {
    (r: Audit.Record) => 1
  }

  /** A queued record is yet to be taken and accounted for, a held one to be accounted for. */
  function AuditLoad(a: Audit.State): int {
    2 * |a.queue| + Sum(Audit.IfHeld(One()), a.workers)
  }

  function RequestLoad(s: State): int
    requires B.Paired(s)
  {
    Sum(Ranks(), B.Zip(s.requests, s.flight.callers))
  }

  /** All that is left to do. Answering a request may leave an answer to decode, a body to store and a record. */
  function Load(s: State): int
    requires B.Paired(s)
  {
    7 * RequestLoad(s) + 3 * |s.emits| + |s.stores| + AuditLoad(s.audit)
  }

  /** The gateway's own steps; what is left may happen at any time or never. */
  predicate Own(l: Label) {
    match l
    case FailOver(_, _) => false
    case Expire(_) => false
    case Flight(step) => !step.CancelCtx?
    case Work(work) => !work.NextDay?
    case _ => true
  }

  lemma LoadIsNat(s: State)
    requires B.Paired(s)
    ensures RequestLoad(s) >= 0 && AuditLoad(s.audit) >= 0 && Load(s) >= 0
  {
    SumBounds(Ranks(), B.Zip(s.requests, s.flight.callers), 0, 7);
    SumBounds(Audit.IfHeld(One()), s.audit.workers, 0, 1);
  }

  lemma RequestLoadMoves(s: State, t: nat, r: Request, c: SF.Caller, s': State)
    requires B.Paired(s) && B.Paired(s') && t < |s.requests|
    requires s'.requests == s.requests[t := r] && s'.flight.callers == s.flight.callers[t := c]
    ensures RequestLoad(s') == RequestLoad(s) - Rank((s.requests[t], s.flight.callers[t])) + Rank((r, c))
  {
    B.ZipUpdate(s.requests, s.flight.callers, t, r, c);
    SumUpdate(Ranks(), B.Zip(s.requests, s.flight.callers), t, (r, c));
  }

  lemma AuditLoadStep(registry: Registry, a: Audit.State, l: Audit.Label)
    requires Audit.Enabled(a, l)
    ensures l.Push? ==> AuditLoad(Audit.Apply(registry, a, l)) <= AuditLoad(a) + 2
    ensures l.Take? || l.Process? ==> AuditLoad(Audit.Apply(registry, a, l)) < AuditLoad(a)
    ensures l.NextDay? ==> AuditLoad(Audit.Apply(registry, a, l)) == AuditLoad(a)
  {
    if l.Take? {
      SumUpdate(Audit.IfHeld(One()), a.workers, l.worker, Some(a.queue[0]));
    } else if l.Process? {
      SumUpdate(Audit.IfHeld(One()), a.workers, l.worker, None);
    }
  }

  /** What a step does to the load of the audit pipeline. */
  lemma PipelineLoad(cfg: Config, s: State, l: Label)
    requires Enabled(cfg, s, l)
    ensures AuditLoad(Apply(cfg, s, l).audit) <= AuditLoad(s.audit) + if l.Work? then 0 else 2
    ensures l.Work? && Own(l) ==> AuditLoad(Apply(cfg, s, l).audit) < AuditLoad(s.audit)
    ensures !Own(l) ==> AuditLoad(Apply(cfg, s, l).audit) == AuditLoad(s.audit)
  {
    var a := B.AuditLabel(cfg, s, l);
    B.AuditMoves(cfg, s, l);
    if a.Some? {
      AuditLoadStep(cfg.registry, s.audit, a.value);
    }
  }

  lemma ReplyAnswers(cfg: Config, s: State, t: nat)
    requires Live(cfg, s) && Enabled(cfg, s, Reply(t))
    ensures t < |Replied(cfg, s, t).requests| && Replied(cfg, s, t).requests[t].pc.Answered?
  {
    assert B.CallerFits((s.requests[t], s.flight.callers[t]));
  }

  lemma RequestRanks(cfg: Config, s: State, l: Label)
    requires Live(cfg, s) && Enabled(cfg, s, l) && B.OfRequest(l)
    requires l.t < |s.requests| && l.t < |Apply(cfg, s, l).requests|
    ensures var after, before := (Apply(cfg, s, l).requests[l.t], s.flight.callers[l.t]),
                                 (s.requests[l.t], s.flight.callers[l.t]);
      if l.FailOver? then Rank(after) == Rank(before) else Rank(after) < Rank(before)
  {
    if l.Reply? {
      ReplyAnswers(cfg, s, l.t);
    }
  }

  lemma Leftovers(cfg: Config, s: State, l: Label)
    requires Enabled(cfg, s, l) && (B.OfRequest(l) || l.Flight?)
    ensures |Apply(cfg, s, l).emits| <= |s.emits| + if Own(l) then 1 else 0
    ensures |Apply(cfg, s, l).stores| <= |s.stores| + if Own(l) then 1 else 0
  {
  }

  lemma RequestLoads(cfg: Config, s: State, l: Label)
    requires Live(cfg, s) && Enabled(cfg, s, l) && B.OfRequest(l)
    ensures B.Paired(Apply(cfg, s, l))
    ensures if Own(l) then Load(Apply(cfg, s, l)) < Load(s) else Load(Apply(cfg, s, l)) <= Load(s)
  {
    var s' := Apply(cfg, s, l);
    B.RequestFits(cfg, s, l);
    RequestRanks(cfg, s, l);
    RequestLoadMoves(s, l.t, s'.requests[l.t], s.flight.callers[l.t], s');
    PipelineLoad(cfg, s, l);
    Leftovers(cfg, s, l);
  }

  lemma FlightLoads(cfg: Config, s: State, l: Label)
    requires Live(cfg, s) && Enabled(cfg, s, l) && l.Flight?
    ensures B.Paired(Apply(cfg, s, l))
    ensures if Own(l) then Load(Apply(cfg, s, l)) < Load(s) else Load(Apply(cfg, s, l)) <= Load(s)
  {
    var s' := Apply(cfg, s, l);
    B.FlightMoves(s.flight, l.step);
    RequestLoadMoves(s, l.step.t, s.requests[l.step.t], s'.flight.callers[l.step.t], s');
  }

  /** Every step of the gateway's own leaves less to do, and no other step adds anything. */
  lemma LoadStep(cfg: Config, s: State, l: Label)
    requires Live(cfg, s) && Enabled(cfg, s, l)
    ensures B.Paired(Apply(cfg, s, l))
    ensures if Own(l) then Load(Apply(cfg, s, l)) < Load(s) else Load(Apply(cfg, s, l)) <= Load(s)
  {
    if B.OfRequest(l) {
      RequestLoads(cfg, s, l);
    } else if l.Flight? {
      FlightLoads(cfg, s, l);
    } else {
      PipelineLoad(cfg, s, l);
    }
  }

  /** How many of the steps are the gateway's own. */
  function OwnSteps(run: seq<Label>): nat {
    if run == [] then 0 else (if Own(run[0]) then 1 else 0) + OwnSteps(run[1..])
  }

  lemma {:induction false} LoadAfter(cfg: Config, s: State, run: seq<Label>)
    requires Live(cfg, s) && Runnable(cfg, s, run)
    ensures B.Paired(After(cfg, s, run)) && OwnSteps(run) + Load(After(cfg, s, run)) <= Load(s)
    decreases run
  {
    if run == [] {
    } else {
      LiveStep(cfg, s, run[0]);
      LoadStep(cfg, s, run[0]);
      LoadAfter(cfg, Apply(cfg, s, run[0]), run[1..]);
    }
  }

  /** However it is scheduled, and whatever expires, fails or is cancelled, no request costs more than 49 steps. */
  lemma StepsAreBounded(cfg: Config, s: State, day: string, run: seq<Label>)
    requires Initial(cfg, s, day) && Runnable(cfg, s, run)
    ensures OwnSteps(run) <= 49 * |s.requests|
  {
    InitialLive(cfg, s, day);
    LoadAfter(cfg, s, run);
    LoadIsNat(After(cfg, s, run));
    SumBounds(Ranks(), B.Zip(s.requests, s.flight.callers), 0, 7);
    Audit.IdleHoldsNothing(One(), s.audit.workers);
  }

  // ---- somebody can always move ----

  predicate AllAnswered(s: State) {
    forall t :: 0 <= t < |s.requests| ==> s.requests[t].pc.Answered?
  }

  /** Nothing is left to do. */
  predicate Settled(s: State) {
    AllAnswered(s) && s.stores == [] && s.emits == [] && Audit.Drained(s.audit)
  }

  /** The step that brings an unanswered request, or the leader it waits for, closer to its answer. */
  lemma RequestMoves(cfg: Config, s: State, t: nat, resp: Response) returns (l: Label)
    requires Live(cfg, s) && t < |s.requests| && !s.requests[t].pc.Answered?
    ensures Enabled(cfg, s, l) && Own(l)
  {
    match s.requests[t].pc
    case Arrived => l := BuildKey(t);
    case Keyed(_) => l := Ask(t, Unavailable);
    case Ran(_, _, _) => l := Reply(t);
    case Missed(_, _) =>
      if cfg.coalesce {
        l := CoalescerMoves(cfg, s, t, resp);
      } else {
        l := RunAlone(t, resp);
      }
  }

  lemma CoalescerMoves(cfg: Config, s: State, t: nat, resp: Response) returns (l: Label)
    requires Live(cfg, s) && cfg.coalesce && t < |s.requests| && s.requests[t].pc.Missed?
    ensures Enabled(cfg, s, l) && Own(l)
  {
    match s.flight.callers[t].pc
    case Idle => l := Flight(if s.flight.callers[t].key in s.flight.inflight then SF.Join(t) else SF.Lead(t));
    case Joined(leader) =>
      assert Leads(s.flight.callers, leader) && Waits(s.requests[leader], s.flight.callers[leader]);
      l := if s.flight.callers[leader].pc.Done? then Flight(SF.Deliver(t)) else LeaderStep(s, leader, resp);
    case Done(_) => l := Reply(t);
    case _ => l := LeaderStep(s, t, resp);
  }

  function LeaderStep(s: State, leader: nat, resp: Response): Label
    requires leader < |s.flight.callers|
  {
    if s.flight.callers[leader].pc.Leading? then Flight(SF.Execute(leader, Result(Some(resp), None)))
    else Flight(SF.Publish(leader))
  }

  lemma WorkerMoves(cfg: Config, s: State) returns (l: Label)
    requires |s.audit.workers| == 3 && !Audit.Drained(s.audit)
    ensures Enabled(cfg, s, l) && Own(l)
  {
    if w :| 0 <= w < |s.audit.workers| && s.audit.workers[w].Some? {
      l := Work(Audit.Process(w));
    } else {
      assert s.audit.workers[0].None?;
      l := Work(Audit.Take(0));
    }
  }

  /** While anything is left to do, the gateway can take a step of its own. */
  lemma SomeoneMoves(cfg: Config, s: State, resp: Response) returns (l: Label)
    requires Live(cfg, s) && !Settled(s)
    ensures Enabled(cfg, s, l) && Own(l)
  {
    if t :| 0 <= t < |s.requests| && !s.requests[t].pc.Answered? {
      l := RequestMoves(cfg, s, t, resp);
    } else if s.stores != [] {
      l := StoreDone(0);
    } else if s.emits != [] {
      l := Decode(0);
    } else {
      l := WorkerMoves(cfg, s);
    }
  }

  lemma {:induction false} CanSettle(cfg: Config, s: State, resp: Response) returns (run: seq<Label>)
    requires Live(cfg, s)
    ensures Runnable(cfg, s, run) && Settled(After(cfg, s, run)) && OwnSteps(run) == |run|
    decreases Load(s)
  {
    if Settled(s) {
      run := [];
    } else {
      var l := SomeoneMoves(cfg, s, resp);
      LiveStep(cfg, s, l);
      LoadStep(cfg, s, l);
      LoadIsNat(s);
      LoadIsNat(Apply(cfg, s, l));
      var rest := CanSettle(cfg, Apply(cfg, s, l), resp);
      run := [l] + rest;
      assert run[1..] == rest;
    }
  }

  /** From any point of any run, steps of the gateway's own answer every request and settle every account. */
  lemma {:induction false} EveryRunCanSettle(cfg: Config, s: State, day: string, run: seq<Label>, resp: Response)
    returns (more: seq<Label>)
    requires Initial(cfg, s, day) && Runnable(cfg, s, run)
    ensures Runnable(cfg, After(cfg, s, run), more) && OwnSteps(more) == |more|
    ensures Settled(After(cfg, After(cfg, s, run), more))
  {
    InitialLive(cfg, s, day);
    LiveAfter(cfg, s, run);
    more := CanSettle(cfg, After(cfg, s, run), resp);
  }

  lemma NothingUnderway(cfg: Config, w: Audit.Record -> int, z: State)
    requires B.Paired(z) && Settled(z)
    ensures B.Underway(cfg, w, z) == 0
  {
    var pairs := B.Zip(z.requests, z.flight.callers);
    forall t | 0 <= t < |pairs|
      ensures B.OnHeld(B.Billed(cfg, w))(pairs[t]) == 0
    {
      assert pairs[t] == (z.requests[t], z.flight.callers[t]);
      assert B.Holding(pairs[t]) == None;
    }
    SumBounds(B.OnHeld(B.Billed(cfg, w)), pairs, 0, 0);
    Audit.IdleHoldsNothing(w, z.audit.workers);
  }

  /**
   * Once a run has settled, the tokens of the executions made for a registered caller are those the usage table
   * holds for the caller and those dropped on a full queue; without drops, the table has them all.
   */
  lemma SettledIsCharged(cfg: Config, s: State, day: string, run: seq<Label>, f: Fingerprint)
    requires Initial(cfg, s, day) && Runnable(cfg, s, run) && Filed(cfg.registry) && Known(cfg.registry, f)
    requires Settled(After(cfg, s, run))
    ensures var z := After(cfg, s, run);
      Sum(B.OnExecution(B.Billed(cfg, TokensOf(f))), z.executions)
      == InTable(z.audit.table, f, DaysOf(z.audit.entries)) + Sum(TokensOf(f), z.audit.dropped)
  {
    CallersAreChargedExactly(cfg, s, day, run, f);
    NothingUnderway(cfg, TokensOf(f), After(cfg, s, run));
  }
}
