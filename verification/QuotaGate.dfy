/**
 * The gate of the quota theorems is the one that the rate-limit handler asks (internal/middleware/ratelimit.go,
 * internal/tenant/usage.go): what it answers, in the terms of the entries that made the usage table.
 */
module QuotaGate {
  import opened Quota
  import L = RateLimit
  import opened Redact
  import opened Sums
  import opened Usage
  import opened UsageTotals
  import opened Wire
  import Audit

  /** The day's tokens of the entries on the fingerprint's slot; nothing is kept of fingerprints not registered. */
  function Used(registry: Registry, es: seq<Entry>, day: string, f: Fingerprint): int {
    if registry(f).Some? && f != NoFingerprint then Sum(On(Slot(day, f), Total()), es) else 0
  }

  /** On the table that entries leave, a caller is over quota exactly when their tokens reach a positive limit. */
  lemma {:induction false} GateIsSum(registry: Registry, es: seq<Entry>, day: string, ctx: L.AuthContext)
    requires Filed(registry)
    ensures L.OverQuotaNow(TableAfter(registry, es), day, Some(ctx)) <==>
      ctx.dailyTokenLimit > 0 && Used(registry, es, day, ctx.fingerprint) >= ctx.dailyTokenLimit
  {
    TotalIsSum(registry, es, day, ctx.fingerprint);
  }

  lemma TableStep(registry: Registry, s: State, l: Label)
    requires Enabled(registry, s, l) && s.audit.table == TableAfter(registry, s.audit.entries)
    ensures Apply(registry, s, l).audit.table == TableAfter(registry, Apply(registry, s, l).audit.entries)
  {
    match l
    case Arrive(_) =>
    case Emit(i, u) => Audit.TableStep(registry, s.audit, Audit.Push(Audit.Record(s.active[i].billed, u)));
    case Finish(_) =>
    case Work(step) => Audit.TableStep(registry, s.audit, step);
    case NextDay(d) => Audit.TableStep(registry, s.audit, Audit.NextDay(d));
  }

  lemma {:induction false} TableKept(registry: Registry, s: State, run: seq<Label>)
    requires Runnable(registry, s, run) && s.audit.table == TableAfter(registry, s.audit.entries)
    ensures After(registry, s, run).audit.table == TableAfter(registry, After(registry, s, run).audit.entries)
    decreases run
  {
    if run == [] {
    } else {
      TableStep(registry, s, run[0]);
      TableKept(registry, Apply(registry, s, run[0]), run[1..]);
    }
  }

  /** The client that a request with this context is, whoever its record will be billed to. */
  function ClientOf(ctx: L.AuthContext, billed: Fingerprint): Client {
    Client(ctx.fingerprint, ctx.dailyTokenLimit, billed)
  }

  /**
   * At any point of any run the handler turns a caller away as over quota exactly when the gate of the quota
   * theorems is shut, and that is exactly when the day's entries of the caller reach a positive limit; otherwise
   * the caller is admitted.
   */
  lemma {:induction false} HandlerAsksThisGate(
    registry: Registry, start: string, run: seq<Label>, ctx: L.AuthContext, billed: Fingerprint)
    requires Filed(registry) && Runnable(registry, Initial(start), run)
    ensures var s := After(registry, Initial(start), run);
      && (L.OverQuotaNow(s.audit.table, s.audit.day, Some(ctx)) <==> Shut(s, ClientOf(ctx, billed)))
      && (Shut(s, ClientOf(ctx, billed)) <==>
          && ctx.dailyTokenLimit > 0
          && Used(registry, s.audit.entries, s.audit.day, ctx.fingerprint) >= ctx.dailyTokenLimit)
      && Apply(registry, s, Arrive(ClientOf(ctx, billed))).admitted
         == s.admitted + if L.OverQuotaNow(s.audit.table, s.audit.day, Some(ctx)) then [] else [ClientOf(ctx, billed)]
  {
    TableKept(registry, Initial(start), run);
    var s := After(registry, Initial(start), run);
    GateIsSum(registry, s.audit.entries, s.audit.day, ctx);
  }
}
