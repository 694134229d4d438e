/** What each caller is charged for the upstream executions made for them, and where the charge is. */
module CacheAccounts {
  import opened Cache
  import opened CacheBilling
  import opened Redact
  import opened Sums
  import opened Text
  import opened Usage
  import opened UsageTotals
  import opened Wire
  import Audit

  /** The tokens of a caller's records. */
  function TokensOf(f: Fingerprint): Audit.Record -> int {
    (r: Audit.Record) => if r.fingerprint == f then r.usage.totalTokens else 0
  }

  /** Accounting knows the caller: entries of others reach no table. */
  predicate Known(registry: Registry, f: Fingerprint) {
    registry(f).Some? && f != NoFingerprint
  }

  /** The days on which entries were made, each once. */
  function DaysOf(es: seq<Entry>): seq<string> {
    if es == [] then []
    else
      var days := DaysOf(es[..|es| - 1]);
      if es[|es| - 1].day in days then days else days + [es[|es| - 1].day]
  }

  function DayTotal(t: Table, f: Fingerprint): string -> int {
    (day: string) => TotalOf(t, day, f)
  }

  /** What the usage table holds of a caller over the days. */
  function InTable(t: Table, f: Fingerprint, days: seq<string>): int {
    Sum(DayTotal(t, f), days)
  }

  /** The entries' own tokens for the caller and day. */
  function DaySum(f: Fingerprint, es: seq<Entry>): string -> int {
    (day: string) => Sum(On(Slot(day, f), Total()), es)
  }

  lemma {:induction false} DaysAreDistinct(es: seq<Entry>)
    ensures Distinct(DaysOf(es))
    ensures forall i :: 0 <= i < |es| ==> es[i].day in DaysOf(es)
  {
    if es == [] {
    } else {
      DaysAreDistinct(es[..|es| - 1]);
      assert forall i :: 0 <= i < |es| - 1 ==> es[i] == es[..|es| - 1][i];
    }
  }

  lemma {:induction false} SameWeights<T>(v: T -> int, w: T -> int, s: seq<T>)
    requires forall i :: 0 <= i < |s| ==> v(s[i]) == w(s[i])
    ensures Sum(v, s) == Sum(w, s)
  {
    if s == [] {
    } else {
      SameWeights(v, w, s[..|s| - 1]);
    }
  }

  /** Adding to one day's weight adds that much to the sum over distinct days that include it. */
  lemma {:induction false} OneDayMore(v: string -> int, w: string -> int, days: seq<string>, day: string, x: int)
    requires Distinct(days) && forall d :: w(d) == v(d) + if d == day then x else 0
    ensures Sum(w, days) == Sum(v, days) + if day in days then x else 0
  {
    if days == [] {
    } else {
      var n := |days| - 1;
      OneDayMore(v, w, days[..n], day, x);
      assert day in days <==> day in days[..n] || day == days[n];
    }
  }

  lemma EntryOn(f: Fingerprint, day: string, e: Entry)
    ensures On(Slot(day, f), Total())(e) == if day == e.day then Audit.IfEntered(TokensOf(f))(e) else 0
  {
    var slot := Slot(day, f);
    assert slot.day == day && slot.fingerprint == f;
    assert Audit.IfEntered(TokensOf(f))(e) == TokensOf(f)(Audit.RecordOf(e));
    assert TokensOf(f)(Audit.RecordOf(e)) == if e.fingerprint == f then e.usage.totalTokens else 0;
    assert On(slot, Total())(e) == if e.day == day && e.fingerprint == f then Total()(e.usage) else 0;
  }

  /** Summed by day and then over the days, the entries give all their tokens for the caller. */
  lemma {:induction false} EntriesByDay(f: Fingerprint, es: seq<Entry>, days: seq<string>)
    requires Distinct(days) && forall i :: 0 <= i < |es| ==> es[i].day in days
    ensures Sum(DaySum(f, es), days) == Sum(Audit.IfEntered(TokensOf(f)), es)
  {
    if es == [] {
      SumBounds(DaySum(f, []), days, 0, 0);
    } else {
      var before, e := es[..|es| - 1], es[|es| - 1];
      EntriesByDay(f, before, days);
      forall d
        ensures DaySum(f, es)(d) == DaySum(f, before)(d) + if d == e.day then Audit.IfEntered(TokensOf(f))(e) else 0
      {
        EntryOn(f, d, e);
      }
      OneDayMore(DaySum(f, before), DaySum(f, es), days, e.day, Audit.IfEntered(TokensOf(f))(e));
    }
  }

  /** The table holds all tokens of a known caller's entries, and none of any other's. */
  lemma TableHoldsEntries(registry: Registry, es: seq<Entry>, f: Fingerprint)
    requires Filed(registry)
    ensures InTable(TableAfter(registry, es), f, DaysOf(es))
         == if Known(registry, f) then Sum(Audit.IfEntered(TokensOf(f)), es) else 0
  {
    var t, days := TableAfter(registry, es), DaysOf(es);
    DaysAreDistinct(es);
    forall i | 0 <= i < |days|
      ensures DayTotal(t, f)(days[i]) == if Known(registry, f) then DaySum(f, es)(days[i]) else 0
    {
      TotalIsSum(registry, es, days[i], f);
    }
    if Known(registry, f) {
      SameWeights(DayTotal(t, f), DaySum(f, es), days);
      EntriesByDay(f, es, days);
    } else {
      SumBounds(DayTotal(t, f), days, 0, 0);
    }
  }

  /** The tokens of a caller's entries that no table holds. */
  function Unattributed(registry: Registry, f: Fingerprint, es: seq<Entry>): int {
    if Known(registry, f) then 0 else Sum(Audit.IfEntered(TokensOf(f)), es)
  }

  /**
   * At any moment of any run the tokens of the upstream executions made for a caller are those on their way,
   * those dropped on a full queue, those the usage table holds for the caller over all days, and, for a
   * caller that accounting does not know, those entered and attributed to nobody.
   */
  lemma CallersAreChargedExactly(cfg: Config, s: State, day: string, run: seq<Label>, f: Fingerprint)
    requires Initial(cfg, s, day) && Runnable(cfg, s, run) && Filed(cfg.registry)
    ensures Paired(After(cfg, s, run))
    ensures var z := After(cfg, s, run);
      Sum(OnExecution(Billed(cfg, TokensOf(f))), z.executions)
      == Underway(cfg, TokensOf(f), z) + Sum(TokensOf(f), z.audit.dropped)
         + InTable(z.audit.table, f, DaysOf(z.audit.entries)) + Unattributed(cfg.registry, f, z.audit.entries)
  {
    BillingIsConserved(cfg, s, day, run, TokensOf(f));
    TableHoldsEntries(cfg.registry, After(cfg, s, run).audit.entries, f);
  }
}
