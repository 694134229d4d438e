/** Exactly when the daily quota holds, its bound and its closing, for any population of clients. */
module QuotaGoverned {
  import opened Quota
  import opened QuotaTight
  import opened Redact
  import opened Sums
  import opened Usage
  import opened UsageTotals
  import opened Wire

  // ---- the two promises ----

  /** A run of these clients, with at most n requests billed to the slot unrecorded, each of at most `most` tokens. */
  ghost predicate Within(
    registry: Registry, clients: iset<Client>, start: string, run: seq<Label>, f: Fingerprint, n: int, most: int)
  {
    && most >= 0 && Runnable(registry, Initial(start), run) && OnlyFrom(clients, run)
    && EmitsAtMost(run, most) && AtMostUnrecorded(registry, Initial(start), run, f, n)
  }

  /** No run brings the slot over the bound on any day. */
  ghost predicate Bounded(registry: Registry, clients: iset<Client>, f: Fingerprint, limit: int) {
    forall start, run, n, most, d :: Within(registry, clients, start, run, f, n, most) ==>
      TotalOn(After(registry, Initial(start), run), d, f) <= Bound(limit, n, most)
  }

  /** A run, and its continuation within the day on which the slot's limit is used up. */
  ghost predicate GoesOn(
    registry: Registry, clients: iset<Client>, start: string, run: seq<Label>, more: seq<Label>, f: Fingerprint,
    limit: int, most: int)
  {
    && Runnable(registry, Initial(start), run) && OnlyFrom(clients, run) && EmitsAtMost(run, most)
    && var s := After(registry, Initial(start), run);
    && UsedUp(s.audit.table, s.audit.day, f, limit)
    && Runnable(registry, s, more) && OnlyFrom(clients, more) && EmitsAtMost(more, most) && KeepsDay(more)
  }

  function LetThrough(s: State, f: Fingerprint): int {
    Sum(BilledTo(f), s.admitted)
  }

  /** Once the limit is used up, nobody billed to the slot is let through for the rest of the day. */
  ghost predicate Closing(registry: Registry, clients: iset<Client>, f: Fingerprint, limit: int) {
    forall start, run, more, most :: GoesOn(registry, clients, start, run, more, f, limit, most) ==>
      var s := After(registry, Initial(start), run);
      LetThrough(After(registry, s, more), f) == LetThrough(s, f)
  }

  lemma {:induction false} RunModest(registry: Registry, s: State, run: seq<Label>, most: int)
    requires Runnable(registry, s, run) && EmitsAtMost(run, most) && AllModest(s.audit, most)
    ensures AllModest(After(registry, s, run).audit, most)
    decreases run
  {
    if run == [] {
    } else {
      assert EmitsAtMost([run[0]], most);
      StepModest(registry, s, run[0], most);
      RunModest(registry, Apply(registry, s, run[0]), run[1..], most);
    }
  }

  lemma LegalIsWithin(
    registry: Registry, clients: iset<Client>, start: string, run: seq<Label>, c: Client, n: int, most: int)
    requires c in clients && most >= 0 && Legal(registry, Initial(start), run, c, n, most)
    ensures Within(registry, clients, start, run, c.billed, n, most)
  {
  }

  lemma EscapesBound(registry: Registry, clients: iset<Client>, c: Client, limit: int)
    requires Filed(registry) && Charged(registry, c) && c in clients && Strays(c, limit) && limit > 0
    ensures !Bounded(registry, clients, c.billed, limit)
  {
    InitialUnrecorded("", c.billed);
    var run := Escape(registry, Initial(""), c, limit, limit + 1);
    LegalIsWithin(registry, clients, "", run, c, 1, 1);
    assert TotalOn(After(registry, Initial(""), run), "", c.billed) > Bound(limit, 1, 1);
  }

  lemma EscapesClosing(registry: Registry, clients: iset<Client>, c: Client, limit: int)
    requires Filed(registry) && Charged(registry, c) && c in clients && Strays(c, limit) && limit > 0
    ensures !Closing(registry, clients, c.billed, limit)
  {
    InitialUnrecorded("", c.billed);
    var run := Escape(registry, Initial(""), c, limit, limit);
    var s, more := After(registry, Initial(""), run), [Arrive(c)];
    ArrivalRuns(registry, s, c);
    LegalIsWithin(registry, clients, "", run, c, 1, 1);
    assert GoesOn(registry, clients, "", run, more, c.billed, limit, 1);
  }

  lemma ArrivalRuns(registry: Registry, s: State, c: Client)
    requires !Shut(s, c)
    ensures Runnable(registry, s, [Arrive(c)])
    ensures LetThrough(After(registry, s, [Arrive(c)]), c.billed) == LetThrough(s, c.billed) + 1
  {
    var s' := Apply(registry, s, Arrive(c));
    assert [Arrive(c)][1..] == [];
    assert Runnable(registry, s', []);
    assert After(registry, s, [Arrive(c)]) == s';
    SumAppend(BilledTo(c.billed), s.admitted, c);
  }

  /** The bound holds over all runs exactly when everyone billed to the slot is gated by it within its limit. */
  lemma {:induction false} BoundedIff(registry: Registry, clients: iset<Client>, f: Fingerprint, limit: int)
    requires Filed(registry) && registry(f).Some? && f != NoFingerprint && limit > 0
    ensures Bounded(registry, clients, f, limit) <==> Governed(clients, f, limit)
  {
    if Governed(clients, f, limit) {
      forall start, run, n, most, d | Within(registry, clients, start, run, f, n, most)
        ensures TotalOn(After(registry, Initial(start), run), d, f) <= Bound(limit, n, most)
      {
        OvershootBound(registry, clients, start, run, f, limit, n, most, d);
      }
    } else {
      var c :| c in clients && c.billed == f && Strays(c, limit);
      EscapesBound(registry, clients, c, limit);
    }
  }

  /** So does the closing. */
  lemma {:induction false} ClosingIff(registry: Registry, clients: iset<Client>, f: Fingerprint, limit: int)
    requires Filed(registry) && registry(f).Some? && f != NoFingerprint && limit > 0
    ensures Closing(registry, clients, f, limit) <==> Governed(clients, f, limit)
  {
    if Governed(clients, f, limit) {
      forall start, run, more, most | GoesOn(registry, clients, start, run, more, f, limit, most)
        ensures var s := After(registry, Initial(start), run);
          LetThrough(After(registry, s, more), f) == LetThrough(s, f)
      {
        RunModest(registry, Initial(start), run, most);
        StaysClosed(registry, clients, After(registry, Initial(start), run), more, f, limit, most);
      }
    } else {
      var c :| c in clients && c.billed == f && Strays(c, limit);
      EscapesClosing(registry, clients, c, limit);
    }
  }
}
