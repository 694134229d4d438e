/** Whole-trace guarantees of the token bucket. The window algebra is done with time measured in tokens
    of supply, where the rate is 1, and then carried to any rate by rescaling the times of a trace. */
module TokenSupply {
  import opened LocalLimiter

  function Scale(rate: real, c: Call): Call {
    Call(rate * c.at, c.admitted)
  }

  function Supply(rate: real, calls: seq<Call>): (u: seq<Call>)
    ensures |u| == |calls|
    ensures forall k :: 0 <= k < |calls| ==> u[k] == Scale(rate, calls[k])
  {
    seq(|calls|, k requires 0 <= k < |calls| => Scale(rate, calls[k]))
  }

  /** Room of a window in supply time. */
  function Left(burst: real, u: seq<Call>, j: nat, now: real): real
    requires j <= |u|
  {
    if j == |u| then burst else burst + (now - u[j].at) - Admissions(u[j..]) as real
  }

  ghost predicate Roomy(burst: real, u: seq<Call>, now: real) {
    forall j :: 0 <= j <= |u| ==> Left(burst, u, j, now) >= 1.0
  }

  ghost predicate Ordered(calls: seq<Call>) {
    forall i, j :: 0 <= i <= j < |calls| ==> calls[i].at <= calls[j].at
  }

  /** Call k was admitted exactly when there was room for it. */
  ghost predicate Answered(burst: real, u: seq<Call>, k: nat)
    requires k < |u|
  {
    u[k].admitted <==> Roomy(burst, u[..k], u[k].at)
  }

  ghost predicate Greedy(burst: real, u: seq<Call>) {
    && Ordered(u)
    && forall k :: 0 <= k < |u| ==> Answered(burst, u, k)
  }

  lemma {:induction false} AdmissionsInSupply(rate: real, calls: seq<Call>)
    ensures Admissions(Supply(rate, calls)) == Admissions(calls)
  {
    if calls == [] {
    } else {
      AdmissionsInSupply(rate, calls[..|calls| - 1]);
      assert Supply(rate, calls)[..|calls| - 1] == Supply(rate, calls[..|calls| - 1]);
    }
  }

  lemma RoomInSupply(rate: real, burst: real, calls: seq<Call>, j: nat, now: real, at: real)
    requires j <= |calls| && at == rate * now
    ensures Left(burst, Supply(rate, calls), j, at) == Room(rate, burst, calls, j, now)
  {
    assert Supply(rate, calls)[j..] == Supply(rate, calls[j..]);
    AdmissionsInSupply(rate, calls[j..]);
    if j < |calls| {
      var start := calls[j].at;
      assert rate * (now - start) == rate * now - rate * start;
    }
  }

  lemma PermitsInSupply(rate: real, burst: real, calls: seq<Call>, now: real, at: real)
    requires at == rate * now
    ensures Permits(rate, burst, calls, now) <==> Roomy(burst, Supply(rate, calls), at)
  {
    var u := Supply(rate, calls);
    forall j: nat | j <= |calls|
      ensures Left(burst, u, j, at) == Room(rate, burst, calls, j, now)
    {
      RoomInSupply(rate, burst, calls, j, now, at);
    }
    if Roomy(burst, u, at) {
      forall j: nat | j <= |calls|
        ensures Room(rate, burst, calls, j, now) >= 1.0
      {
        assert Left(burst, u, j, at) >= 1.0;
      }
    }
  }

  lemma AnswerInSupply(rate: real, burst: real, calls: seq<Call>, k: nat)
    requires k < |calls|
    ensures Permits(rate, burst, calls[..k], calls[k].at)
       <==> Roomy(burst, Supply(rate, calls)[..k], Supply(rate, calls)[k].at)
  {
    var u := Supply(rate, calls);
    assert u[..k] == Supply(rate, calls[..k]);
    assert u[k] == Scale(rate, calls[k]);
    PermitsInSupply(rate, burst, calls[..k], calls[k].at, u[k].at);
  }

  lemma {:induction false} TraceIsOrdered(rate: real, burst: real, calls: seq<Call>)
    requires BucketTrace(rate, burst, calls)
    ensures Ordered(calls)
  {
    if calls == [] {
    } else {
      TraceIsOrdered(rate, burst, calls[..|calls| - 1]);
    }
  }

  lemma SupplyIsOrdered(rate: real, calls: seq<Call>)
    requires rate >= 0.0 && Ordered(calls)
    ensures Ordered(Supply(rate, calls))
  {
    forall i, j | 0 <= i <= j < |calls|
      ensures Supply(rate, calls)[i].at <= Supply(rate, calls)[j].at
    {
      ProductMonotone(rate, calls[i].at, calls[j].at);
    }
  }

  lemma GreedyLast(burst: real, u: seq<Call>)
    requires u != [] && Ordered(u)
    ensures var before, c := u[..|u| - 1], u[|u| - 1];
      Greedy(burst, u) <==> Greedy(burst, before) && (c.admitted <==> Roomy(burst, before, c.at))
  {
    var n := |u| - 1;
    var before := u[..n];
    assert Greedy(burst, u) ==> Answered(burst, u, n);
    forall k: nat | k < n
      ensures Answered(burst, before, k) <==> Answered(burst, u, k)
    {
      assert before[..k] == u[..k];
    }
  }

  /** The supply-time image of a trace of the bucket is greedy. */
  lemma {:induction false} TraceInSupply(rate: real, burst: real, calls: seq<Call>)
    requires rate >= 0.0 && BucketTrace(rate, burst, calls)
    ensures Greedy(burst, Supply(rate, calls))
  {
    if calls == [] {
    } else {
      TraceInSupply(rate, burst, calls[..|calls| - 1]);
      TraceIsOrdered(rate, burst, calls);
      SupplyIsOrdered(rate, calls);
      LastInSupply(rate, burst, calls);
      LastAnswered(rate, burst, calls);
      GreedyLast(burst, Supply(rate, calls));
    }
  }

  lemma LastInSupply(rate: real, burst: real, calls: seq<Call>)
    requires calls != []
    ensures var n := |calls| - 1; Supply(rate, calls)[..n] == Supply(rate, calls[..n])
    ensures var n := |calls| - 1; Supply(rate, calls)[n] == Scale(rate, calls[n])
  {
  }

  lemma LastAnswered(rate: real, burst: real, calls: seq<Call>)
    requires calls != [] && BucketTrace(rate, burst, calls)
    ensures var n := |calls| - 1;
      calls[n].admitted <==> Roomy(burst, Supply(rate, calls)[..n], Supply(rate, calls)[n].at)
  {
    AnswerInSupply(rate, burst, calls, |calls| - 1);
  }

  /** An ordered trace whose supply-time image is greedy is a trace of the bucket. */
  lemma {:induction false} TraceFromSupply(rate: real, burst: real, calls: seq<Call>)
    requires rate >= 0.0 && Ordered(calls) && Greedy(burst, Supply(rate, calls))
    ensures BucketTrace(rate, burst, calls)
  {
    if calls == [] {
    } else {
      var n := |calls| - 1;
      assert Supply(rate, calls)[..n] == Supply(rate, calls[..n]);
      GreedyLast(burst, Supply(rate, calls));
      TraceFromSupply(rate, burst, calls[..n]);
      AnswerInSupply(rate, burst, calls, n);
    }
  }

  // ---- windows ----

  lemma {:induction false} GreedyWindow(burst: real, u: seq<Call>, i: nat, j: nat)
    requires burst >= 0.0 && Greedy(burst, u) && i <= j < |u|
    ensures Admissions(u[i..j + 1]) as real <= burst + (u[j].at - u[i].at)
  {
    assert u[i..j + 1] == u[i..j] + [u[j]];
    AdmissionsAppend(u[i..j], u[j]);
    assert u[..j][i..] == u[i..j];
    if u[j].admitted {
      assert Answered(burst, u, j);
      assert Left(burst, u[..j], i, u[j].at) >= 1.0;
    } else if i < j {
      GreedyWindow(burst, u, i, j - 1);
      assert u[i..j - 1 + 1] == u[i..j];
    }
  }

  /** Any window of a trace holds at most burst + rate * length admissions. */
  lemma {:induction false} WindowBound(rate: real, burst: real, calls: seq<Call>, i: nat, j: nat)
    requires rate >= 0.0 && burst >= 0.0
    requires BucketTrace(rate, burst, calls) && i <= j < |calls|
    ensures Admissions(calls[i..j + 1]) as real <= burst + rate * (calls[j].at - calls[i].at)
  {
    TraceInSupply(rate, burst, calls);
    GreedyWindow(burst, Supply(rate, calls), i, j);
    WindowInSupply(rate, calls, i, j);
  }

  lemma WindowInSupply(rate: real, calls: seq<Call>, i: nat, j: nat)
    requires i <= j < |calls|
    ensures var u := Supply(rate, calls);
      && Admissions(u[i..j + 1]) == Admissions(calls[i..j + 1])
      && u[j].at - u[i].at == rate * (calls[j].at - calls[i].at)
  {
    var from, to := calls[i].at, calls[j].at;
    assert Supply(rate, calls)[i..j + 1] == Supply(rate, calls[i..j + 1]);
    AdmissionsInSupply(rate, calls[i..j + 1]);
    assert rate * (to - from) == rate * to - rate * from;
  }

  lemma {:induction false} AdmissionsSplit(calls: seq<Call>, j: nat)
    requires j <= |calls|
    ensures Admissions(calls) == Admissions(calls[..j]) + Admissions(calls[j..])
  {
    if j == |calls| {
      assert calls[..j] == calls && calls[j..] == [];
    } else {
      var before := calls[..|calls| - 1];
      AdmissionsSplit(before, j);
      assert before[..j] == calls[..j];
      assert calls[j..] == before[j..] + [calls[|calls| - 1]];
      AdmissionsAppend(before[j..], calls[|calls| - 1]);
    }
  }

  // ---- optimality ----

  /** Decisions, taken by any policy at all, that keep every suffix window within the bound. */
  ghost predicate Conforms(rate: real, burst: real, calls: seq<Call>) {
    forall k :: 0 <= k < |calls| && calls[k].admitted ==> Permits(rate, burst, calls[..k], calls[k].at)
  }

  ghost predicate Allowed(burst: real, u: seq<Call>, k: nat)
    requires k < |u|
  {
    u[k].admitted ==> Roomy(burst, u[..k], u[k].at)
  }

  ghost predicate Modest(burst: real, u: seq<Call>) {
    forall k :: 0 <= k < |u| ==> Allowed(burst, u, k)
  }

  lemma ConformsInSupply(rate: real, burst: real, calls: seq<Call>)
    requires Conforms(rate, burst, calls)
    ensures Modest(burst, Supply(rate, calls))
  {
    var u := Supply(rate, calls);
    forall k: nat | k < |u|
      ensures Allowed(burst, u, k)
    {
      AnswerInSupply(rate, burst, calls, k);
    }
  }

  ghost predicate SameTimes(calls: seq<Call>, other: seq<Call>) {
    |calls| == |other| && forall k :: 0 <= k < |calls| ==> calls[k].at == other[k].at
  }

  /** Where a greedy trace refuses and another policy may admit, the greedy one has admitted more in some window. */
  lemma BindingWindow(burst: real, mine: seq<Call>, theirs: seq<Call>, now: real) returns (j: nat)
    requires SameTimes(mine, theirs)
    requires !Roomy(burst, mine, now) && Roomy(burst, theirs, now)
    ensures j <= |mine| && Admissions(theirs[j..]) < Admissions(mine[j..])
  {
    j :| 0 <= j <= |mine| && Left(burst, mine, j, now) < 1.0;
    assert Left(burst, theirs, j, now) >= 1.0;
  }

  /** Up to every call the greedy trace has admitted at least as many. */
  ghost predicate Ahead(u: seq<Call>, other: seq<Call>, n: nat)
    requires n <= |u| == |other|
  {
    forall j :: 0 <= j <= n ==> Admissions(other[..j]) <= Admissions(u[..j])
  }

  lemma OneCallOn(calls: seq<Call>, m: nat)
    requires m < |calls|
    ensures Admissions(calls[..m + 1]) == Admissions(calls[..m]) + if calls[m].admitted then 1 else 0
  {
    assert calls[..m + 1] == calls[..m] + [calls[m]];
    AdmissionsAppend(calls[..m], calls[m]);
  }

  lemma SplitBefore(calls: seq<Call>, m: nat, j: nat)
    requires j <= m <= |calls|
    ensures Admissions(calls[..m]) == Admissions(calls[..j]) + Admissions(calls[..m][j..])
  {
    AdmissionsSplit(calls[..m], j);
    assert calls[..m][..j] == calls[..j];
  }

  /** Where only the other policy admits, the greedy trace was strictly ahead. */
  lemma RefusedWhileAhead(burst: real, u: seq<Call>, other: seq<Call>, m: nat)
    requires Greedy(burst, u) && Modest(burst, other) && SameTimes(u, other) && m < |u| && Ahead(u, other, m)
    requires other[m].admitted && !u[m].admitted
    ensures Admissions(other[..m]) < Admissions(u[..m])
  {
    assert Answered(burst, u, m) && Allowed(burst, other, m);
    var j := BindingWindow(burst, u[..m], other[..m], u[m].at);
    SplitBefore(u, m, j);
    SplitBefore(other, m, j);
  }

  lemma {:induction false} GreedyAdmitsMost(burst: real, u: seq<Call>, other: seq<Call>, n: nat)
    requires Greedy(burst, u) && Modest(burst, other) && SameTimes(u, other) && n <= |u|
    ensures Ahead(u, other, n)
  {
    if n == 0 {
    } else {
      var m := n - 1;
      GreedyAdmitsMost(burst, u, other, m);
      OneCallOn(u, m);
      OneCallOn(other, m);
      if other[m].admitted && !u[m].admitted {
        RefusedWhileAhead(burst, u, other, m);
      }
    }
  }

  lemma TimesInSupply(rate: real, calls: seq<Call>, other: seq<Call>)
    requires SameTimes(calls, other)
    ensures SameTimes(Supply(rate, calls), Supply(rate, other))
  {
  }

  /** No conforming policy answering the same calls ever admits more of them than the bucket. */
  lemma BucketAdmitsMost(rate: real, burst: real, calls: seq<Call>, other: seq<Call>)
    requires rate >= 0.0 && BucketTrace(rate, burst, calls) && Conforms(rate, burst, other)
    requires SameTimes(calls, other)
    ensures Admissions(other) <= Admissions(calls)
  {
    TraceInSupply(rate, burst, calls);
    ConformsInSupply(rate, burst, other);
    var u, v := Supply(rate, calls), Supply(rate, other);
    TimesInSupply(rate, calls, other);
    GreedyAdmitsMost(burst, u, v, |u|);
    assert u[..|u|] == u && v[..|u|] == v;
    AdmissionsInSupply(rate, calls);
    AdmissionsInSupply(rate, other);
  }

  // ---- refusals ----

  function Without(calls: seq<Call>, i: nat): seq<Call>
    requires i < |calls|
  {
    calls[..i] + calls[i + 1..]
  }

  lemma AdmissionsWithoutRefusal(calls: seq<Call>, i: nat, j: nat)
    requires j <= i < |calls| && !calls[i].admitted
    ensures Admissions(Without(calls, i)[j..]) == Admissions(calls[j..])
  {
    var rest := Without(calls, i);
    AdmissionsSplit(calls[j..], i - j);
    AdmissionsSplit(rest[j..], i - j);
    assert calls[j..][..i - j] == rest[j..][..i - j];
    assert calls[j..][i - j..] == calls[i..] && rest[j..][i - j..] == calls[i + 1..];
    AdmissionsSplit(calls[i..], 1);
    assert calls[i..][..1] == [] + [calls[i]] && calls[i..][1..] == calls[i + 1..];
    AdmissionsAppend([], calls[i]);
  }

  /** A refused call opens a window that is never tighter than the next one. */
  lemma RefusalDoesNotBind(burst: real, u: seq<Call>, i: nat, now: real)
    requires Ordered(u) && i < |u| && !u[i].admitted && u[|u| - 1].at <= now
    ensures Roomy(burst, u, now) <==> Roomy(burst, Without(u, i), now)
  {
    var rest := Without(u, i);
    forall j: nat | 0 <= j < i
      ensures Left(burst, rest, j, now) == Left(burst, u, j, now)
    {
      AdmissionsWithoutRefusal(u, i, j);
    }
    forall j: nat | i <= j <= |rest|
      ensures Left(burst, rest, j, now) == Left(burst, u, j + 1, now)
    {
      assert rest[j..] == u[j + 1..];
    }
    AdmissionsWithoutRefusal(u, i, i);
    assert Left(burst, u, i, now) >= Left(burst, u, i + 1, now) by {
      assert rest[i..] == u[i + 1..];
    }
    if Roomy(burst, rest, now) {
      forall j: nat | 0 <= j <= |u|
        ensures Left(burst, u, j, now) >= 1.0
      {
        assert Left(burst, rest, if j <= i then j else j - 1, now) >= 1.0;
      }
    }
  }

  lemma GreedyWithoutRefusal(burst: real, u: seq<Call>, i: nat)
    requires Greedy(burst, u) && i < |u| && !u[i].admitted
    ensures Greedy(burst, Without(u, i))
  {
    var rest := Without(u, i);
    forall k: nat | k < |rest|
      ensures Answered(burst, rest, k)
    {
      if k < i {
        assert rest[..k] == u[..k] && Answered(burst, u, k);
      } else {
        assert rest[..k] == Without(u[..k + 1], i) && Answered(burst, u, k + 1);
        RefusalDoesNotBind(burst, u[..k + 1], i, u[k + 1].at);
      }
    }
  }

  /** Deleting a refused call from a trace changes no other answer. */
  lemma RefusalsAreInvisible(rate: real, burst: real, calls: seq<Call>, i: nat)
    requires rate >= 0.0 && BucketTrace(rate, burst, calls)
    requires i < |calls| && !calls[i].admitted
    ensures BucketTrace(rate, burst, Without(calls, i))
  {
    TraceIsOrdered(rate, burst, calls);
    TraceInSupply(rate, burst, calls);
    GreedyWithoutRefusal(burst, Supply(rate, calls), i);
    assert Without(Supply(rate, calls), i) == Supply(rate, Without(calls, i));
    TraceFromSupply(rate, burst, Without(calls, i));
  }

  lemma {:induction false} NoneAdmitted(calls: seq<Call>)
    requires forall k :: 0 <= k < |calls| ==> !calls[k].admitted
    ensures Admissions(calls) == 0
  {
    if calls == [] {
    } else {
      NoneAdmitted(calls[..|calls| - 1]);
    }
  }

  lemma AdmissionsBeforeRefusals(calls: seq<Call>, i: nat, j: nat)
    requires j <= i < |calls| && forall k :: i <= k < |calls| ==> !calls[k].admitted
    ensures Admissions(calls[j..]) == Admissions(calls[j..i]) == Admissions(calls[j..i + 1])
  {
    AdmissionsSplit(calls[j..], i - j);
    assert calls[j..][..i - j] == calls[j..i] && calls[j..][i - j..] == calls[i..];
    NoneAdmitted(calls[i..]);
    assert calls[j..i + 1] == calls[j..i] + [calls[i]];
    AdmissionsAppend(calls[j..i], calls[i]);
  }

  /** Once a whole token has been supplied since a refusal, and nothing was admitted meanwhile, a call is admitted. */
  lemma TokenAfterRefusal(burst: real, u: seq<Call>, i: nat, now: real)
    requires burst >= 1.0 && Greedy(burst, u)
    requires i < |u| && forall k :: i <= k < |u| ==> !u[k].admitted
    requires u[|u| - 1].at <= now && u[i].at + 1.0 <= now
    ensures Roomy(burst, u, now)
  {
    forall j: nat | 0 <= j <= |u|
      ensures Left(burst, u, j, now) >= 1.0
    {
      if j <= i {
        GreedyWindow(burst, u, j, i);
        AdmissionsBeforeRefusals(u, i, j);
      } else {
        NoneAdmitted(u[j..]);
      }
    }
  }

  /** A refusal in a greedy trace is final as long as no supply arrives. */
  lemma NoSupplyNoRetry(burst: real, u: seq<Call>, i: nat, now: real)
    requires Greedy(burst, u)
    requires i < |u| && (forall k :: i <= k < |u| ==> !u[k].admitted) && u[i].at == now
    ensures !Roomy(burst, u, now)
  {
    assert Answered(burst, u, i);
    var j :| 0 <= j <= i && Left(burst, u[..i], j, u[i].at) < 1.0;
    assert u[..i][j..] == u[j..i];
    AdmissionsBeforeRefusals(u, i, j);
    assert Left(burst, u, j, now) < 1.0;
  }

  /** The advice "retry after 1 second" given to a refused caller is honest exactly when the rate is
      at least 1: with no admission since the refusal, the retry is admitted iff rate >= 1. */
  lemma RetryAfterOneSecond(rate: int, burst: int, calls: seq<Call>, i: nat, now: real)
    requires rate >= 0 && burst >= 1 && BucketTrace(rate as real, burst as real, calls)
    requires i < |calls| && forall k :: i <= k < |calls| ==> !calls[k].admitted
    requires calls[|calls| - 1].at <= now && calls[i].at + 1.0 <= now
    ensures Permits(rate as real, burst as real, calls, now) <==> rate >= 1
  {
    if rate >= 1 {
      RetryWithSupply(rate as real, burst as real, calls, i, now);
    } else {
      RetryWithoutSupply(burst as real, calls, i, now);
    }
  }

  lemma RetryWithSupply(rate: real, burst: real, calls: seq<Call>, i: nat, now: real)
    requires rate >= 1.0 && burst >= 1.0 && BucketTrace(rate, burst, calls)
    requires i < |calls| && forall k :: i <= k < |calls| ==> !calls[k].admitted
    requires calls[|calls| - 1].at <= now && calls[i].at + 1.0 <= now
    ensures Permits(rate, burst, calls, now)
  {
    var at := rate * now;
    TraceInSupply(rate, burst, calls);
    SupplyAdvances(rate, calls, i, now, at);
    TokenAfterRefusal(burst, Supply(rate, calls), i, at);
    PermitsInSupply(rate, burst, calls, now, at);
  }

  lemma RetryWithoutSupply(burst: real, calls: seq<Call>, i: nat, now: real)
    requires burst >= 1.0 && BucketTrace(0.0, burst, calls)
    requires i < |calls| && forall k :: i <= k < |calls| ==> !calls[k].admitted
    ensures !Permits(0.0, burst, calls, now)
  {
    var at := 0.0 * now;
    TraceInSupply(0.0, burst, calls);
    NoSupply(calls, i, now);
    NoSupplyNoRetry(burst, Supply(0.0, calls), i, at);
    PermitsInSupply(0.0, burst, calls, now, at);
  }

  lemma NoSupply(calls: seq<Call>, i: nat, now: real)
    requires i < |calls|
    ensures Supply(0.0, calls)[i].at == 0.0 == 0.0 * now
  {
    assert Supply(0.0, calls)[i] == Scale(0.0, calls[i]);
  }

  lemma SupplyAdvances(rate: real, calls: seq<Call>, i: nat, now: real, at: real)
    requires rate >= 1.0 && at == rate * now
    requires i < |calls| && calls[|calls| - 1].at <= now && calls[i].at + 1.0 <= now
    ensures var u := Supply(rate, calls); u[|u| - 1].at <= at && u[i].at + 1.0 <= at
  {
    var from := calls[i].at;
    ProductMonotone(rate, calls[|calls| - 1].at, now);
    ProductMonotone(rate, from + 1.0, now);
    assert rate * (from + 1.0) == rate * from + rate;
    assert Supply(rate, calls)[i] == Scale(rate, calls[i]);
  }
}
