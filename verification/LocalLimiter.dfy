/** The in-process token bucket and the keyed limiter built from it
    (internal/middleware/local_limiter.go). Times are real numbers of seconds. */
module LocalLimiter {

  /** One answered call: when it was made and whether it was admitted. */
  datatype Call = Call(at: real, admitted: bool)

  function Admissions(calls: seq<Call>): (n: nat)
    ensures n <= |calls|
  {
    if calls == [] then 0
    else Admissions(calls[..|calls| - 1]) + if calls[|calls| - 1].admitted then 1 else 0
  }

  /** What the window beginning with call j still has room for at time `now`;
      the window of j == |calls| begins now and has its whole burst left. */
  function Room(rate: real, burst: real, calls: seq<Call>, j: nat, now: real): real
    requires j <= |calls|
  {
    if j == |calls| then burst
    else burst + rate * (now - calls[j].at) - Admissions(calls[j..]) as real
  }

  /** One more admission keeps every suffix window within burst + rate * length. */
  ghost predicate Permits(rate: real, burst: real, calls: seq<Call>, now: real) {
    forall j :: 0 <= j <= |calls| ==> Room(rate, burst, calls, j, now) >= 1.0
  }

  /** A time-ordered trace in which a call was admitted exactly when the window bound permitted it. */
  ghost predicate BucketTrace(rate: real, burst: real, calls: seq<Call>) {
    calls == [] ||
    var before, c := calls[..|calls| - 1], calls[|calls| - 1];
    && BucketTrace(rate, burst, before)
    && (before != [] ==> before[|before| - 1].at <= c.at)
    && (c.admitted <==> Permits(rate, burst, before, c.at))
  }

  /** The refilled token count at time `now`, computed call by call as the bucket does. */
  function Level(rate: real, burst: real, calls: seq<Call>, now: real): real
    decreases |calls|, 1
  {
    if calls == [] then burst
    else Refill(rate, burst, Spent(rate, burst, calls), now - calls[|calls| - 1].at)
  }

  /** The token count left by the last call. */
  function Spent(rate: real, burst: real, calls: seq<Call>): real
    decreases |calls|, 0
  {
    if calls == [] then burst
    else
      var c := calls[|calls| - 1];
      Level(rate, burst, calls[..|calls| - 1], c.at) - if c.admitted then 1.0 else 0.0
  }

  function Refill(rate: real, burst: real, tokens: real, elapsed: real): real {
    if tokens + elapsed * rate > burst then burst else tokens + elapsed * rate
  }

  class LocalTokenBucket {
    const rate: real
    const burst: real
    var tokens: real
    var last: real
    ghost var history: seq<Call>

    ghost predicate Valid()
      reads this
    {
      && rate >= 0.0
      && BucketTrace(rate, burst, history)
      && tokens == Spent(rate, burst, history)
      && (history != [] ==> last == history[|history| - 1].at)
    }

    constructor (rate: real, burst: int, now: real)
      requires rate >= 0.0
      ensures Valid() && history == [] && last == now
      ensures this.rate == rate && this.burst == burst as real
    {
      this.rate := rate;
      this.burst := burst as real;
      tokens := burst as real;
      last := now;
      history := [];
    }

    /** `now` is the reading of a monotonic clock, taken under the bucket's mutex. */
    method Allow(now: real) returns (ok: bool)
      requires Valid() && last <= now
      modifies this
      ensures Valid() && last == now
      ensures history == old(history) + [Call(now, ok)]
      ensures ok <==> Permits(rate, burst, old(history), now)
    {
      var elapsed := now - last;
      last := now;
      ghost var refilled := Refill(rate, burst, tokens, elapsed);
      RefillIsLevel(rate, burst, history, tokens, now, elapsed);
      AnswerExtendsTrace(rate, burst, history, now);

      tokens := tokens + elapsed * rate;
      if tokens > burst {
        tokens := burst;
      }
      assert tokens == refilled;

      if tokens < 1.0 {
        history := history + [Call(now, false)];
        return false;
      }

      tokens := tokens - 1.0;
      history := history + [Call(now, true)];
      return true;
    }
  }

  lemma RefillIsLevel(rate: real, burst: real, calls: seq<Call>, tokens: real, now: real, elapsed: real)
    requires rate >= 0.0 && elapsed >= 0.0
    requires tokens == Spent(rate, burst, calls)
    requires calls != [] ==> elapsed == now - calls[|calls| - 1].at
    ensures Refill(rate, burst, tokens, elapsed) == Level(rate, burst, calls, now)
  {
    ProductNonNegative(elapsed, rate);
  }

  lemma ProductNonNegative(a: real, b: real)
    requires a >= 0.0 && b >= 0.0
    ensures a * b >= 0.0
  {
  }

  lemma ProductMonotone(rate: real, a: real, b: real)
    requires rate >= 0.0 && a <= b
    ensures rate * a <= rate * b
  {
    ProductNonNegative(rate, b - a);
    assert rate * (b - a) == rate * b - rate * a;
  }

  lemma AdmissionsAppend(calls: seq<Call>, c: Call)
    ensures Admissions(calls + [c]) == Admissions(calls) + if c.admitted then 1 else 0
  {
    assert (calls + [c])[..|calls|] == calls;
  }

  /** Every window gives up what the last call took and gains what has been supplied since. */
  lemma RoomAdvances(rate: real, burst: real, calls: seq<Call>, j: nat, now: real)
    requires j < |calls|
    ensures var c := calls[|calls| - 1];
      Room(rate, burst, calls, j, now) ==
      Room(rate, burst, calls[..|calls| - 1], j, c.at) - (if c.admitted then 1.0 else 0.0) + (now - c.at) * rate
  {
    var c, before := calls[|calls| - 1], calls[..|calls| - 1];
    assert calls[j..] == before[j..] + [c];
    AdmissionsAppend(before[j..], c);
    var start := calls[j].at;
    if j < |before| {
      assert rate * (now - start) == rate * (c.at - start) + rate * (now - c.at);
    } else {
      assert before[j..] == [];
    }
  }

  /** The token count the code keeps is the least room over all suffix windows. */
  lemma {:induction false} LevelIsLeastRoom(rate: real, burst: real, calls: seq<Call>, now: real) returns (tight: nat)
    ensures forall j :: 0 <= j <= |calls| ==> Level(rate, burst, calls, now) <= Room(rate, burst, calls, j, now)
    ensures tight <= |calls| && Level(rate, burst, calls, now) == Room(rate, burst, calls, tight, now)
  {
    tight := |calls|;
    if calls == [] {
    } else {
      var c, before := calls[|calls| - 1], calls[..|calls| - 1];
      var k := LevelIsLeastRoom(rate, burst, before, c.at);
      RoomAdvances(rate, burst, calls, k, now);
      forall j | 0 <= j < |calls|
        ensures Level(rate, burst, calls, now) <= Room(rate, burst, calls, j, now)
      {
        RoomAdvances(rate, burst, calls, j, now);
      }
      if Level(rate, burst, calls, now) != burst {
        tight := k;
      }
    }
  }

  /** Comparing the refilled count with 1 decides the window bound. */
  lemma AnswerExtendsTrace(rate: real, burst: real, calls: seq<Call>, now: real)
    requires BucketTrace(rate, burst, calls)
    requires calls != [] ==> calls[|calls| - 1].at <= now
    ensures Level(rate, burst, calls, now) >= 1.0 <==> Permits(rate, burst, calls, now)
    ensures var ok := Level(rate, burst, calls, now) >= 1.0;
      && BucketTrace(rate, burst, calls + [Call(now, ok)])
      && Spent(rate, burst, calls + [Call(now, ok)]) == Level(rate, burst, calls, now) - if ok then 1.0 else 0.0
  {
    var tight := LevelIsLeastRoom(rate, burst, calls, now);
    var ok := Level(rate, burst, calls, now) >= 1.0;
    assert (calls + [Call(now, ok)])[..|calls|] == calls;
  }
}
