/**
 * What the fallback limiter's answers do to requests (internal/middleware/ratelimit.go), over any
 * interleaving of the two sections of every request: the requests forwarded are the admissions.
 */
module RateForwarding {
  import opened KeyedLimiter
  import opened LocalLimiter
  import opened RateAdvice
  import opened RateLimit
  import TokenSupply

  /** A section, and the request it belongs to. */
  datatype Step = Step(asker: Asker, section: Section)

  function Sections(steps: seq<Step>): seq<Section> {
    if steps == [] then [] else Sections(steps[..|steps| - 1]) + [steps[|steps| - 1].section]
  }

  /** What the handler decides once the bucket of the key has answered. */
  ghost function FallbackDecision(cfg: Limits, a: Asker, account: Account, now: real): Decision {
    Answer(cfg, a.ctx, Admits(account, now), 1)
  }

  /** The requests on the key's bucket, in the order of its answers: when each was made and whether it went on. */
  ghost function Forwards(cfg: Limits, steps: seq<Step>, key: string): seq<Call>
    requires Runnable(Sections(steps))
  {
    if steps == [] then []
    else
      var before, s := steps[..|steps| - 1], steps[|steps| - 1];
      SectionsPrefix(steps);
      var so := Forwards(cfg, before, key);
      if s.section.Ask? && s.section.key == key then
        var account := After(Sections(before))[key];
        so + [Call(s.section.at, FallbackDecision(cfg, s.asker, account, s.section.at).Forwarded?)]
      else so
  }

  lemma SectionsPrefix(steps: seq<Step>)
    requires steps != [] && Runnable(Sections(steps))
    ensures var before, s := steps[..|steps| - 1], steps[|steps| - 1];
      && Sections(steps)[..|Sections(steps)| - 1] == Sections(before)
      && Runnable(Sections(before)) && Enabled(After(Sections(before)), s.section)
      && After(Sections(steps)) == Apply(After(Sections(before)), s.section)
  {
    assert Sections(steps)[..|Sections(steps)| - 1] == Sections(steps[..|steps| - 1]);
  }

  /** The requests that went on are exactly the admissions of the key's account. */
  lemma {:induction false} ForwardedAreAdmitted(cfg: Limits, steps: seq<Step>, key: string)
    requires Runnable(Sections(steps))
    ensures Forwards(cfg, steps, key) == if key in After(Sections(steps)) then After(Sections(steps))[key].calls else []
  {
    if steps == [] {
    } else {
      SectionsPrefix(steps);
      ForwardedAreAdmitted(cfg, steps[..|steps| - 1], key);
    }
  }

  /** Every request looks its own bucket up with its own settings, and asks no other. */
  ghost predicate OwnSections(hash: string -> string, cfg: Limits, steps: seq<Step>) {
    forall i :: 0 <= i < |steps| ==>
      || steps[i].section == LookUpBy(hash, cfg, steps[i].asker)
      || (steps[i].section.Ask? && steps[i].section.key == KeyOf(hash, steps[i].asker))
  }

  lemma {:induction false} SectionAt(steps: seq<Step>)
    ensures |Sections(steps)| == |steps|
    ensures forall i :: 0 <= i < |steps| ==> Sections(steps)[i] == steps[i].section
  {
    if steps == [] {
    } else {
      SectionAt(steps[..|steps| - 1]);
    }
  }

  /** The window from call i to call j admits at most burst + rate * length. */
  predicate WithinBound(calls: seq<Call>, i: nat, j: nat, rate: real, burst: real)
    requires i <= j < |calls|
  {
    Admissions(calls[i..j + 1]) as real <= burst + rate * (calls[j].at - calls[i].at)
  }

  lemma {:induction false} WindowOf(rate: real, burst: real, calls: seq<Call>, i: nat, j: nat)
    requires rate >= 0.0 && burst >= 0.0 && BucketTrace(rate, burst, calls) && i <= j < |calls|
    ensures WithinBound(calls, i, j, rate, burst)
  {
    TokenSupply.WindowBound(rate, burst, calls, i, j);
  }

  lemma {:induction false} KnownKey(cfg: Limits, steps: seq<Step>, key: string)
    requires Runnable(Sections(steps)) && Forwards(cfg, steps, key) != []
    ensures key in After(Sections(steps)) && Forwards(cfg, steps, key) == After(Sections(steps))[key].calls
  {
    ForwardedAreAdmitted(cfg, steps, key);
  }

  /**
   * However requests interleave, any window of those on one key's bucket forwards at most burst + rate * length
   * of them, with the settings of the request that looked the key up first.
   */
  lemma {:induction false} ForwardingIsBounded(
    hash: string -> string, cfg: Limits, steps: seq<Step>, key: string, i: nat, j: nat, now: real)
    returns (first: nat)
    requires OwnSections(hash, cfg, steps)
    requires Runnable(Sections(steps)) && InOrder(Sections(steps)) && AskedBy(Sections(steps), key, now)
    requires i <= j < |Forwards(cfg, steps, key)|
    ensures first < |steps| && KeyOf(hash, steps[first].asker) == key && steps[first].section.LookUp?
    ensures forall k :: 0 <= k < first && steps[k].section.LookUp? ==> steps[k].section.key != key
    ensures var ctx := steps[first].asker.ctx;
      WithinBound(Forwards(cfg, steps, key), i, j, EffectiveQps(cfg, ctx) as real, EffectiveBurst(cfg, ctx) as real)
  {
    var run, sent := Sections(steps), Forwards(cfg, steps, key);
    KnownKey(cfg, steps, key);
    EveryKeyIsABucket(run, key, now);
    first := AccountIsOfFirst(run, key);
    SectionAt(steps);
    var ctx := steps[first].asker.ctx;
    RateIsNat(cfg, ctx);
    WindowOf(EffectiveQps(cfg, ctx) as real, EffectiveBurst(cfg, ctx) as real, sent, i, j);
  }
}
