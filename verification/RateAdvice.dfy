/**
 * When a caller refused by the local fallback can rely on the advice to retry after one second
 * (internal/middleware/ratelimit.go). A bucket keeps the rate of its first look-up, whoever made it.
 */
module RateAdvice {
  import opened Config
  import opened KeyedLimiter
  import opened LocalLimiter
  import opened RateLimit
  import opened Redact
  import opened Text
  import opened Usage
  import opened Wire
  import R = Registry
  import TokenSupply

  /** What the handler looks buckets up with: a whole rate that is not negative, and a burst of at least one. */
  predicate WholeSettings(run: seq<Section>, key: string) {
    forall i :: 0 <= i < |run| && run[i].LookUp? && run[i].key == key ==>
      run[i].rate >= 0.0 && run[i].rate == run[i].rate.Floor as real && run[i].burst >= 1
  }

  /** The account is that of the first look-up under its key. */
  lemma {:induction false} AccountIsOfFirst(run: seq<Section>, key: string) returns (i: nat)
    requires Runnable(run) && key in After(run)
    ensures i < |run| && run[i].LookUp? && run[i].key == key
    ensures After(run)[key].rate == run[i].rate && After(run)[key].burst == run[i].burst as real
    ensures forall j :: 0 <= j < i ==> !(run[j].LookUp? && run[j].key == key)
  {
    var n := |run| - 1;
    if key in After(run[..n]) {
      i := AccountIsOfFirst(run[..n], key);
    } else {
      i := n;
      NotLookedUp(run[..n], key);
    }
  }

  lemma {:induction false} NotLookedUp(run: seq<Section>, key: string)
    requires Runnable(run) && key !in After(run)
    ensures forall j :: 0 <= j < |run| ==> !(run[j].LookUp? && run[j].key == key)
  {
    if run == [] {
    } else {
      NotLookedUp(run[..|run| - 1], key);
    }
  }

  /** The i-th call under the key was refused at least a second ago, and nothing has been admitted since. */
  ghost predicate Waited(run: seq<Section>, key: string, i: nat, now: real) {
    && Runnable(run) && InOrder(run) && key in After(run) && AskedBy(run, key, now)
    && i < |After(run)[key].calls| && After(run)[key].calls[i].at + 1.0 <= now
    && forall k :: i <= k < |After(run)[key].calls| ==> !After(run)[key].calls[k].admitted
  }

  lemma RetryHonouredIff(account: Account, rate: int, burst: int, i: nat, now: real)
    requires account.rate == rate as real && account.burst == burst as real && rate >= 0 && burst >= 1
    requires BucketTrace(account.rate, account.burst, account.calls)
    requires i < |account.calls| && forall k :: i <= k < |account.calls| ==> !account.calls[k].admitted
    requires account.calls[i].at + 1.0 <= now && account.calls[|account.calls| - 1].at <= now
    ensures Admits(account, now) <==> account.rate >= 1.0
  {
    TokenSupply.RetryAfterOneSecond(rate, burst, account.calls, i, now);
  }

  /**
   * In any interleaving of sections, whoever shares the key, a caller who waited as advised is admitted
   * exactly when the bucket's rate, that of its first look-up, is at least one.
   */
  lemma {:induction false} AdviceIsHonestIff(run: seq<Section>, key: string, i: nat, now: real)
    requires Waited(run, key, i, now) && WholeSettings(run, key)
    ensures Admits(After(run)[key], now) <==> After(run)[key].rate >= 1.0
  {
    EveryKeyIsABucket(run, key, now);
    var first := AccountIsOfFirst(run, key);
    RetryHonouredIff(After(run)[key], run[first].rate.Floor, run[first].burst, i, now);
  }

  // ---- who looks a bucket up ----

  /** A request as far as the limiter goes: its authenticated context, if any, and its address. */
  datatype Asker = Asker(ctx: Option<AuthContext>, clientIP: string)

  function KeyOf(hash: string -> string, a: Asker): string {
    LimitKey(hash, a.ctx, a.clientIP)
  }

  function LookUpBy(hash: string -> string, cfg: Limits, a: Asker): Section {
    LookUp(KeyOf(hash, a), EffectiveQps(cfg, a.ctx) as real, EffectiveBurst(cfg, a.ctx))
  }

  /** The setting that truncation turns into no rate at all. */
  predicate Fractional(ctx: Option<AuthContext>) {
    ctx.Some? && 0.0 < ctx.value.rateLimitQPS < 1.0
  }

  ghost predicate LookedUpBy(hash: string -> string, cfg: Limits, askers: iset<Asker>, s: Section) {
    exists a :: a in askers && s == LookUpBy(hash, cfg, a)
  }

  /** A run in which only these requests look buckets up. */
  ghost predicate AskedFrom(hash: string -> string, cfg: Limits, askers: iset<Asker>, run: seq<Section>) {
    forall i :: 0 <= i < |run| && run[i].LookUp? ==> LookedUpBy(hash, cfg, askers, run[i])
  }

  lemma AskersAreWhole(hash: string -> string, cfg: Limits, askers: iset<Asker>, run: seq<Section>, key: string)
    requires AskedFrom(hash, cfg, askers, run)
    ensures WholeSettings(run, key)
  {
    forall i | 0 <= i < |run| && run[i].LookUp?
      ensures run[i].rate >= 0.0 && run[i].rate == run[i].rate.Floor as real && run[i].burst >= 1
    {
      var a :| a in askers && run[i] == LookUpBy(hash, cfg, a);
      RateIsNat(cfg, a.ctx);
    }
  }

  /** In every run, whoever waited as advised under the key is admitted. */
  ghost predicate Honest(hash: string -> string, cfg: Limits, askers: iset<Asker>, key: string) {
    forall run, i, now :: AskedFrom(hash, cfg, askers, run) && Waited(run, key, i, now) ==> Admits(After(run)[key], now)
  }

  ghost predicate NoneFractional(hash: string -> string, askers: iset<Asker>, key: string) {
    forall a :: a in askers && KeyOf(hash, a) == key ==> !Fractional(a.ctx)
  }

  lemma WholeIsHonest(
    hash: string -> string, cfg: Limits, askers: iset<Asker>, run: seq<Section>, key: string, i: nat, now: real)
    requires NoneFractional(hash, askers, key) && AskedFrom(hash, cfg, askers, run) && Waited(run, key, i, now)
    ensures Admits(After(run)[key], now)
  {
    AskersAreWhole(hash, cfg, askers, run, key);
    AdviceIsHonestIff(run, key, i, now);
    var first := AccountIsOfFirst(run, key);
    assert LookedUpBy(hash, cfg, askers, run[first]);
    var a :| a in askers && run[first] == LookUpBy(hash, cfg, a);
    RateIsNat(cfg, a.ctx);
  }

  // ---- a bucket that never refills ----

  /** A caller looks its bucket up and asks it, all at once. */
  predicate AtOnce(run: seq<Section>, key: string, burst: int) {
    forall i :: 0 <= i < |run| ==> run[i] == LookUp(key, 0.0, burst) || run[i] == Ask(key, 0.0)
  }

  /** The first `burst` of n calls are admitted. */
  function Burst(burst: int, n: nat): seq<Call> {
    if n == 0 then [] else Burst(burst, n - 1) + [Call(0.0, n <= burst)]
  }

  /** What a burst leaves of a bucket that never refills. */
  function Unspent(burst: int, n: nat): real {
    if n < burst then (burst - n) as real else 0.0
  }

  lemma NeverRefilled(burst: int, tokens: real, elapsed: real)
    requires tokens <= burst as real
    ensures Refill(0.0, burst as real, tokens, elapsed) == tokens
  {
    assert elapsed * 0.0 == 0.0;
  }

  lemma {:induction false} BurstAtOnce(burst: int, n: nat)
    ensures |Burst(burst, n)| == n && (n > 0 ==> Burst(burst, n)[n - 1].admitted == (n <= burst))
    ensures forall k :: 0 <= k < |Burst(burst, n)| ==> Burst(burst, n)[k].at == 0.0
  {
    if n == 0 {
    } else {
      BurstAtOnce(burst, n - 1);
    }
  }

  lemma {:induction false} BurstLevel(burst: int, n: nat, now: real)
    requires burst >= 1
    ensures Spent(0.0, burst as real, Burst(burst, n)) == Unspent(burst, n)
    ensures Level(0.0, burst as real, Burst(burst, n), now) == Unspent(burst, n)
  {
    if n == 0 {
    } else {
      var c := Call(0.0, n <= burst);
      BurstLevel(burst, n - 1, 0.0);
      OneCallMore(0.0, burst as real, Burst(burst, n - 1), c, now);
      NeverRefilled(burst, Unspent(burst, n), now - c.at);
    }
  }

  lemma OneCallMore(rate: real, burst: real, calls: seq<Call>, c: Call, now: real)
    ensures Spent(rate, burst, calls + [c]) == Level(rate, burst, calls, c.at) - if c.admitted then 1.0 else 0.0
    ensures Level(rate, burst, calls + [c], now) == Refill(rate, burst, Spent(rate, burst, calls + [c]), now - c.at)
  {
    assert (calls + [c])[..|calls|] == calls;
  }

  function Starved(burst: int, n: nat): Account {
    Account(0.0, burst as real, Burst(burst, n))
  }

  /** Whoever comes after a burst is refused once it is spent. */
  lemma StarvedAdmits(burst: int, n: nat, now: real)
    requires burst >= 1 && now >= 0.0 && BucketTrace(0.0, burst as real, Burst(burst, n))
    ensures Admits(Starved(burst, n), now) <==> n < burst
  {
    BurstAtOnce(burst, n);
    BurstLevel(burst, n, now);
    AnswerExtendsTrace(0.0, burst as real, Burst(burst, n), now);
  }

  lemma BurstExtends(limit: real, burst: int, calls: seq<Call>, n: nat, more: seq<Call>)
    requires burst >= 1 && limit == burst as real && calls == Burst(burst, n) && BucketTrace(0.0, limit, calls)
    requires more == calls + [Call(0.0, n < burst)]
    ensures BucketTrace(0.0, limit, more)
  {
    BurstAtOnce(burst, n);
    BurstLevel(burst, n, 0.0);
    AnswerExtendsTrace(0.0, limit, calls, 0.0);
  }

  /** A bucket that never refills answers a burst as stated. */
  lemma {:induction false} BurstIsTrace(limit: real, burst: int, n: nat, calls: seq<Call>)
    requires burst >= 1 && limit == burst as real && calls == Burst(burst, n)
    ensures BucketTrace(0.0, limit, calls)
  {
    if n == 0 {
    } else {
      var before := Burst(burst, n - 1);
      BurstIsTrace(limit, burst, n - 1, before);
      BurstExtends(limit, burst, before, n - 1, calls);
    }
  }

  lemma StarvedAnswers(key: string, burst: int, n: nat)
    requires burst >= 1
    ensures Asked(map[key := Starved(burst, n)], key, 0.0) == map[key := Starved(burst, n + 1)]
  {
    BurstIsTrace(burst as real, burst, n, Burst(burst, n));
    StarvedAdmits(burst, n, 0.0);
    StarvedGrows(map[key := Starved(burst, n)], key, burst, n);
  }

  lemma StarvedGrows(accounts: map<string, Account>, key: string, burst: int, n: nat)
    requires accounts == map[key := Starved(burst, n)] && (Admits(Starved(burst, n), 0.0) <==> n < burst)
    ensures Asked(accounts, key, 0.0) == map[key := Starved(burst, n + 1)]
  {
    AskedIs(accounts, key, 0.0, n < burst);
    assert Answered(Starved(burst, n), 0.0, n < burst) == Starved(burst, n + 1);
  }

  /** A run that answers the caller's first n calls. */
  ghost predicate Knocks(run: seq<Section>, key: string, burst: int, n: nat) {
    Runnable(run) && AtOnce(run, key, burst) && After(run) == map[key := Starved(burst, n)]
  }

  lemma FirstKnock(key: string, burst: int)
    ensures Knocks([LookUp(key, 0.0, burst)], key, burst, 0)
  {
    OneMore([], LookUp(key, 0.0, burst));
    assert [] + [LookUp(key, 0.0, burst)] == [LookUp(key, 0.0, burst)];
  }

  lemma NextKnock(run: seq<Section>, key: string, burst: int, n: nat)
    requires burst >= 1 && Knocks(run, key, burst, n)
    ensures Knocks(run + [Ask(key, 0.0)], key, burst, n + 1)
  {
    OneMore(run, Ask(key, 0.0));
    StarvedAnswers(key, burst, n);
  }

  lemma {:induction false} KnocksAnswered(key: string, burst: int, n: nat) returns (run: seq<Section>)
    requires burst >= 1
    ensures Knocks(run, key, burst, n)
  {
    if n == 0 {
      FirstKnock(key, burst);
      run := [LookUp(key, 0.0, burst)];
    } else {
      run := KnocksAnswered(key, burst, n - 1);
      NextKnock(run, key, burst, n - 1);
      run := run + [Ask(key, 0.0)];
    }
  }

  lemma KnocksQualify(run: seq<Section>, key: string, burst: int, other: Section)
    requires AtOnce(run, key, burst) && other.LookUp? && other.rate >= 0.0
    ensures InOrder(run + [other, Ask(key, 0.0)])
    ensures forall now :: now >= 0.0 ==> AskedBy(run + [other, Ask(key, 0.0)], key, now)
  {
  }

  lemma AfterSpent(run: seq<Section>, key: string, burst: int, other: Section)
    requires burst >= 1 && Knocks(run, key, burst, burst) && other.LookUp? && other.key == key
    ensures Runnable(run + [other, Ask(key, 0.0)])
    ensures After(run + [other, Ask(key, 0.0)]) == map[key := Starved(burst, burst + 1)]
  {
    OneMore(run, other);
    OneMore(run + [other], Ask(key, 0.0));
    StarvedAnswers(key, burst, burst);
    assert run + [other, Ask(key, 0.0)] == (run + [other]) + [Ask(key, 0.0)];
  }

  /**
   * Where a bucket was first looked up without a rate, whoever comes once its burst is spent, with whatever
   * settings, is refused, and refused again after any wait.
   */
  lemma SpentBucketStarves(key: string, burst: int, other: Section, now: real) returns (run: seq<Section>)
    requires burst >= 1 && other.LookUp? && other.key == key && other.rate >= 0.0 && now >= 1.0
    ensures |run| >= 2 && run[|run| - 2] == other && run[|run| - 1] == Ask(key, 0.0)
    ensures forall i :: 0 <= i < |run| - 2 ==> run[i] == LookUp(key, 0.0, burst) || run[i] == Ask(key, 0.0)
    ensures Waited(run, key, burst, now) && |After(run)[key].calls| == burst + 1
    ensures !Admits(After(run)[key], now)
  {
    var knocks := KnocksAnswered(key, burst, burst);
    run := knocks + [other, Ask(key, 0.0)];
    KnocksQualify(knocks, key, burst, other);
    AfterSpent(knocks, key, burst, other);
    BurstIsTrace(burst as real, burst, burst + 1, Burst(burst, burst + 1));
    BurstAtOnce(burst, burst + 1);
    StarvedAdmits(burst, burst + 1, now);
  }

  /**
   * A request whose rate setting lies strictly between zero and one starves every request that shares its
   * key, itself among them.
   */
  lemma FractionalRateStarves(
    hash: string -> string, cfg: Limits, slow: Asker, other: Asker, now: real) returns (run: seq<Section>)
    requires Fractional(slow.ctx) && KeyOf(hash, slow) == KeyOf(hash, other) && now >= 1.0
    ensures AskedFrom(hash, cfg, iset{slow, other}, run)
    ensures |run| >= 2 && run[|run| - 2] == LookUpBy(hash, cfg, other) && run[|run| - 1] == Ask(KeyOf(hash, other), 0.0)
    ensures Waited(run, KeyOf(hash, other), EffectiveBurst(cfg, slow.ctx), now)
    ensures !Admits(After(run)[KeyOf(hash, other)], now)
  {
    RateIsNat(cfg, slow.ctx);
    RateIsNat(cfg, other.ctx);
    run := SpentBucketStarves(KeyOf(hash, other), EffectiveBurst(cfg, slow.ctx), LookUpBy(hash, cfg, other), now);
    assert LookedUpBy(hash, cfg, iset{slow, other}, LookUpBy(hash, cfg, slow));
    assert LookedUpBy(hash, cfg, iset{slow, other}, LookUpBy(hash, cfg, other));
  }

  /** The advice is honest in all runs exactly when no request with the key has a setting strictly between
      zero and one. */
  lemma {:induction false} HonestIff(hash: string -> string, cfg: Limits, askers: iset<Asker>, key: string)
    ensures Honest(hash, cfg, askers, key) <==> NoneFractional(hash, askers, key)
  {
    if NoneFractional(hash, askers, key) {
      forall run, i, now | AskedFrom(hash, cfg, askers, run) && Waited(run, key, i, now)
        ensures Admits(After(run)[key], now)
      {
        WholeIsHonest(hash, cfg, askers, run, key, i, now);
      }
    } else {
      var a :| a in askers && KeyOf(hash, a) == key && Fractional(a.ctx);
      var run := FractionalRateStarves(hash, cfg, a, a, 1.0);
      MoreAskers(hash, cfg, iset{a, a}, askers, run);
    }
  }

  lemma MoreAskers(hash: string -> string, cfg: Limits, few: iset<Asker>, many: iset<Asker>, run: seq<Section>)
    requires few <= many && AskedFrom(hash, cfg, few, run)
    ensures AskedFrom(hash, cfg, many, run)
  {
    forall i | 0 <= i < |run| && run[i].LookUp?
      ensures LookedUpBy(hash, cfg, many, run[i])
    {
      var a :| a in few && run[i] == LookUpBy(hash, cfg, a);
    }
  }

  // ---- on a configuration ----

  /** What authentication puts into the context of a request that resolves to the entry. */
  function ContextOf(e: Identity): AuthContext {
    AuthContext(e.token, e.fingerprint, e.name, e.tenant, e.app, e.rateLimitQPS, e.rateLimitBurst, e.dailyTokenLimit)
  }

  function AskerOf(e: Identity, clientIP: string): Asker {
    Asker(Some(ContextOf(e)), clientIP)
  }

  ghost predicate AsksFor(es: seq<Identity>, a: Asker) {
    exists i :: 0 <= i < |es| && a == AskerOf(es[i], a.clientIP)
  }

  /** All requests that authentication lets through. */
  ghost function AskersOf(es: seq<Identity>): iset<Asker> {
    iset a | AsksFor(es, a)
  }

  /** No entry that shares the fingerprint has a rate setting strictly between zero and one. */
  predicate SharersWhole(es: seq<Identity>, f: Fingerprint) {
    forall i :: 0 <= i < |es| && es[i].fingerprint == f ==> !(0.0 < es[i].rateLimitQPS < 1.0)
  }

  lemma KeyOfEntry(hash: string -> string, e: Identity, clientIP: string)
    requires Tidy(e.token) && e.fingerprint != NoFingerprint
    ensures KeyOf(hash, AskerOf(e, clientIP)) == TokenKey(e.fingerprint)
  {
    TrimSpaceOfTrimmed(e.token);
  }

  predicate AllHex(es: seq<Identity>) {
    forall i :: 0 <= i < |es| ==> HexDigest(es[i].fingerprint)
  }

  lemma SharersAsk(hash: string -> string, es: seq<Identity>, f: Fingerprint)
    requires R.TokensTidy(es) && AllHex(es) && HexDigest(f)
    ensures NoneFractional(hash, AskersOf(es), TokenKey(f)) <==> SharersWhole(es, f)
  {
    if NoneFractional(hash, AskersOf(es), TokenKey(f)) {
      forall i | 0 <= i < |es| && es[i].fingerprint == f
        ensures !(0.0 < es[i].rateLimitQPS < 1.0)
      {
        KeyOfEntry(hash, es[i], "");
        assert AsksFor(es, AskerOf(es[i], ""));
      }
    }
    if SharersWhole(es, f) {
      forall a | a in AskersOf(es) && KeyOf(hash, a) == TokenKey(f)
        ensures !Fractional(a.ctx)
      {
        assert AsksFor(es, a);
        var i :| 0 <= i < |es| && a == AskerOf(es[i], a.clientIP);
        KeyOfEntry(hash, es[i], a.clientIP);
        TokenKeysAreApart(es[i].fingerprint, f);
      }
    }
  }

  /**
   * On a configuration the advice to a caller known by a fingerprint is honest in all runs exactly when no
   * entry that shares the fingerprint has a rate setting strictly between zero and one.
   */
  lemma {:induction false} HonestForIff(hash: string -> string, cfg: Limits, es: seq<Identity>, f: Fingerprint)
    requires R.TokensTidy(es) && AllHex(es) && HexDigest(f)
    ensures Honest(hash, cfg, AskersOf(es), TokenKey(f)) <==> SharersWhole(es, f)
  {
    SharersAsk(hash, es, f);
    HonestIff(hash, cfg, AskersOf(es), TokenKey(f));
  }

  /**
   * A configuration that validation accepts: a valid token with a whole rate, and a structured token that is
   * the same token behind a scheme word, with a rate strictly between zero and one. Both share a bucket;
   * once the second has looked it up and spent its burst, the first is refused for good.
   */
  lemma SharedBucketStarves(hash: string -> string, auth: Auth, token: string, now: real) returns (run: seq<Section>)
    requires R.SchemeWordPair(auth, token) && 0.0 < auth.tokens[0].rateLimitQPS < 1.0 <= auth.rateLimitQPS && now >= 1.0
    ensures Accepted(auth) && ValuesTidy(auth.tokens)
    ensures var cfg, es := Limits(auth.rateLimitQPS, auth.rateLimitBurst), R.Entries(hash, auth);
      var key := TokenKey(TokenFingerprint(hash, token));
      && |es| == 2 && es[0].token == token && es[0].rateLimitQPS == auth.rateLimitQPS
      && AskedFrom(hash, cfg, AskersOf(es), run)
      && |run| >= 2 && run[|run| - 2] == LookUpBy(hash, cfg, AskerOf(es[0], "")) && run[|run| - 1] == Ask(key, 0.0)
      && (exists i :: Waited(run, key, i, now))
      && !Admits(After(run)[key], now)
  {
    var m, es := R.MakersOf(hash, auth), R.Entries(hash, auth);
    R.LegacyAndOwn(m, auth, token);
    R.EntriesAreTidy(hash, auth);
    R.MadeIdentities(hash, auth, token);
    SchemeWordIsDropped(hash, token);
    run := SharedBucket(hash, Limits(auth.rateLimitQPS, auth.rateLimitBurst), es, TokenFingerprint(hash, token), now);
  }

  lemma SharedBucket(hash: string -> string, cfg: Limits, es: seq<Identity>, f: Fingerprint, now: real)
    returns (run: seq<Section>)
    requires |es| == 2 && R.TokensTidy(es) && es[0].fingerprint == es[1].fingerprint == f != NoFingerprint
    requires 0.0 < es[1].rateLimitQPS < 1.0 && now >= 1.0
    ensures AskedFrom(hash, cfg, AskersOf(es), run)
    ensures |run| >= 2 && run[|run| - 2] == LookUpBy(hash, cfg, AskerOf(es[0], ""))
    ensures run[|run| - 1] == Ask(TokenKey(f), 0.0)
    ensures exists i :: Waited(run, TokenKey(f), i, now)
    ensures !Admits(After(run)[TokenKey(f)], now)
  {
    var slow, other := AskerOf(es[1], ""), AskerOf(es[0], "");
    KeyOfEntry(hash, es[0], "");
    KeyOfEntry(hash, es[1], "");
    assert AsksFor(es, slow) && AsksFor(es, other);
    run := FractionalRateStarves(hash, cfg, slow, other, now);
    MoreAskers(hash, cfg, iset{slow, other}, AskersOf(es), run);
  }
}
