/** The rate-limit handler (internal/middleware/ratelimit.go): quota gate, Redis limiter and local fallback. */
module RateLimit {
  import opened KeyedLimiter
  import opened LocalLimiter
  import opened Redact
  import opened Registry
  import opened Text
  import opened Usage
  import opened Wire

  datatype AuthContext = AuthContext(
    token: string, fingerprint: Fingerprint, tokenName: string, tenant: string, app: string,
    rateLimitQPS: real, rateLimitBurst: int, dailyTokenLimit: int)

  datatype Limits = Limits(rateLimitQPS: real, rateLimitBurst: int)

  /** What asking Redis comes to; durations are in seconds. */
  datatype RedisReply =
    | Unhealthy
    | Failed
    | Replied(allowed: int, retryAfter: real)

  datatype Decision =
    | OverQuota(limit: int, consumed: int)
    | Refused(qps: int, burst: int, retryAfter: int)
    | Forwarded(qps: int, burst: int)

  /** Go's conversion of a float to an int. */
  function Trunc(x: real): int {
    if x >= 0.0 then x.Floor else -((-x).Floor)
  }

  function EffectiveQps(cfg: Limits, ctx: Option<AuthContext>): int {
    if ctx.Some? && ctx.value.rateLimitQPS > 0.0 then Trunc(ctx.value.rateLimitQPS)
    else if Trunc(cfg.rateLimitQPS) <= 0 then 1
    else Trunc(cfg.rateLimitQPS)
  }

  function EffectiveBurst(cfg: Limits, ctx: Option<AuthContext>): int {
    if ctx.Some? && ctx.value.rateLimitBurst > 0 then ctx.value.rateLimitBurst
    else if cfg.rateLimitBurst > 0 then cfg.rateLimitBurst
    else EffectiveQps(cfg, None)
  }

  function TokenKey(f: Fingerprint): string { "rate_limit:token:" + Rendered(f) }
  function IpKey(ip: string): string { "rate_limit:ip:" + ip }

  function FingerprintOf(hash: string -> string, ctx: AuthContext): Fingerprint {
    if ctx.fingerprint == NoFingerprint then TokenFingerprint(hash, ctx.token) else ctx.fingerprint
  }

  function LimitKey(hash: string -> string, ctx: Option<AuthContext>, clientIP: string): string {
    if ctx.Some? && TrimSpace(ctx.value.token) != "" && FingerprintOf(hash, ctx.value) != NoFingerprint
    then TokenKey(FingerprintOf(hash, ctx.value))
    else IpKey(clientIP)
  }

  function IdentityOf(ctx: AuthContext): Identity {
    Identity("", ctx.fingerprint, ctx.tokenName, ctx.tenant, ctx.app, 0.0, 0, ctx.dailyTokenLimit, false)
  }

  ghost predicate OverQuotaNow(t: Table, day: string, ctx: Option<AuthContext>) {
    ctx.Some? && QuotaExceeded(t, day, IdentityOf(ctx.value))
  }

  /** The decision after the quota gate, given the answer of whichever limiter was asked. */
  function Answer(cfg: Limits, ctx: Option<AuthContext>, allowed: bool, retryAfter: int): Decision {
    var qps, burst := EffectiveQps(cfg, ctx), EffectiveBurst(cfg, ctx);
    if allowed then Forwarded(qps, burst) else Refused(qps, burst, retryAfter)
  }

  /** The parameters the handler computes by successive reassignment. */
  method EffectiveLimits(cfg: Limits, ctx: Option<AuthContext>) returns (qps: int, burst: int)
    ensures qps == EffectiveQps(cfg, ctx) && burst == EffectiveBurst(cfg, ctx)
  {
    qps := Trunc(cfg.rateLimitQPS);
    if qps <= 0 {
      qps := 1;
    }
    burst := cfg.rateLimitBurst;
    if burst <= 0 {
      burst := qps;
    }
    if ctx.Some? {
      if ctx.value.rateLimitQPS > 0.0 {
        qps := Trunc(ctx.value.rateLimitQPS);
      }
      if ctx.value.rateLimitBurst > 0 {
        burst := ctx.value.rateLimitBurst;
      }
    }
  }

  /**
   * The handler. `created` and `now` are readings of a monotonic clock. A caller over quota costs no
   * limiter anything; otherwise exactly one limiter answers, the local one only when Redis does not.
   */
  method Handle(
    hash: string -> string, cfg: Limits, ctx: Option<AuthContext>, clientIP: string, redis: RedisReply,
    usage: UsageTable, day: string, fallback: KeyedLocalLimiter, created: real, now: real)
    returns (decision: Decision)
    requires usage.Valid() && fallback.Valid() && created <= now
    requires forall key :: key in fallback.buckets ==> fallback.buckets[key].last <= now
    modifies fallback, fallback.buckets.Values
    ensures fallback.Valid()
    ensures OverQuotaNow(usage.table, day, ctx) ==>
      fallback.accounts == old(fallback.accounts) &&
      decision == OverQuota(ctx.value.dailyTokenLimit, TotalOf(usage.table, day, ctx.value.fingerprint))
    ensures !OverQuotaNow(usage.table, day, ctx) && redis.Replied? ==>
      fallback.accounts == old(fallback.accounts) &&
      decision == Answer(cfg, ctx, redis.allowed > 0, RedisAdvice(redis.retryAfter))
    ensures !OverQuotaNow(usage.table, day, ctx) && !redis.Replied? ==>
      var key := LimitKey(hash, ctx, clientIP);
      var found := LookedUp(old(fallback.accounts), key, EffectiveQps(cfg, ctx) as real, EffectiveBurst(cfg, ctx));
      fallback.accounts == Asked(found, key, now) && decision == Answer(cfg, ctx, Admits(found[key], now), 1)
    ensures decision.OverQuota? <==>
      ctx.Some? && ctx.value.dailyTokenLimit > 0
      && TotalOf(usage.table, day, ctx.value.fingerprint) >= ctx.value.dailyTokenLimit
    ensures decision.Forwarded? <==>
      && !decision.OverQuota?
      && (if redis.Replied? then redis.allowed > 0 else
           var key, qps := LimitKey(hash, ctx, clientIP), EffectiveQps(cfg, ctx) as real;
           Admits(LookedUp(old(fallback.accounts), key, qps, EffectiveBurst(cfg, ctx))[key], now))
  {
    var qps, burst := EffectiveLimits(cfg, ctx);
    if ctx.Some? {
      var exceeded, consumed := usage.IsDailyQuotaExceeded(IdentityOf(ctx.value), day);
      if exceeded {
        return OverQuota(ctx.value.dailyTokenLimit, consumed);
      }
    }
    RateIsNat(cfg, ctx);
    var limitKey := LimitKey(hash, ctx, clientIP);
    var allowed, retryAfter := false, None;
    if redis.Replied? {
      allowed := redis.allowed > 0;
      if redis.retryAfter > 0.0 {
        retryAfter := Some(Trunc(redis.retryAfter));
      }
    } else {
      allowed := fallback.Allow(limitKey, qps as real, burst, created, now);
    }
    if !allowed {
      decision := Refused(qps, burst, if retryAfter.Some? then retryAfter.value else 1);
    } else {
      decision := Forwarded(qps, burst);
    }
  }

  /** The truncation of the configured rate: the burst is never below one, the rate never below zero. */
  lemma RateIsNat(cfg: Limits, ctx: Option<AuthContext>)
    ensures EffectiveQps(cfg, ctx) >= 0 && EffectiveBurst(cfg, ctx) >= 1
    ensures EffectiveQps(cfg, ctx) == 0 <==> ctx.Some? && 0.0 < ctx.value.rateLimitQPS < 1.0
  {
  }

  /** A token's own settings come before the configured ones; rates lose their fractions. */
  lemma SettingsMean(cfg: Limits, ctx: Option<AuthContext>)
    ensures ctx.Some? && ctx.value.rateLimitQPS > 0.0 ==>
      EffectiveQps(cfg, ctx) as real <= ctx.value.rateLimitQPS < EffectiveQps(cfg, ctx) as real + 1.0
    ensures !(ctx.Some? && ctx.value.rateLimitQPS > 0.0) && cfg.rateLimitQPS >= 1.0 ==>
      EffectiveQps(cfg, ctx) as real <= cfg.rateLimitQPS < EffectiveQps(cfg, ctx) as real + 1.0
    ensures !(ctx.Some? && ctx.value.rateLimitQPS > 0.0) && cfg.rateLimitQPS < 1.0 ==> EffectiveQps(cfg, ctx) == 1
    ensures ctx.Some? && ctx.value.rateLimitBurst > 0 ==> EffectiveBurst(cfg, ctx) == ctx.value.rateLimitBurst
    ensures !(ctx.Some? && ctx.value.rateLimitBurst > 0) && cfg.rateLimitBurst > 0 ==>
      EffectiveBurst(cfg, ctx) == cfg.rateLimitBurst
    ensures !(ctx.Some? && ctx.value.rateLimitBurst > 0) && cfg.rateLimitBurst <= 0 ==>
      if cfg.rateLimitQPS < 1.0 then EffectiveBurst(cfg, ctx) == 1
      else EffectiveBurst(cfg, ctx) as real <= cfg.rateLimitQPS < EffectiveBurst(cfg, ctx) as real + 1.0
  {
  }

  /** Past the quota gate a request goes on exactly when the limiter asked allows it. */
  lemma DecisionMeans(cfg: Limits, ctx: Option<AuthContext>, allowed: bool, advice: int)
    ensures Answer(cfg, ctx, allowed, advice).Forwarded? <==> allowed
    ensures Answer(cfg, ctx, allowed, advice).Refused? <==> !allowed
    ensures !allowed ==> Answer(cfg, ctx, allowed, advice).retryAfter == advice
    ensures Answer(cfg, ctx, allowed, advice).qps == EffectiveQps(cfg, ctx)
    ensures Answer(cfg, ctx, allowed, advice).burst == EffectiveBurst(cfg, ctx)
  {
  }

  /** A caller with a token is limited by its fingerprint, anyone else by address. */
  lemma KeyMeans(hash: string -> string, ctx: Option<AuthContext>, clientIP: string)
    ensures ctx == None || TrimSpace(ctx.value.token) == "" ==>
      LimitKey(hash, ctx, clientIP) == "rate_limit:ip:" + clientIP
    ensures ctx.Some? && TrimSpace(ctx.value.token) != "" && ctx.value.fingerprint != NoFingerprint ==>
      LimitKey(hash, ctx, clientIP) == "rate_limit:token:" + Rendered(ctx.value.fingerprint)
    ensures ctx.Some? && TrimSpace(ctx.value.token) != "" && ctx.value.fingerprint == NoFingerprint ==>
      var f := TokenFingerprint(hash, ctx.value.token);
      LimitKey(hash, ctx, clientIP)
      == if f != NoFingerprint then "rate_limit:token:" + Rendered(f) else "rate_limit:ip:" + clientIP
  {
  }

  /** What Redis's wait, in seconds, is made of in the header. */
  function RedisAdvice(wait: real): int {
    if wait > 0.0 then Trunc(wait) else 1
  }

  /** The advice covers the wait that Redis reports exactly when that is a whole number of seconds, or none. */
  lemma RedisAdviceCoversIff(wait: real)
    ensures RedisAdvice(wait) as real >= wait <==> wait <= 0.0 || wait == wait.Floor as real
    ensures 0.0 < wait < 1.0 ==> RedisAdvice(wait) == 0
  {
  }

  // ---- callers do not share a limit ----

  lemma {:induction false} DecimalInjective(a: nat, b: nat)
    requires Decimal(a) == Decimal(b)
    ensures a == b
    decreases a + b
  {
    var s, t := Decimal(a), Decimal(b);
    DecimalShape(a);
    DecimalShape(b);
    assert a % 10 == b % 10;
    if a >= 10 && b >= 10 {
      assert s[..|s| - 1] == Decimal(a / 10) && t[..|t| - 1] == Decimal(b / 10);
      DecimalInjective(a / 10, b / 10);
    }
  }

  lemma DecimalShape(n: nat)
    ensures Decimal(n) != [] && Decimal(n)[|Decimal(n)| - 1] == '0' + (n % 10) as char
    ensures |Decimal(n)| == 1 <==> n < 10
  {
    if n >= 10 {
      DecimalShape(n / 10);
    }
  }

  predicate HexDigest(f: Fingerprint) {
    f.Fingerprint? && |f.digest| == 16
  }

  /** Two callers share a limit key only if they have the same fingerprint. */
  lemma TokenKeysAreApart(f: Fingerprint, g: Fingerprint)
    requires HexDigest(f) && HexDigest(g) && TokenKey(f) == TokenKey(g)
    ensures f == g
  {
    var head, lenTag := "rate_limit:token:" + "sha256:", ":len=";
    Regrouped("rate_limit:token:", "sha256:", f.digest, lenTag, Decimal(f.length));
    Regrouped("rate_limit:token:", "sha256:", g.digest, lenTag, Decimal(g.length));
    SameTail(head, f.digest + (lenTag + Decimal(f.length)), g.digest + (lenTag + Decimal(g.length)));
    SameHead(f.digest, lenTag + Decimal(f.length), g.digest, lenTag + Decimal(g.length));
    SameTail(lenTag, Decimal(f.length), Decimal(g.length));
    DecimalInjective(f.length, g.length);
  }

  lemma Regrouped(a: string, b: string, c: string, d: string, e: string)
    ensures a + (((b + c) + d) + e) == (a + b) + (c + (d + e))
  {
  }

  lemma SameTail(head: string, a: string, b: string)
    requires head + a == head + b
    ensures a == b
  {
    assert a == (head + a)[|head|..] && b == (head + b)[|head|..];
  }

  lemma SameHead(a: string, x: string, b: string, y: string)
    requires a + x == b + y && |a| == |b|
    ensures a == b && x == y
  {
    assert a == (a + x)[..|a|] && b == (b + y)[..|b|];
    assert x == (a + x)[|a|..] && y == (b + y)[|b|..];
  }

  /** A caller known by token never shares a limit key with one known by address. */
  lemma TokenAndIpKeysAreApart(f: Fingerprint, ip: string)
    ensures TokenKey(f) != IpKey(ip)
  {
    assert TokenKey(f)[11] == 't' && IpKey(ip)[11] == 'i';
  }
}
