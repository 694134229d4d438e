/** One token bucket per key, created on first use (internal/middleware/local_limiter.go). */
module KeyedLimiter {
  import opened LocalLimiter

  /** What one bucket amounts to: its parameters and the calls it has answered. */
  datatype Account = Account(rate: real, burst: real, calls: seq<Call>)

  /**
   * A call on the limiter runs two sections, each under a mutex of its own, and other callers may come
   * between them: it finds its bucket, or makes one, and then asks the bucket for an answer.
   */
  datatype Section =
    | LookUp(key: string, rate: real, burst: int)
    | Ask(key: string, at: real)

  ghost predicate Admits(account: Account, now: real) {
    Permits(account.rate, account.burst, account.calls, now)
  }

  /** A key keeps the rate and burst of the first look-up. */
  function LookedUp(accounts: map<string, Account>, key: string, rate: real, burst: int): map<string, Account> {
    if key in accounts then accounts else accounts[key := Account(rate, burst as real, [])]
  }

  function Answered(account: Account, now: real, ok: bool): Account {
    account.(calls := account.calls + [Call(now, ok)])
  }

  ghost function Asked(accounts: map<string, Account>, key: string, now: real): map<string, Account>
    requires key in accounts
  {
    accounts[key := Answered(accounts[key], now, Admits(accounts[key], now))]
  }

  lemma AskedIs(accounts: map<string, Account>, key: string, now: real, ok: bool)
    requires key in accounts && ok == Admits(accounts[key], now)
    ensures accounts[key := Answered(accounts[key], now, ok)] == Asked(accounts, key, now)
  {
  }

  predicate Enabled(accounts: map<string, Account>, s: Section) {
    s.Ask? ==> s.key in accounts
  }

  ghost function Apply(accounts: map<string, Account>, s: Section): map<string, Account>
    requires Enabled(accounts, s)
  {
    match s
    case LookUp(key, rate, burst) => LookedUp(accounts, key, rate, burst)
    case Ask(key, at) => Asked(accounts, key, at)
  }

  /** From an empty limiter, nobody asks a bucket before somebody has looked it up. */
  ghost predicate Runnable(run: seq<Section>)
    decreases |run|, 0
  {
    run == [] || (Runnable(run[..|run| - 1]) && Enabled(After(run[..|run| - 1]), run[|run| - 1]))
  }

  ghost function After(run: seq<Section>): map<string, Account>
    requires Runnable(run)
    decreases |run|, 1
  {
    if run == [] then map[] else Apply(After(run[..|run| - 1]), run[|run| - 1])
  }

  function OnlyKey(run: seq<Section>, key: string): seq<Section> {
    if run == [] then []
    else
      var s := run[|run| - 1];
      OnlyKey(run[..|run| - 1], key) + if s.key == key then [s] else []
  }

  ghost predicate SameAccount(a: map<string, Account>, b: map<string, Account>, key: string) {
    (key in a <==> key in b) && (key in a ==> a[key] == b[key])
  }

  lemma OneMore(run: seq<Section>, s: Section)
    requires Runnable(run) && Enabled(After(run), s)
    ensures Runnable(run + [s]) && After(run + [s]) == Apply(After(run), s)
  {
    assert (run + [s])[..|run|] == run;
  }

  /**
   * However the sections of different callers interleave, a key's account, with all its answers, is that of
   * a limiter on which only the key's own sections run.
   */
  lemma {:induction false} KeysAreIsolated(run: seq<Section>, key: string)
    requires Runnable(run)
    ensures Runnable(OnlyKey(run, key)) && SameAccount(After(run), After(OnlyKey(run, key)), key)
  {
    if run == [] {
    } else {
      var before, s := run[..|run| - 1], run[|run| - 1];
      KeysAreIsolated(before, key);
      if s.key == key {
        OneMore(OnlyKey(before, key), s);
      } else {
        assert OnlyKey(run, key) == OnlyKey(before, key);
      }
    }
  }

  /** Buckets refill, and each is asked in the order of its clock. */
  predicate InOrder(run: seq<Section>) {
    && (forall i :: 0 <= i < |run| && run[i].LookUp? ==> run[i].rate >= 0.0)
    && (forall i, j :: 0 <= i < j < |run| && run[i].Ask? && run[j].Ask? && run[i].key == run[j].key ==>
      run[i].at <= run[j].at)
  }

  /** No bucket of the key has been asked later than this. */
  predicate AskedBy(run: seq<Section>, key: string, now: real) {
    forall i :: 0 <= i < |run| && run[i].Ask? && run[i].key == key ==> run[i].at <= now
  }

  /** In every interleaving each key's answers form a trace of a bucket of its own. */
  lemma {:induction false} EveryKeyIsABucket(run: seq<Section>, key: string, now: real)
    requires Runnable(run) && InOrder(run) && AskedBy(run, key, now) && key in After(run)
    ensures var account := After(run)[key];
      && account.rate >= 0.0
      && BucketTrace(account.rate, account.burst, account.calls)
      && (account.calls != [] ==> account.calls[|account.calls| - 1].at <= now)
  {
    var n := |run| - 1;
    var before, s := run[..n], run[n];
    if s.Ask? && s.key == key {
      EveryKeyIsABucket(before, key, s.at);
      AnswerKeepsTrace(After(before)[key], s.at);
    } else if key in After(before) {
      EveryKeyIsABucket(before, key, now);
    }
  }

  lemma AnswerKeepsTrace(account: Account, now: real)
    requires BucketTrace(account.rate, account.burst, account.calls)
    requires account.calls != [] ==> account.calls[|account.calls| - 1].at <= now
    ensures BucketTrace(account.rate, account.burst, account.calls + [Call(now, Admits(account, now))])
  {
    assert (account.calls + [Call(now, Admits(account, now))])[..|account.calls|] == account.calls;
  }

  class KeyedLocalLimiter {
    var buckets: map<string, LocalTokenBucket>
    ghost var accounts: map<string, Account>

    ghost predicate Valid()
      reads this, buckets.Values
    {
      && accounts.Keys == buckets.Keys
      && (forall k :: k in buckets ==>
        && buckets[k].Valid()
        && accounts[k] == Account(buckets[k].rate, buckets[k].burst, buckets[k].history))
      && (forall k, l :: k in buckets && l in buckets && k != l ==> buckets[k] != buckets[l])
    }

    constructor ()
      ensures Valid() && accounts == map[] && buckets == map[]
    {
      buckets := map[];
      accounts := map[];
    }

    /** The section under the limiter's mutex: find the key's bucket or make one. */
    method BucketFor(key: string, rate: real, burst: int, created: real) returns (bucket: LocalTokenBucket)
      requires Valid() && rate >= 0.0
      modifies this
      ensures Valid() && key in buckets && buckets[key] == bucket
      ensures buckets == old(buckets)[key := bucket]
      ensures key in old(buckets) ==> bucket == old(buckets)[key]
      ensures key !in old(buckets) ==> fresh(bucket) && bucket.last == created
      ensures accounts == LookedUp(old(accounts), key, rate, burst)
    {
      if key !in buckets {
        bucket := new LocalTokenBucket(rate, burst, created);
        buckets := buckets[key := bucket];
        accounts := accounts[key := Account(rate, burst as real, [])];
      }
      bucket := buckets[key];
    }

    /** The bucket's own answer, given under the bucket's mutex. */
    method AllowFrom(key: string, now: real) returns (ok: bool)
      requires Valid() && key in buckets && buckets[key].last <= now
      modifies this`accounts, buckets[key]
      ensures Valid() && buckets[key].last == now
      ensures accounts == old(accounts)[key := Answered(old(accounts)[key], now, ok)]
      ensures ok == Admits(old(accounts)[key], now)
    {
      ok := buckets[key].Allow(now);
      accounts := accounts[key := Answered(accounts[key], now, ok)];
    }

    /** `created` and `now` are two successive readings of a monotonic clock. */
    method Allow(key: string, rate: real, burst: int, created: real, now: real) returns (ok: bool)
      requires Valid() && rate >= 0.0 && created <= now
      requires key in buckets ==> buckets[key].last <= now
      modifies this, buckets.Values
      ensures Valid()
      ensures key in buckets && buckets[key].last == now
      ensures accounts == Asked(LookedUp(old(accounts), key, rate, burst), key, now)
      ensures ok == Admits(LookedUp(old(accounts), key, rate, burst)[key], now)
    {
      var bucket := BucketFor(key, rate, burst, created);
      ghost var found := accounts;
      ok := AllowFrom(key, now);
      AskedIs(found, key, now, ok);
    }
  }
}
