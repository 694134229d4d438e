/** Daily usage accounting (internal/tenant/usage.go). The time a snapshot was last touched is left out. */
module Usage {
  import opened Redact
  import opened Wire

  datatype Identity = Identity(
    token: string, fingerprint: Fingerprint, name: string, tenant: string, app: string,
    rateLimitQPS: real, rateLimitBurst: int, dailyTokenLimit: int, legacy: bool)

  /** The value of one usage snapshot. */
  datatype Snapshot = Snapshot(
    date: string, fingerprint: Fingerprint, tokenName: string, tenant: string, app: string,
    requests: int, promptTokens: int, completionTokens: int, totalTokens: int, cacheHits: int,
    dailyTokenLimit: int, remainingTokens: int)

  /** Where a snapshot lives. The source nests a map by fingerprint in a map by day; here one map is keyed by both. */
  datatype Slot = Slot(day: string, fingerprint: Fingerprint)

  type Table = map<Slot, Snapshot>

  /** The part of an audit record that accounting uses. */
  datatype Usage = Usage(promptTokens: int, completionTokens: int, totalTokens: int, costStatus: string)

  function NewSnapshot(day: string, id: Identity): Snapshot {
    Snapshot(day, id.fingerprint, id.name, id.tenant, id.app, 0, 0, 0, 0, 0, id.dailyTokenLimit, 0)
  }

  function Bump(s: Snapshot, u: Usage): Snapshot {
    var total := s.totalTokens + u.totalTokens;
    s.(requests := s.requests + 1,
       promptTokens := s.promptTokens + u.promptTokens,
       completionTokens := s.completionTokens + u.completionTokens,
       totalTokens := total,
       cacheHits := s.cacheHits + (if u.costStatus == "hit_cache" then 1 else 0),
       remainingTokens :=
         if s.dailyTokenLimit <= 0 then s.remainingTokens
         else if s.dailyTokenLimit - total < 0 then 0 else s.dailyTokenLimit - total)
  }

  /** The snapshot an accounting entry of the day falls on, made on first use. */
  function SnapshotFor(t: Table, day: string, id: Identity): Snapshot {
    var slot := Slot(day, id.fingerprint);
    if slot in t then t[slot] else NewSnapshot(day, id)
  }

  function Recorded(t: Table, day: string, id: Identity, u: Usage): Table {
    if id.fingerprint == NoFingerprint then t
    else t[Slot(day, id.fingerprint) := Bump(SnapshotFor(t, day, id), u)]
  }

  function TotalOf(t: Table, day: string, fp: Fingerprint): int {
    if Slot(day, fp) in t then t[Slot(day, fp)].totalTokens else 0
  }

  /** A limit, if there is one, has been reached. */
  predicate UsedUp(t: Table, day: string, f: Fingerprint, limit: int) {
    limit > 0 && TotalOf(t, day, f) >= limit
  }

  predicate QuotaExceeded(t: Table, day: string, id: Identity) {
    UsedUp(t, day, id.fingerprint, id.dailyTokenLimit)
  }

  lemma RecordedAfterLookup(t: Table, found: Table, day: string, id: Identity, u: Usage)
    requires id.fingerprint != NoFingerprint
    requires found == t[Slot(day, id.fingerprint) := SnapshotFor(t, day, id)]
    ensures found[Slot(day, id.fingerprint) := Bump(found[Slot(day, id.fingerprint)], u)] == Recorded(t, day, id, u)
  {
  }

  class UsageSnapshot {
    const date: string
    const fingerprint: Fingerprint
    const tokenName: string
    const tenant: string
    const app: string
    var requests: int
    var promptTokens: int
    var completionTokens: int
    var totalTokens: int
    var cacheHits: int
    const dailyTokenLimit: int
    var remainingTokens: int

    function Value(): Snapshot
      reads this
    {
      Snapshot(date, fingerprint, tokenName, tenant, app, requests, promptTokens, completionTokens,
               totalTokens, cacheHits, dailyTokenLimit, remainingTokens)
    }

    /** Date and fingerprint never change, so neither does the place in the table. */
    function Place(): Slot {
      Slot(date, fingerprint)
    }

    constructor (day: string, id: Identity)
      ensures Value() == NewSnapshot(day, id) && Place() == Slot(day, id.fingerprint)
    {
      date, fingerprint, tokenName, tenant, app := day, id.fingerprint, id.name, id.tenant, id.app;
      requests, promptTokens, completionTokens, totalTokens, cacheHits := 0, 0, 0, 0, 0;
      dailyTokenLimit, remainingTokens := id.dailyTokenLimit, 0;
    }

    method Add(u: Usage)
      modifies this
      ensures Value() == Bump(old(Value()), u)
    {
      requests := requests + 1;
      promptTokens := promptTokens + u.promptTokens;
      completionTokens := completionTokens + u.completionTokens;
      totalTokens := totalTokens + u.totalTokens;
      if u.costStatus == "hit_cache" {
        cacheHits := cacheHits + 1;
      }
      if dailyTokenLimit > 0 {
        var remaining := dailyTokenLimit - totalTokens;
        if remaining < 0 {
          remaining := 0;
        }
        remainingTokens := remaining;
      }
    }
  }

  ghost predicate Shown(snapshots: map<Slot, UsageSnapshot>, table: Table)
    reads snapshots.Values
  {
    && snapshots.Keys == table.Keys
    && (forall s :: s in snapshots ==> snapshots[s].Value() == table[s] && snapshots[s].Place() == s)
  }

  lemma ShownCreate(snapshots: map<Slot, UsageSnapshot>, table: Table, slot: Slot, made: UsageSnapshot, v: Snapshot)
    requires Shown(snapshots, table)
    requires made.Place() == slot && made.Value() == v
    ensures Shown(snapshots[slot := made], table[slot := v])
  {
  }

  class UsageTable {
    var snapshots: map<Slot, UsageSnapshot>
    ghost var table: Table

    /** Snapshots are not shared between slots, and hold what the table says. */
    ghost predicate Valid()
      reads this, snapshots.Values
    {
      Shown(snapshots, table)
    }

    constructor ()
      ensures Valid() && table == map[]
    {
      snapshots, table := map[], map[];
    }

    /** Tokens used on the day the clock shows, and whether there is an entry for it. */
    method TodayUsage(fp: Fingerprint, day: string) returns (consumed: int, found: bool)
      requires Valid()
      ensures consumed == TotalOf(table, day, fp)
      ensures found <==> Slot(day, fp) in table
    {
      if Slot(day, fp) !in snapshots {
        return 0, false;
      }
      assert snapshots[Slot(day, fp)].Value() == table[Slot(day, fp)];
      return snapshots[Slot(day, fp)].totalTokens, true;
    }

    method IsDailyQuotaExceeded(id: Identity, day: string) returns (exceeded: bool, consumed: int)
      requires Valid()
      ensures exceeded == QuotaExceeded(table, day, id)
      ensures exceeded <==> id.dailyTokenLimit > 0 && TotalOf(table, day, id.fingerprint) >= id.dailyTokenLimit
      ensures consumed == if id.dailyTokenLimit <= 0 then 0 else TotalOf(table, day, id.fingerprint)
    {
      if id.dailyTokenLimit <= 0 {
        return false, 0;
      }
      var found;
      consumed, found := TodayUsage(id.fingerprint, day);
      exceeded := consumed >= id.dailyTokenLimit;
    }

    /** The day's snapshot of the identity, made and entered on first use. */
    method SnapshotOn(day: string, id: Identity) returns (snapshot: UsageSnapshot)
      requires Valid()
      modifies this
      ensures Valid()
      ensures Slot(day, id.fingerprint) in snapshots && snapshots[Slot(day, id.fingerprint)] == snapshot
      ensures table == old(table)[Slot(day, id.fingerprint) := SnapshotFor(old(table), day, id)]
      ensures snapshots.Values <= old(snapshots.Values) + {snapshot}
      ensures snapshot in old(snapshots.Values) || fresh(snapshot)
    {
      var slot := Slot(day, id.fingerprint);
      if slot in snapshots {
        snapshot := snapshots[slot];
      } else {
        snapshot := new UsageSnapshot(day, id);
        ShownCreate(snapshots, table, slot, snapshot, NewSnapshot(day, id));
        snapshots := snapshots[slot := snapshot];
        table := table[slot := NewSnapshot(day, id)];
      }
    }

    method AddTo(slot: Slot, snapshot: UsageSnapshot, u: Usage)
      requires Valid() && slot in snapshots && snapshots[slot] == snapshot
      modifies this`table, snapshot
      ensures Valid() && table == old(table)[slot := Bump(old(table)[slot], u)]
    {
      snapshot.Add(u);
      table := table[slot := Bump(table[slot], u)];
    }

    method RecordUsage(id: Identity, u: Usage, day: string)
      requires Valid()
      modifies this, snapshots.Values
      ensures Valid() && table == Recorded(old(table), day, id, u)
    {
      if id.fingerprint == NoFingerprint {
        return;
      }
      var snapshot := SnapshotOn(day, id);
      RecordedAfterLookup(old(table), table, day, id, u);
      AddTo(Slot(day, id.fingerprint), snapshot, u);
    }
  }
}
