/** What the usage table holds after any sequence of accounting entries, whatever their order. */
module UsageTotals {
  import opened Redact
  import opened Wire
  import opened Sums
  import opened Usage

  /** A record as one of the workers accounts for it, on the day its clock shows. */
  datatype Entry = Entry(day: string, fingerprint: Fingerprint, usage: Usage)

  /** The identity registered for a fingerprint, fixed while the registry is. */
  type Registry = Fingerprint -> Option<Identity>

  ghost predicate Filed(registry: Registry) {
    forall f :: registry(f).Some? ==> registry(f).value.fingerprint == f
  }

  /** A worker's handling of one record. */
  function Account(registry: Registry, t: Table, e: Entry): Table {
    if registry(e.fingerprint).Some? then Recorded(t, e.day, registry(e.fingerprint).value, e.usage) else t
  }

  function TableAfter(registry: Registry, es: seq<Entry>): Table {
    if es == [] then map[] else Account(registry, TableAfter(registry, es[..|es| - 1]), es[|es| - 1])
  }

  /** Counts a quantity of the entries that fall on the slot. */
  function On(slot: Slot, amount: Usage -> int): Entry -> int {
    (e: Entry) => if e.day == slot.day && e.fingerprint == slot.fingerprint then amount(e.usage) else 0
  }

  function Requests(): Usage -> int { (u: Usage) => 1 }
  function Prompt(): Usage -> int { (u: Usage) => u.promptTokens }
  function Completion(): Usage -> int { (u: Usage) => u.completionTokens }
  function Total(): Usage -> int { (u: Usage) => u.totalTokens }
  function Hits(): Usage -> int { (u: Usage) => if u.costStatus == "hit_cache" then 1 else 0 }

  function Remaining(limit: int, used: int): int {
    if limit <= 0 || limit < used then 0 else limit - used
  }

  /** The snapshot the entries on the slot add up to. */
  function Tally(id: Identity, slot: Slot, es: seq<Entry>): Snapshot {
    Snapshot(slot.day, slot.fingerprint, id.name, id.tenant, id.app,
             Sum(On(slot, Requests()), es), Sum(On(slot, Prompt()), es), Sum(On(slot, Completion()), es),
             Sum(On(slot, Total()), es), Sum(On(slot, Hits()), es),
             id.dailyTokenLimit, Remaining(id.dailyTokenLimit, Sum(On(slot, Total()), es)))
  }

  /** A slot has a snapshot once an entry with a registered, non-empty fingerprint fell on it. */
  predicate Touched(registry: Registry, es: seq<Entry>, slot: Slot) {
    registry(slot.fingerprint).Some? && slot.fingerprint != NoFingerprint && Sum(On(slot, Requests()), es) > 0
  }

  predicate Falls(e: Entry, slot: Slot) {
    e.day == slot.day && e.fingerprint == slot.fingerprint
  }

  lemma TallyAppend(id: Identity, slot: Slot, es: seq<Entry>, e: Entry)
    ensures Falls(e, slot) ==> Tally(id, slot, es + [e]) == Bump(Tally(id, slot, es), e.usage)
    ensures !Falls(e, slot) ==> Tally(id, slot, es + [e]) == Tally(id, slot, es)
  {
    SumAppend(On(slot, Requests()), es, e);
    SumAppend(On(slot, Prompt()), es, e);
    SumAppend(On(slot, Completion()), es, e);
    SumAppend(On(slot, Total()), es, e);
    SumAppend(On(slot, Hits()), es, e);
  }

  lemma FirstEntry(id: Identity, slot: Slot, u: Usage)
    requires id.fingerprint == slot.fingerprint
    ensures Bump(NewSnapshot(slot.day, id), u) == Bump(Tally(id, slot, []), u)
  {
  }

  lemma {:induction false} Untouched(id: Identity, slot: Slot, es: seq<Entry>)
    ensures Sum(On(slot, Requests()), es) >= 0
    ensures Sum(On(slot, Requests()), es) == 0 ==> Tally(id, slot, es) == Tally(id, slot, [])
  {
    if es == [] {
    } else {
      var n := |es| - 1;
      assert es == es[..n] + [es[n]];
      Untouched(id, slot, es[..n]);
      TallyAppend(id, slot, es[..n], es[n]);
    }
  }

  /** Every slot of the table is the tally of the entries that fell on it, and only touched slots exist. */
  lemma {:induction false} TableIsTally(registry: Registry, es: seq<Entry>, slot: Slot)
    requires Filed(registry)
    ensures slot in TableAfter(registry, es) <==> Touched(registry, es, slot)
    ensures Touched(registry, es, slot) ==>
      TableAfter(registry, es)[slot] == Tally(registry(slot.fingerprint).value, slot, es)
  {
    if es == [] {
    } else {
      var n := |es| - 1;
      var e := es[n];
      TableIsTally(registry, es[..n], slot);
      assert es == es[..n] + [e];
      SumAppend(On(slot, Requests()), es[..n], e);
      if registry(slot.fingerprint).Some? && slot.fingerprint != NoFingerprint {
        var id := registry(slot.fingerprint).value;
        Untouched(id, slot, es[..n]);
        TallyAppend(id, slot, es[..n], e);
        FirstEntry(id, slot, e.usage);
      }
    }
  }

  /** Field by field: whose snapshot it is, the sums of what was reported for it, and what the limit leaves. */
  lemma SnapshotIs(registry: Registry, es: seq<Entry>, slot: Slot)
    requires Filed(registry) && slot in TableAfter(registry, es)
    ensures registry(slot.fingerprint).Some?
    ensures var v, id := TableAfter(registry, es)[slot], registry(slot.fingerprint).value;
      && v.date == slot.day && v.fingerprint == slot.fingerprint
      && v.tokenName == id.name && v.tenant == id.tenant && v.app == id.app && v.dailyTokenLimit == id.dailyTokenLimit
      && v.requests == Sum(On(slot, (u: Usage) => 1), es)
      && v.promptTokens == Sum(On(slot, (u: Usage) => u.promptTokens), es)
      && v.completionTokens == Sum(On(slot, (u: Usage) => u.completionTokens), es)
      && v.totalTokens == Sum(On(slot, (u: Usage) => u.totalTokens), es)
      && v.cacheHits == Sum(On(slot, (u: Usage) => if u.costStatus == "hit_cache" then 1 else 0), es)
      && (id.dailyTokenLimit > 0 && v.totalTokens <= id.dailyTokenLimit ==>
        v.remainingTokens == id.dailyTokenLimit - v.totalTokens)
      && (id.dailyTokenLimit <= 0 || v.totalTokens > id.dailyTokenLimit ==> v.remainingTokens == 0)
  {
    TableIsTally(registry, es, slot);
  }

  /** Any two schedules that account for the same entries leave the same table. */
  lemma OrderIndependent(registry: Registry, a: seq<Entry>, b: seq<Entry>)
    requires Filed(registry) && multiset(a) == multiset(b)
    ensures TableAfter(registry, a) == TableAfter(registry, b)
  {
    forall slot: Slot
      ensures slot in TableAfter(registry, a) <==> slot in TableAfter(registry, b)
      ensures slot in TableAfter(registry, a) ==> TableAfter(registry, a)[slot] == TableAfter(registry, b)[slot]
    {
      SameTally(registry, a, b, slot);
    }
  }

  lemma SameTally(registry: Registry, a: seq<Entry>, b: seq<Entry>, slot: Slot)
    requires Filed(registry) && multiset(a) == multiset(b)
    ensures slot in TableAfter(registry, a) <==> slot in TableAfter(registry, b)
    ensures slot in TableAfter(registry, a) ==> TableAfter(registry, a)[slot] == TableAfter(registry, b)[slot]
  {
    TableIsTally(registry, a, slot);
    TableIsTally(registry, b, slot);
    SumPermutes(On(slot, Requests()), a, b);
    SumPermutes(On(slot, Prompt()), a, b);
    SumPermutes(On(slot, Completion()), a, b);
    SumPermutes(On(slot, Total()), a, b);
    SumPermutes(On(slot, Hits()), a, b);
  }

  /** The recorded total of a slot, touched or not. */
  lemma {:induction false} TotalIsSum(registry: Registry, es: seq<Entry>, day: string, f: Fingerprint)
    requires Filed(registry)
    ensures TotalOf(TableAfter(registry, es), day, f)
         == if registry(f).Some? && f != NoFingerprint then Sum(On(Slot(day, f), Total()), es) else 0
  {
    TableIsTally(registry, es, Slot(day, f));
    if registry(f).Some? {
      Untouched(registry(f).value, Slot(day, f), es);
    }
  }
}
