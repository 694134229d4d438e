/** The identity tables built from a validated configuration (internal/tenant/registry.go). */
module Registry {
  import opened Config
  import opened Redact
  import opened Text
  import opened Usage
  import opened Wire
  import UsageTotals

  function Decimal(n: nat): string {
    var digit := ['0' + (n % 10) as char];
    if n < 10 then digit else Decimal(n / 10) + digit
  }

  function Rendered(f: Fingerprint): string {
    if f == NoFingerprint then "" else "sha256:" + f.digest + ":len=" + Decimal(f.length)
  }

  function DefaultString(v: string, fallback: string): string {
    if TrimSpace(v) == "" then fallback else TrimSpace(v)
  }

  function ValidIdentity(hash: string -> string, auth: Auth, token: string): Identity {
    var fp := TokenFingerprint(hash, token);
    Identity(token, fp, "legacy-" + Rendered(fp), "default", "legacy", auth.rateLimitQPS, auth.rateLimitBurst, 0, true)
  }

  function ItemIdentity(hash: string -> string, item: TokenItem): Identity {
    var token := TrimSpace(item.value);
    Identity(token, TokenFingerprint(hash, token), item.name, DefaultString(item.tenant, "default"),
             DefaultString(item.app, "default"), item.rateLimitQPS, item.rateLimitBurst, item.dailyTokenLimit, false)
  }

  /** How an identity is made from a valid token and from a structured one. */
  datatype Makers = Makers(legacy: string -> Identity, own: TokenItem -> Identity)

  function MakersOf(hash: string -> string, auth: Auth): Makers {
    Makers((token: string) => ValidIdentity(hash, auth, token), (item: TokenItem) => ItemIdentity(hash, item))
  }

  /** The identities of the first n valid tokens. */
  function ValidEntries(m: Makers, auth: Auth, n: nat): seq<Identity>
    requires n <= |auth.validTokens|
  {
    if n == 0 then []
    else
      var rest, token := ValidEntries(m, auth, n - 1), TrimSpace(auth.validTokens[n - 1]);
      if token == "" then rest else rest + [m.legacy(token)]
  }

  predicate Skipped(item: TokenItem) {
    item.disabled || TrimSpace(item.value) == ""
  }

  /** The identities of all valid tokens and of the first n structured ones. */
  function EntriesTo(m: Makers, auth: Auth, n: nat): seq<Identity>
    requires n <= |auth.tokens|
  {
    if n == 0 then ValidEntries(m, auth, |auth.validTokens|)
    else
      var rest := EntriesTo(m, auth, n - 1);
      if Skipped(auth.tokens[n - 1]) then rest else rest + [m.own(auth.tokens[n - 1])]
  }

  function Entries(hash: string -> string, auth: Auth): seq<Identity> {
    EntriesTo(MakersOf(hash, auth), auth, |auth.tokens|)
  }

  // Both tables keep the last identity entered under a key.

  function ByToken(es: seq<Identity>): map<string, Identity> {
    if es == [] then map[] else ByToken(es[..|es| - 1])[es[|es| - 1].token := es[|es| - 1]]
  }

  function ByFingerprint(es: seq<Identity>): map<Fingerprint, Identity> {
    if es == [] then map[] else ByFingerprint(es[..|es| - 1])[es[|es| - 1].fingerprint := es[|es| - 1]]
  }

  function Find<K, V>(m: map<K, V>, k: K): Option<V> {
    if k in m then Some(m[k]) else None
  }

  class TenantRegistry {
    var byToken: map<string, Identity>
    var byFingerprint: map<Fingerprint, Identity>

    constructor (hash: string -> string, auth: Auth)
      ensures byToken == ByToken(Entries(hash, auth)) && byFingerprint == ByFingerprint(Entries(hash, auth))
    {
      byToken, byFingerprint := map[], map[];
      new;
      Rebuild(hash, auth);
    }

    method Rebuild(hash: string -> string, auth: Auth)
      modifies this
      ensures byToken == ByToken(Entries(hash, auth)) && byFingerprint == ByFingerprint(Entries(hash, auth))
    {
      byToken, byFingerprint := Tables(MakersOf(hash, auth), auth);
    }

    method Tables(m: Makers, auth: Auth)
      returns (nextByToken: map<string, Identity>, nextByFingerprint: map<Fingerprint, Identity>)
      ensures nextByToken == ByToken(EntriesTo(m, auth, |auth.tokens|))
      ensures nextByFingerprint == ByFingerprint(EntriesTo(m, auth, |auth.tokens|))
    {
      nextByToken, nextByFingerprint := map[], map[];
      for i := 0 to |auth.validTokens|
        invariant nextByToken == ByToken(ValidEntries(m, auth, i))
        invariant nextByFingerprint == ByFingerprint(ValidEntries(m, auth, i))
      {
        var token := TrimSpace(auth.validTokens[i]);
        if token == "" {
          continue;
        }
        var identity := m.legacy(token);
        ValidEntered(m, auth, i);
        nextByToken := nextByToken[identity.token := identity];
        nextByFingerprint := nextByFingerprint[identity.fingerprint := identity];
      }
      for i := 0 to |auth.tokens|
        invariant nextByToken == ByToken(EntriesTo(m, auth, i))
        invariant nextByFingerprint == ByFingerprint(EntriesTo(m, auth, i))
      {
        var item := auth.tokens[i];
        if item.disabled {
          continue;
        }
        if TrimSpace(item.value) == "" {
          continue;
        }
        var identity := m.own(item);
        ItemEntered(m, auth, i);
        nextByToken := nextByToken[identity.token := identity];
        nextByFingerprint := nextByFingerprint[identity.fingerprint := identity];
      }
    }

    method ResolveToken(raw: string) returns (found: Option<Identity>)
      ensures found == Find(byToken, TrimSpace(raw))
    {
      var token := TrimSpace(raw);
      found := if token in byToken then Some(byToken[token]) else None;
    }

    method LookupByFingerprint(fp: Fingerprint) returns (found: Option<Identity>)
      ensures found == Find(byFingerprint, fp)
    {
      found := if fp in byFingerprint then Some(byFingerprint[fp]) else None;
    }
  }

  lemma Entered(es: seq<Identity>, e: Identity)
    ensures ByToken(es + [e]) == ByToken(es)[e.token := e]
    ensures ByFingerprint(es + [e]) == ByFingerprint(es)[e.fingerprint := e]
  {
    assert (es + [e])[..|es|] == es;
  }

  lemma ValidEntered(m: Makers, auth: Auth, i: nat)
    requires i < |auth.validTokens| && TrimSpace(auth.validTokens[i]) != ""
    ensures var e := m.legacy(TrimSpace(auth.validTokens[i]));
      && ByToken(ValidEntries(m, auth, i + 1)) == ByToken(ValidEntries(m, auth, i))[e.token := e]
      && ByFingerprint(ValidEntries(m, auth, i + 1)) == ByFingerprint(ValidEntries(m, auth, i))[e.fingerprint := e]
  {
    Entered(ValidEntries(m, auth, i), m.legacy(TrimSpace(auth.validTokens[i])));
  }

  lemma ItemEntered(m: Makers, auth: Auth, i: nat)
    requires i < |auth.tokens| && !Skipped(auth.tokens[i])
    ensures var e := m.own(auth.tokens[i]);
      && ByToken(EntriesTo(m, auth, i + 1)) == ByToken(EntriesTo(m, auth, i))[e.token := e]
      && ByFingerprint(EntriesTo(m, auth, i + 1)) == ByFingerprint(EntriesTo(m, auth, i))[e.fingerprint := e]
  {
    Entered(EntriesTo(m, auth, i), m.own(auth.tokens[i]));
  }

  // ---- no identity is overwritten ----

  predicate DistinctTokens(es: seq<Identity>) {
    forall i, j :: 0 <= i < j < |es| ==> es[i].token != es[j].token
  }

  predicate DistinctFingerprints(es: seq<Identity>) {
    forall i, j :: 0 <= i < j < |es| ==> es[i].fingerprint != es[j].fingerprint
  }

  lemma {:induction false} ByTokenIsExact(es: seq<Identity>, token: string, e: Identity)
    requires DistinctTokens(es)
    ensures Find(ByToken(es), token) == Some(e) <==> e in es && e.token == token
  {
    if es == [] {
    } else {
      ByTokenIsExact(es[..|es| - 1], token, e);
    }
  }

  /** No later entry has the same fingerprint. */
  predicate Latest(es: seq<Identity>, i: nat) {
    i < |es| && forall j :: i < j < |es| ==> es[j].fingerprint != es[i].fingerprint
  }

  lemma {:induction false} FoundIsEntry(es: seq<Identity>, f: Fingerprint) returns (i: nat)
    requires f in ByFingerprint(es)
    ensures i < |es| && ByFingerprint(es)[f] == es[i] && es[i].fingerprint == f
  {
    var n := |es| - 1;
    if es[n].fingerprint == f {
      i := n;
    } else {
      i := FoundIsEntry(es[..n], f);
    }
  }

  /** A lookup by fingerprint finds the latest entry that has it. */
  lemma {:induction false} FoundIffLatest(es: seq<Identity>, f: Fingerprint, i: nat)
    requires DistinctTokens(es) && i < |es|
    ensures Find(ByFingerprint(es), f) == Some(es[i]) <==> es[i].fingerprint == f && Latest(es, i)
  {
    var n := |es| - 1;
    if es[n].fingerprint == f {
      assert i < n ==> es[i].token != es[n].token;
    } else if i == n {
      if f in ByFingerprint(es) {
        var j := FoundIsEntry(es[..n], f);
      }
    } else {
      FoundIffLatest(es[..n], f, i);
    }
  }

  ghost predicate KeepTokens(m: Makers) {
    && (forall token :: m.legacy(token).token == token)
    && (forall item :: m.own(item).token == TrimSpace(item.value))
  }

  lemma MakersKeepTokens(hash: string -> string, auth: Auth)
    ensures KeepTokens(MakersOf(hash, auth))
  {
  }

  lemma {:induction false} ValidEntriesAre(m: Makers, auth: Auth, n: nat, e: Identity)
    requires KeepTokens(m) && n <= |auth.validTokens|
    ensures e in ValidEntries(m, auth, n) <==> Listed(auth.validTokens[..n], e.token) && e == m.legacy(e.token)
  {
    if n == 0 {
    } else {
      ValidEntriesAre(m, auth, n - 1, e);
      ListedStep(auth.validTokens, n - 1);
    }
  }

  lemma TokenAppended(es: seq<Identity>, e: Identity)
    requires DistinctTokens(es) && forall i :: 0 <= i < |es| ==> es[i].token != e.token
    ensures DistinctTokens(es + [e])
  {
  }

  lemma {:induction false} ValidEntriesDistinct(m: Makers, auth: Auth, n: nat)
    requires KeepTokens(m) && Accepted(auth) && n <= |auth.validTokens|
    ensures DistinctTokens(ValidEntries(m, auth, n))
  {
    if n == 0 {
    } else {
      ValidEntriesDistinct(m, auth, n - 1);
      var es, token := ValidEntries(m, auth, n - 1), TrimSpace(auth.validTokens[n - 1]);
      assert !RepeatsAt(auth.validTokens, n - 1);
      forall i | 0 <= i < |es|
        ensures es[i].token != token
      {
        ValidEntriesAre(m, auth, n - 1, es[i]);
      }
      TokenAppended(es, m.legacy(token));
    }
  }

  predicate FromItem(m: Makers, auth: Auth, n: nat, e: Identity) {
    && n <= |auth.tokens| && n > 0
    && (FromItem(m, auth, n - 1, e) || (Enabled(auth, n - 1) && e == m.own(auth.tokens[n - 1])))
  }

  lemma {:induction false} FromItemIff(m: Makers, auth: Auth, n: nat, e: Identity)
    requires n <= |auth.tokens|
    ensures FromItem(m, auth, n, e) <==> exists j :: 0 <= j < n && Enabled(auth, j) && e == m.own(auth.tokens[j])
  {
    if n == 0 {
    } else {
      FromItemIff(m, auth, n - 1, e);
    }
  }

  lemma ValueIsItsOwnTrim(auth: Auth, n: nat)
    requires ValuesTidy(auth.tokens) && Enabled(auth, n)
    ensures TrimSpace(auth.tokens[n].value) == auth.tokens[n].value && !Skipped(auth.tokens[n])
  {
    TrimSpaceOfTrimmed(auth.tokens[n].value);
  }

  lemma EntriesStep(m: Makers, auth: Auth, n: nat, e: Identity)
    requires ValuesTidy(auth.tokens) && n < |auth.tokens|
    ensures e in EntriesTo(m, auth, n + 1) <==>
      e in EntriesTo(m, auth, n) || (Enabled(auth, n) && e == m.own(auth.tokens[n]))
  {
    if Enabled(auth, n) {
      ValueIsItsOwnTrim(auth, n);
    }
  }

  lemma {:induction false} EntriesAre(m: Makers, auth: Auth, n: nat, e: Identity)
    requires KeepTokens(m) && ValuesTidy(auth.tokens) && n <= |auth.tokens|
    ensures e in EntriesTo(m, auth, n) <==>
      (Listed(auth.validTokens, e.token) && e == m.legacy(e.token)) || FromItem(m, auth, n, e)
  {
    if n == 0 {
      ValidEntriesAre(m, auth, |auth.validTokens|, e);
      assert auth.validTokens[..|auth.validTokens|] == auth.validTokens;
    } else {
      EntriesAre(m, auth, n - 1, e);
      EntriesStep(m, auth, n - 1, e);
    }
  }

  lemma {:induction false} ItemValueIsBefore(m: Makers, auth: Auth, n: nat, e: Identity)
    requires KeepTokens(m) && ValuesTidy(auth.tokens) && FromItem(m, auth, n, e)
    ensures ValuedBefore(auth, n, e.token)
  {
    FromItemIff(m, auth, n, e);
    var j :| 0 <= j < n && Enabled(auth, j) && e == m.own(auth.tokens[j]);
    ValueIsItsOwnTrim(auth, j);
  }

  lemma {:induction false} EntriesDistinct(m: Makers, auth: Auth, n: nat)
    requires KeepTokens(m) && Accepted(auth) && ValuesTidy(auth.tokens) && n <= |auth.tokens|
    ensures DistinctTokens(EntriesTo(m, auth, n))
  {
    if n == 0 {
      ValidEntriesDistinct(m, auth, |auth.validTokens|);
    } else {
      EntriesDistinct(m, auth, n - 1);
      if Enabled(auth, n - 1) {
        ItemTokenIsNew(m, auth, n - 1);
        TokenAppended(EntriesTo(m, auth, n - 1), m.own(auth.tokens[n - 1]));
      }
    }
  }

  lemma ItemTokenIsNew(m: Makers, auth: Auth, n: nat)
    requires KeepTokens(m) && Accepted(auth) && ValuesTidy(auth.tokens) && Enabled(auth, n)
    ensures forall i :: 0 <= i < |EntriesTo(m, auth, n)| ==>
      EntriesTo(m, auth, n)[i].token != m.own(auth.tokens[n]).token
  {
    var es := EntriesTo(m, auth, n);
    ValueIsItsOwnTrim(auth, n);
    assert ItemError(auth, n) == None;
    forall i | 0 <= i < |es|
      ensures es[i].token != auth.tokens[n].value
    {
      EntriesAre(m, auth, n, es[i]);
      if FromItem(m, auth, n, es[i]) {
        ItemValueIsBefore(m, auth, n, es[i]);
      }
    }
  }

  /**
   * On a validated configuration the registry resolves a token to the identity of the entry that holds it,
   * and to nothing when no enabled entry does.
   */
  lemma {:induction false} ResolvesExactly(hash: string -> string, auth: Auth, raw: string, e: Identity)
    requires Accepted(auth) && ValuesTidy(auth.tokens)
    ensures Find(ByToken(Entries(hash, auth)), TrimSpace(raw)) == Some(e) <==>
      e.token == TrimSpace(raw) &&
      ((Listed(auth.validTokens, e.token) && e == ValidIdentity(hash, auth, e.token)) ||
       exists j :: Enabled(auth, j) && e == ItemIdentity(hash, auth.tokens[j]))
  {
    var m := MakersOf(hash, auth);
    MakersKeepTokens(hash, auth);
    EntriesDistinct(m, auth, |auth.tokens|);
    ByTokenIsExact(Entries(hash, auth), TrimSpace(raw), e);
    EntriesAre(m, auth, |auth.tokens|, e);
    FromItemIff(m, auth, |auth.tokens|, e);
  }

  /** An enabled token resolves to an identity with its own name, limits and, where given, tenant and app. */
  lemma {:induction false} ItemResolves(hash: string -> string, auth: Auth, i: nat)
    requires Accepted(auth) && ValuesTidy(auth.tokens) && Enabled(auth, i)
    ensures var t := auth.tokens[i];
      Find(ByToken(Entries(hash, auth)), t.value)
      == Some(Identity(
           t.value, TokenFingerprint(hash, t.value), t.name,
           if TrimSpace(t.tenant) == "" then "default" else TrimSpace(t.tenant),
           if TrimSpace(t.app) == "" then "default" else TrimSpace(t.app),
           t.rateLimitQPS, t.rateLimitBurst, t.dailyTokenLimit, false))
  {
    ValueIsItsOwnTrim(auth, i);
    ResolvesExactly(hash, auth, auth.tokens[i].value, ItemIdentity(hash, auth.tokens[i]));
  }

  /** A valid token resolves to an identity named by its fingerprint, with the common rate and no daily limit. */
  lemma {:induction false} ValidResolves(hash: string -> string, auth: Auth, i: nat)
    requires Accepted(auth) && ValuesTidy(auth.tokens)
    requires i < |auth.validTokens| && TrimSpace(auth.validTokens[i]) != ""
    ensures var token := TrimSpace(auth.validTokens[i]);
      var fp := TokenFingerprint(hash, token);
      Find(ByToken(Entries(hash, auth)), token)
      == Some(Identity(token, fp, "legacy-" + Rendered(fp), "default", "legacy",
                       auth.rateLimitQPS, auth.rateLimitBurst, 0, true))
  {
    var token := TrimSpace(auth.validTokens[i]);
    TrimSpaceIsTrimmed(auth.validTokens[i]);
    TrimSpaceOfTrimmed(token);
    ListedIff(auth.validTokens, token);
    ResolvesExactly(hash, auth, token, ValidIdentity(hash, auth, token));
  }

  // ---- attribution ----

  /** Each identity carries the fingerprint of its token. */
  predicate Fingerprinted(hash: string -> string, es: seq<Identity>) {
    forall i :: 0 <= i < |es| ==> es[i].fingerprint == TokenFingerprint(hash, es[i].token)
  }

  /** What a validated configuration makes of the tables: one entry a token, each with its fingerprint. */
  lemma {:induction false} EntriesAreSound(hash: string -> string, auth: Auth)
    requires Accepted(auth) && ValuesTidy(auth.tokens)
    ensures DistinctTokens(Entries(hash, auth)) && Fingerprinted(hash, Entries(hash, auth))
  {
    var m, es := MakersOf(hash, auth), Entries(hash, auth);
    MakersKeepTokens(hash, auth);
    EntriesDistinct(m, auth, |auth.tokens|);
    forall i | 0 <= i < |es|
      ensures es[i].fingerprint == TokenFingerprint(hash, es[i].token)
    {
      EntriesAre(m, auth, |auth.tokens|, es[i]);
      FromItemIff(m, auth, |auth.tokens|, es[i]);
    }
  }

  predicate TokensTidy(es: seq<Identity>) {
    forall i :: 0 <= i < |es| ==> Tidy(es[i].token)
  }

  lemma {:induction false} EntriesAreTidy(hash: string -> string, auth: Auth)
    requires ValuesTidy(auth.tokens)
    ensures TokensTidy(Entries(hash, auth))
  {
    var m, es := MakersOf(hash, auth), Entries(hash, auth);
    MakersKeepTokens(hash, auth);
    forall i | 0 <= i < |es|
      ensures Tidy(es[i].token)
    {
      EntriesAre(m, auth, |auth.tokens|, es[i]);
      EntryTokenTidy(m, auth, es[i]);
    }
  }

  lemma EntryTokenTidy(m: Makers, auth: Auth, e: Identity)
    requires KeepTokens(m) && ValuesTidy(auth.tokens)
    requires Listed(auth.validTokens, e.token) || FromItem(m, auth, |auth.tokens|, e)
    ensures Tidy(e.token)
  {
    if Listed(auth.validTokens, e.token) {
      ListedIff(auth.validTokens, e.token);
      var i :| 0 <= i < |auth.validTokens| && TrimSpace(auth.validTokens[i]) == e.token;
      TrimSpaceIsTrimmed(auth.validTokens[i]);
    } else {
      FromItemIff(m, auth, |auth.tokens|, e);
      var j :| 0 <= j < |auth.tokens| && Enabled(auth, j) && e == m.own(auth.tokens[j]);
      ValueIsItsOwnTrim(auth, j);
    }
  }

  /**
   * Authentication resolves the header of an entry's token to that entry. The fingerprint the cache takes
   * from the same header looks up the same entry exactly when the token holds no white space and no later
   * entry has its fingerprint.
   */
  lemma {:induction false} AttributionRoundTrip(hash: string -> string, es: seq<Identity>, i: nat, header: string)
    requires DistinctTokens(es) && i < |es| && es[i].fingerprint == TokenFingerprint(hash, es[i].token)
    requires ExtractToken(header) == Token(es[i].token)
    ensures Find(ByToken(es), TrimSpace(es[i].token)) == Some(es[i])
    ensures Find(ByFingerprint(es), TokenFingerprint(hash, header)) == Some(es[i])
       <==> NoSpace(es[i].token) && Latest(es, i)
  {
    var token := es[i].token;
    var p := HeaderShape(header);
    TrimSpaceOfTrimmed(token);
    ByTokenIsExact(es, token, es[i]);
    FoundIffLatest(es, TokenFingerprint(hash, header), i);
    FingerprintRoundTrip(hash, header);
  }

  /** The request that presents the entry's token is billed to the entry. */
  predicate Attributed(hash: string -> string, es: seq<Identity>, i: nat)
    requires i < |es|
  {
    Find(ByFingerprint(es), TokenFingerprint(hash, "Bearer " + es[i].token)) == Some(es[i])
  }

  predicate Own(es: seq<Identity>, i: nat)
    requires i < |es|
  {
    NoSpace(es[i].token) && Latest(es, i)
  }

  lemma {:induction false} AttributedIff(hash: string -> string, es: seq<Identity>, i: nat)
    requires DistinctTokens(es) && Fingerprinted(hash, es) && i < |es| && Tidy(es[i].token)
    ensures Attributed(hash, es, i) <==> Own(es, i)
  {
    BearerHeader(es[i].token);
    AttributionRoundTrip(hash, es, i, "Bearer " + es[i].token);
  }

  lemma AllLatestIff(es: seq<Identity>)
    ensures (forall i :: 0 <= i < |es| ==> Latest(es, i)) <==> DistinctFingerprints(es)
  {
    if forall i :: 0 <= i < |es| ==> Latest(es, i) {
      forall i, j | 0 <= i < j < |es|
        ensures es[i].fingerprint != es[j].fingerprint
      {
        assert Latest(es, i);
      }
    }
  }

  /** Every caller is billed to themselves exactly when no token holds white space and no two share a fingerprint. */
  lemma {:induction false} AllAttributedIff(hash: string -> string, es: seq<Identity>)
    requires DistinctTokens(es) && Fingerprinted(hash, es)
    requires forall i :: 0 <= i < |es| ==> Tidy(es[i].token)
    ensures (forall i :: 0 <= i < |es| ==> Attributed(hash, es, i))
       <==> DistinctFingerprints(es) && forall i :: 0 <= i < |es| ==> NoSpace(es[i].token)
  {
    forall i | 0 <= i < |es|
      ensures Attributed(hash, es, i) <==> Own(es, i)
    {
      AttributedIff(hash, es, i);
    }
    AllOwnIff(es);
  }

  lemma AllOwnIff(es: seq<Identity>)
    ensures (forall i :: 0 <= i < |es| ==> Own(es, i))
       <==> DistinctFingerprints(es) && forall i :: 0 <= i < |es| ==> NoSpace(es[i].token)
  {
    AllLatestIff(es);
    assert forall i :: 0 <= i < |es| ==> (Own(es, i) <==> NoSpace(es[i].token) && Latest(es, i));
  }

  lemma BearerHeader(token: string)
    requires Tidy(token)
    ensures ExtractToken("Bearer " + token) == Token(token) && Tidy("Bearer " + token)
  {
    var header := "Bearer " + token;
    assert header[7..] == token;
    TrimSpaceOfTrimmed(header);
    TrimSpaceOfTrimmed(token);
  }

  /** Where an entry's token reads like the whole header of another's, the other caller is billed to that entry. */
  lemma {:induction false} BilledToAnother(hash: string -> string, es: seq<Identity>, i: nat, j: nat, header: string)
    requires DistinctTokens(es) && i < |es| && Latest(es, j)
    requires ExtractToken(header) == Token(es[i].token)
    requires es[j].token == TrimSpace(header) && es[j].fingerprint == TokenFingerprint(hash, es[j].token)
    ensures es[j] != es[i] && Find(ByFingerprint(es), TokenFingerprint(hash, header)) == Some(es[j])
  {
    var p := HeaderShape(header);
    HeaderFields(header);
    TrimSpaceOfTrimmed(TrimSpace(header));
    FoundIffLatest(es, TokenFingerprint(hash, header), j);
  }

  predicate Separates(hash: string -> string, a: string, b: string) {
    a != b ==> hash(a) != hash(b) || |a| != |b|
  }

  /** The hash has no collision among the configured tokens. */
  predicate CollisionFree(hash: string -> string, es: seq<Identity>) {
    forall i, j :: 0 <= i < j < |es| ==>
      Separates(hash, NormalizeBearerToken(es[i].token), NormalizeBearerToken(es[j].token))
  }

  predicate DistinctNormalForms(es: seq<Identity>) {
    forall i, j :: 0 <= i < j < |es| ==> NormalizeBearerToken(es[i].token) != NormalizeBearerToken(es[j].token)
  }

  lemma SameFingerprintIff(hash: string -> string, a: string, b: string)
    requires Separates(hash, NormalizeBearerToken(a), NormalizeBearerToken(b))
    ensures TokenFingerprint(hash, a) == TokenFingerprint(hash, b)
       <==> NormalizeBearerToken(a) == NormalizeBearerToken(b)
  {
  }

  /** Without hash collisions, fingerprints differ exactly when the tokens differ after a scheme word is dropped. */
  lemma {:induction false} FingerprintsDistinctIff(hash: string -> string, es: seq<Identity>)
    requires Fingerprinted(hash, es) && CollisionFree(hash, es)
    ensures DistinctFingerprints(es) <==> DistinctNormalForms(es)
  {
    forall i, j | 0 <= i < j < |es|
      ensures es[i].fingerprint == es[j].fingerprint
         <==> NormalizeBearerToken(es[i].token) == NormalizeBearerToken(es[j].token)
    {
      SameFingerprintIff(hash, es[i].token, es[j].token);
    }
  }

  /** The table by fingerprint as accounting uses it. */
  function Accounts(es: seq<Identity>): UsageTotals.Registry {
    (f: Fingerprint) => Find(ByFingerprint(es), f)
  }

  /** What a lookup by fingerprint finds carries that fingerprint, as accounting relies on. */
  lemma LookupIsFiled(es: seq<Identity>)
    ensures UsageTotals.Filed(Accounts(es))
  {
    forall f | Accounts(es)(f).Some?
      ensures Accounts(es)(f).value.fingerprint == f
    {
      var i := FoundIsEntry(es, f);
    }
  }

  /**
   * Validation does not make fingerprints distinct: a token and the same token behind a scheme word are
   * accepted together and share one.
   */
  lemma SchemeWordCollides(hash: string -> string, auth: Auth, token: string)
    requires token != "" && NoSpace(token)
    requires auth.validTokens == [token, "Bearer " + token] && auth.tokens == []
    ensures Accepted(auth)
    ensures !DistinctFingerprints(Entries(hash, auth))
  {
    var header := "Bearer " + token;
    SchemeWordIsDropped(hash, token);
    var m := MakersOf(hash, auth);
    TwoEntries(m, auth, token, header);
    SameFingerprint(EntriesTo(m, auth, 0), m.legacy(token), m.legacy(header));
  }

  /**
   * On an accepted configuration that lists a token, with or without inner white space, and then the same
   * token behind a scheme word, the first caller authenticates as itself and is billed to the second.
   */
  lemma SchemeWordMisattributes(hash: string -> string, auth: Auth, token: string)
    requires Tidy(token)
    requires auth.validTokens == [token, "Bearer " + token] && auth.tokens == []
    ensures Accepted(auth) && ExtractToken("Bearer " + token) == Token(token)
    ensures Find(ByToken(Entries(hash, auth)), token) == Some(ValidIdentity(hash, auth, token))
    ensures Find(ByFingerprint(Entries(hash, auth)), TokenFingerprint(hash, "Bearer " + token))
         == Some(ValidIdentity(hash, auth, "Bearer " + token))
  {
    var m, header := MakersOf(hash, auth), "Bearer " + token;
    BearerHeader(token);
    TwoEntries(m, auth, token, header);
    LaterOfTwo(EntriesTo(m, auth, 0), m.legacy(token), m.legacy(header));
  }

  lemma LaterOfTwo(es: seq<Identity>, a: Identity, b: Identity)
    requires es == [a, b] && a.token != b.token
    ensures Find(ByToken(es), a.token) == Some(a) && Find(ByFingerprint(es), b.fingerprint) == Some(b)
  {
    assert es[1] == b;
    ByTokenIsExact(es, a.token, a);
    FoundIffLatest(es, b.fingerprint, 1);
  }

  lemma SameFingerprint(es: seq<Identity>, a: Identity, b: Identity)
    requires es == [a, b] && a.fingerprint == b.fingerprint
    ensures !DistinctFingerprints(es)
  {
    assert es[0].fingerprint == es[1].fingerprint;
  }

  lemma TwoEntries(m: Makers, auth: Auth, a: string, b: string)
    requires auth.validTokens == [a, b] && auth.tokens == [] && a != b && Tidy(a) && Tidy(b)
    ensures Accepted(auth)
    ensures EntriesTo(m, auth, 0) == [m.legacy(a), m.legacy(b)]
  {
    TrimSpaceOfTrimmed(a);
    TrimSpaceOfTrimmed(b);
    assert auth.validTokens[..0] == [] && auth.validTokens[..1] == [a];
    assert !Listed(auth.validTokens[..0], a) && !Listed(auth.validTokens[..1], b);
    forall i
      ensures !RepeatsAt(auth.validTokens, i)
    {
      if i < 2 {
        assert i == 0 || i == 1;
      }
    }
    assert ValidEntries(m, auth, 0) == [];
    assert ValidEntries(m, auth, 1) == [m.legacy(a)];
  }

  /** A valid token, and one structured token that is the same token behind a scheme word. */
  predicate SchemeWordPair(auth: Auth, token: string) {
    && Tidy(token) && NoSpace(token) && auth.validTokens == [token] && |auth.tokens| == 1
    && auth.tokens[0].value == "Bearer " + token && !auth.tokens[0].disabled && auth.tokens[0].name != ""
    && auth.tokens[0].rateLimitQPS >= 0.0 && auth.tokens[0].rateLimitBurst >= 0 && auth.tokens[0].dailyTokenLimit >= 0
  }

  lemma LegacyAndOwn(m: Makers, auth: Auth, token: string)
    requires SchemeWordPair(auth, token)
    ensures Accepted(auth) && ValuesTidy(auth.tokens)
    ensures EntriesTo(m, auth, 1) == [m.legacy(token), m.own(auth.tokens[0])]
  {
    BearerHeader(token);
    TrimSpaceOfTrimmed(token);
    TrimSpaceOfTrimmed("Bearer " + token);
    assert auth.validTokens[..0] == [];
    ListedIff(auth.validTokens, "Bearer " + token);
    assert forall i :: !RepeatsAt(auth.validTokens, i);
    assert ValidEntries(m, auth, 0) == [];
    assert ValidEntries(m, auth, 1) == [m.legacy(token)];
    assert EntriesTo(m, auth, 0) == [m.legacy(token)];
  }

  /** The two identities the pair is made into. */
  lemma MadeIdentities(hash: string -> string, auth: Auth, token: string)
    requires SchemeWordPair(auth, token)
    ensures var a := MakersOf(hash, auth).legacy(token);
      && a.token == token && a.fingerprint == TokenFingerprint(hash, token)
      && a.rateLimitQPS == auth.rateLimitQPS && a.dailyTokenLimit == 0
    ensures var b := MakersOf(hash, auth).own(auth.tokens[0]);
      && b.fingerprint == TokenFingerprint(hash, "Bearer " + token) && b == ItemIdentity(hash, auth.tokens[0])
      && b.rateLimitQPS == auth.tokens[0].rateLimitQPS && b.dailyTokenLimit == auth.tokens[0].dailyTokenLimit
    ensures TokenFingerprint(hash, token) == TokenFingerprint(hash, "Bearer " + token) != NoFingerprint
  {
    BearerHeader(token);
    TrimSpaceOfTrimmed("Bearer " + token);
    SchemeWordIsDropped(hash, token);
    NormalizedToken(token);
  }
}
