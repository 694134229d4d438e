/**
 * Whose quota a request counts against on a configuration: the gate goes by the entry that the token
 * resolves to, the record by the entry that the header's fingerprint looks up.
 */
module QuotaConfig {
  import opened Config
  import opened Quota
  import opened QuotaGoverned
  import opened Redact
  import opened Text
  import opened Usage
  import opened Wire
  import R = Registry

  /** What the gate and the audit record make of a request that authenticates as the entry. */
  function ClientOf(hash: string -> string, e: Identity, header: string): Client {
    Client(e.fingerprint, e.dailyTokenLimit, TokenFingerprint(hash, header))
  }

  predicate Presents(header: string, e: Identity) {
    ExtractToken(header) == Token(e.token)
  }

  ghost predicate Comes(hash: string -> string, es: seq<Identity>, c: Client) {
    exists i, header :: 0 <= i < |es| && Presents(header, es[i]) && c == ClientOf(hash, es[i], header)
  }

  /** All requests that authentication lets through. */
  ghost function ClientsOf(hash: string -> string, es: seq<Identity>): iset<Client> {
    iset c | Comes(hash, es, c)
  }

  /** Every entry that shares the fingerprint has a limit, and none larger. */
  predicate SharersLimited(es: seq<Identity>, f: Fingerprint, limit: int) {
    forall i :: 0 <= i < |es| && NoSpace(es[i].token) && es[i].fingerprint == f ==> 0 < es[i].dailyTokenLimit <= limit
  }

  /** No header of a token with inner white space hashes to the fingerprint. */
  ghost predicate NoStranger(hash: string -> string, es: seq<Identity>, f: Fingerprint) {
    forall i, header :: 0 <= i < |es| && !NoSpace(es[i].token) && Presents(header, es[i]) ==>
      TokenFingerprint(hash, header) != f
  }

  lemma OwnHeader(hash: string -> string, e: Identity, header: string)
    requires e.fingerprint == TokenFingerprint(hash, e.token) && Presents(header, e)
    ensures TokenFingerprint(hash, header) == e.fingerprint <==> NoSpace(e.token)
  {
    FingerprintRoundTrip(hash, header);
  }

  lemma ComesAs(hash: string -> string, es: seq<Identity>, i: nat, header: string)
    requires i < |es| && Presents(header, es[i])
    ensures ClientOf(hash, es[i], header) in ClientsOf(hash, es)
  {
    assert Comes(hash, es, ClientOf(hash, es[i], header));
  }

  /** What governing a slot comes to on a configuration. */
  lemma {:induction false} GovernedIff(hash: string -> string, es: seq<Identity>, f: Fingerprint, limit: int)
    requires R.Fingerprinted(hash, es) && R.TokensTidy(es)
    ensures Governed(ClientsOf(hash, es), f, limit) <==> SharersLimited(es, f, limit) && NoStranger(hash, es, f)
  {
    if Governed(ClientsOf(hash, es), f, limit) {
      GovernedSharers(hash, es, f, limit);
      GovernedStrangers(hash, es, f, limit);
    }
    if SharersLimited(es, f, limit) && NoStranger(hash, es, f) {
      LimitedGoverns(hash, es, f, limit);
    }
  }

  lemma GovernedSharers(hash: string -> string, es: seq<Identity>, f: Fingerprint, limit: int)
    requires R.Fingerprinted(hash, es) && R.TokensTidy(es) && Governed(ClientsOf(hash, es), f, limit)
    ensures SharersLimited(es, f, limit)
  {
    forall i | 0 <= i < |es| && NoSpace(es[i].token) && es[i].fingerprint == f
      ensures 0 < es[i].dailyTokenLimit <= limit
    {
      var header := "Bearer " + es[i].token;
      R.BearerHeader(es[i].token);
      OwnHeader(hash, es[i], header);
      ComesAs(hash, es, i, header);
    }
  }

  lemma GovernedStrangers(hash: string -> string, es: seq<Identity>, f: Fingerprint, limit: int)
    requires R.Fingerprinted(hash, es) && Governed(ClientsOf(hash, es), f, limit)
    ensures NoStranger(hash, es, f)
  {
    forall i, header | 0 <= i < |es| && !NoSpace(es[i].token) && Presents(header, es[i])
      ensures TokenFingerprint(hash, header) != f
    {
      OwnHeader(hash, es[i], header);
      ComesAs(hash, es, i, header);
    }
  }

  lemma LimitedGoverns(hash: string -> string, es: seq<Identity>, f: Fingerprint, limit: int)
    requires R.Fingerprinted(hash, es) && SharersLimited(es, f, limit) && NoStranger(hash, es, f)
    ensures Governed(ClientsOf(hash, es), f, limit)
  {
    forall c | c in ClientsOf(hash, es) && c.billed == f
      ensures c.gate == f && 0 < c.limit <= limit
    {
      assert Comes(hash, es, c);
      var i, header :| 0 <= i < |es| && Presents(header, es[i]) && c == ClientOf(hash, es[i], header);
      OwnHeader(hash, es[i], header);
    }
  }

  /**
   * For an entry with a daily limit that accounting finds under its fingerprint, the overshoot bound and the
   * closing of the gate hold in all runs exactly when every entry that shares the fingerprint has a limit no
   * larger, and no header of a token with inner white space hashes to it.
   */
  lemma {:induction false} QuotaHoldsIff(hash: string -> string, es: seq<Identity>, f: Fingerprint)
    requires R.Fingerprinted(hash, es) && R.TokensTidy(es) && f != NoFingerprint
    requires R.Accounts(es)(f).Some? && R.Accounts(es)(f).value.dailyTokenLimit > 0
    ensures var limit := R.Accounts(es)(f).value.dailyTokenLimit;
      && (Bounded(R.Accounts(es), ClientsOf(hash, es), f, limit)
          <==> SharersLimited(es, f, limit) && NoStranger(hash, es, f))
      && (Closing(R.Accounts(es), ClientsOf(hash, es), f, limit)
          <==> SharersLimited(es, f, limit) && NoStranger(hash, es, f))
  {
    var limit := R.Accounts(es)(f).value.dailyTokenLimit;
    R.LookupIsFiled(es);
    GovernedIff(hash, es, f, limit);
    BoundedIff(R.Accounts(es), ClientsOf(hash, es), f, limit);
    ClosingIff(R.Accounts(es), ClientsOf(hash, es), f, limit);
  }

  lemma {:induction false} QuotaHoldsWhenDistinct(hash: string -> string, es: seq<Identity>, k: nat)
    requires R.DistinctTokens(es) && R.Fingerprinted(hash, es) && R.TokensTidy(es) && R.DistinctFingerprints(es)
    requires forall i :: 0 <= i < |es| ==> NoSpace(es[i].token)
    requires k < |es| && es[k].dailyTokenLimit > 0
    ensures Bounded(R.Accounts(es), ClientsOf(hash, es), es[k].fingerprint, es[k].dailyTokenLimit)
    ensures Closing(R.Accounts(es), ClientsOf(hash, es), es[k].fingerprint, es[k].dailyTokenLimit)
  {
    OwnLimitOnly(es, k);
    NoneStrange(hash, es, es[k].fingerprint);
    R.FoundIffLatest(es, es[k].fingerprint, k);
    HasFingerprint(hash, es[k]);
    QuotaHoldsIff(hash, es, es[k].fingerprint);
  }

  lemma OwnLimitOnly(es: seq<Identity>, k: nat)
    requires R.DistinctFingerprints(es) && k < |es| && es[k].dailyTokenLimit > 0
    ensures R.Latest(es, k) && SharersLimited(es, es[k].fingerprint, es[k].dailyTokenLimit)
  {
  }

  lemma NoneStrange(hash: string -> string, es: seq<Identity>, f: Fingerprint)
    requires forall i :: 0 <= i < |es| ==> NoSpace(es[i].token)
    ensures NoStranger(hash, es, f)
  {
  }

  /** Where every caller is billed to themselves, every daily limit holds. */
  lemma {:induction false} QuotaHoldsWhenAttributed(hash: string -> string, es: seq<Identity>, k: nat)
    requires R.DistinctTokens(es) && R.Fingerprinted(hash, es) && R.TokensTidy(es)
    requires forall i :: 0 <= i < |es| ==> R.Attributed(hash, es, i)
    requires k < |es| && es[k].dailyTokenLimit > 0
    ensures Bounded(R.Accounts(es), ClientsOf(hash, es), es[k].fingerprint, es[k].dailyTokenLimit)
    ensures Closing(R.Accounts(es), ClientsOf(hash, es), es[k].fingerprint, es[k].dailyTokenLimit)
  {
    R.AllAttributedIff(hash, es);
    QuotaHoldsWhenDistinct(hash, es, k);
  }

  lemma HasFingerprint(hash: string -> string, e: Identity)
    requires Tidy(e.token) && e.fingerprint == TokenFingerprint(hash, e.token)
    ensures e.fingerprint != NoFingerprint
  {
    NormalizedToken(e.token);
  }

  // ---- a configuration that is accepted and evades a quota ----

  /**
   * A valid token without a limit, and a structured token with one that is the same token behind a scheme
   * word: validation accepts them, accounting files both under the structured one, and its limit neither
   * bounds what is recorded nor shuts the gate.
   */
  lemma LegacyTokenEvadesQuota(hash: string -> string, auth: Auth, token: string, limit: int)
    requires R.SchemeWordPair(auth, token) && auth.tokens[0].dailyTokenLimit == limit > 0
    ensures Accepted(auth) && ValuesTidy(auth.tokens)
    ensures var es, f := R.Entries(hash, auth), TokenFingerprint(hash, token);
      && R.Accounts(es)(f) == Some(R.ItemIdentity(hash, auth.tokens[0]))
      && !Bounded(R.Accounts(es), ClientsOf(hash, es), f, limit)
      && !Closing(R.Accounts(es), ClientsOf(hash, es), f, limit)
  {
    var m, es := R.MakersOf(hash, auth), R.Entries(hash, auth);
    R.LegacyAndOwn(m, auth, token);
    R.EntriesAreSound(hash, auth);
    R.EntriesAreTidy(hash, auth);
    R.MadeIdentities(hash, auth, token);
    EvadingEntries(hash, es, m.legacy(token), m.own(auth.tokens[0]), TokenFingerprint(hash, token), limit);
  }

  lemma EvadingEntries(
    hash: string -> string, es: seq<Identity>, a: Identity, b: Identity, f: Fingerprint, limit: int)
    requires es == [a, b] && R.DistinctTokens(es) && R.Fingerprinted(hash, es) && R.TokensTidy(es)
    requires a.fingerprint == b.fingerprint == f && NoSpace(a.token)
    requires a.dailyTokenLimit == 0 && b.dailyTokenLimit == limit > 0
    ensures R.Accounts(es)(f) == Some(b)
    ensures !Bounded(R.Accounts(es), ClientsOf(hash, es), f, limit)
    ensures !Closing(R.Accounts(es), ClientsOf(hash, es), f, limit)
  {
    assert es[0] == a && es[1] == b;
    R.FoundIffLatest(es, f, 1);
    HasFingerprint(hash, es[0]);
    QuotaHoldsIff(hash, es, f);
  }
}
