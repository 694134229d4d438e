/** Token normalisation and fingerprints (pkg/redact/token.go), and how the token taken from an
    Authorization header by authentication (internal/middleware/auth.go) relates to the fingerprint the
    cache takes from the same header. */
module Redact {
  import opened Text

  function NormalizeBearerToken(raw: string): string {
    var s := TrimSpace(raw);
    if s == "" then ""
    else
      var parts := Fields(s);
      if |parts| == 2 && EqualFold(parts[0], "Bearer") then TrimSpace(parts[1]) else s
  }

  /** "sha256:" + eight digest bytes in hex + ":len=" + length, kept as its two varying parts. */
  datatype Fingerprint = NoFingerprint | Fingerprint(digest: string, length: nat)

  /** `hash` stands for the truncated SHA-256 digest; nothing is assumed of it. */
  function TokenFingerprint(hash: string -> string, raw: string): Fingerprint {
    var token := NormalizeBearerToken(raw);
    if token == "" then NoFingerprint else Fingerprint(hash(token), |token|)
  }

  datatype Extracted = MissingHeader | NotBearer | MissingToken | Token(token: string)

  /** The token authentication takes from the header, or the reason it is refused. */
  function ExtractToken(header: string): Extracted {
    var h := TrimSpace(header);
    if h == "" then MissingHeader
    else if !HasPrefix(h, "Bearer ") then NotBearer
    else
      var token := TrimSpace(h[7..]);
      if token == "" then MissingToken else Token(token)
  }

  /**
   * A token is taken exactly from a header that begins with the scheme word, in this very spelling, and a space;
   * trimming has left something behind it, so the token is never missing.
   */
  lemma {:induction false} ExtractedIff(header: string)
    ensures ExtractToken(header).MissingHeader? <==> TrimSpace(header) == ""
    ensures ExtractToken(header).Token? <==> "Bearer " <= TrimSpace(header)
    ensures !ExtractToken(header).MissingToken?
  {
    var h := TrimSpace(header);
    TrimSpaceIsTrimmed(header);
    if "Bearer " <= h {
      assert h[6] == "Bearer "[6] == ' ';
      assert h[7..][|h| - 8] == h[|h| - 1];
      SomethingLeft(h[7..], |h| - 8);
    }
  }

  /** Normalising drops a scheme word, in any case, before a single word, and leaves all other text as it is. */
  lemma {:induction false} NormalizedMeans(raw: string)
    ensures var s := TrimSpace(raw);
      (forall p, q :: TwoWords(s, p, q) && EqualFold(s[..p], "Bearer") ==> NormalizeBearerToken(raw) == s[q..])
    ensures var s := TrimSpace(raw);
      (forall p, q :: TwoWords(s, p, q) ==> !EqualFold(s[..p], "Bearer")) ==> NormalizeBearerToken(raw) == s
  {
    var s := TrimSpace(raw);
    TrimSpaceIsTrimmed(raw);
    forall p, q | TwoWords(s, p, q) && EqualFold(s[..p], "Bearer")
      ensures NormalizeBearerToken(raw) == s[q..]
    {
      FieldsOfTwoWords(s, p, q);
      assert s[q..][0] == s[q] && s[q..][|s[q..]| - 1] == s[|s| - 1];
      TrimSpaceOfTrimmed(s[q..]);
    }
    if |Fields(s)| == 2 {
      var p, q := TwoFieldsAreWords(s);
    }
  }

  /** Trimming what follows the seventh character of trimmed text only drops white space after that character. */
  lemma TrimmedTail(h: string, body: string) returns (p: nat)
    requires Trimmed(h) && |h| >= 7 && body == h[7..] && TrimSpace(body) != ""
    ensures 7 <= p <= |h| && h[p..] == TrimSpace(body)
    ensures forall k :: 7 <= k < p ==> IsSpace(h[k])
  {
    SkipSpaceSkips(body, 0);
    p := 7 + SkipSpace(body, 0);
    var t := TrimLeft(body);
    assert h[p..] == t;
    if t != [] {
      assert t[|t| - 1] == h[|h| - 1];
      assert DropSpace(t, |t|) == |t|;
    }
    forall k | 7 <= k < p
      ensures IsSpace(h[k])
    {
      assert h[k] == body[k - 7];
    }
  }

  /** An accepted header, once trimmed, is "Bearer", white space up to some position, and the token. */
  lemma HeaderShape(header: string) returns (p: nat)
    requires ExtractToken(header).Token?
    ensures var h, token := TrimSpace(header), ExtractToken(header).token;
      && 6 < p <= |h| && HasPrefix(h, "Bearer ") && Trimmed(h)
      && (forall k :: 6 <= k < p ==> IsSpace(h[k]))
      && h[p..] == token && token != [] && Trimmed(token)
  {
    var h := TrimSpace(header);
    TrimSpaceIsTrimmed(header);
    TrimSpaceIsTrimmed(h[7..]);
    p := TrimmedTail(h, h[7..]);
    assert h[6] == "Bearer "[6];
  }

  /** The fields of an accepted header are "Bearer" and the fields of its token. */
  lemma HeaderFields(header: string)
    requires ExtractToken(header).Token?
    ensures Fields(TrimSpace(header)) == ["Bearer"] + Fields(ExtractToken(header).token)
    ensures |TrimSpace(header)| > |ExtractToken(header).token|
  {
    var p := HeaderShape(header);
    BearerIsFirst(TrimSpace(header), p);
    FieldsShift(TrimSpace(header), p, ExtractToken(header).token, 0);
  }

  lemma BearerIsFirst(h: string, p: nat)
    requires 6 < p <= |h| && HasPrefix(h, "Bearer ")
    requires forall k :: 6 <= k < p ==> IsSpace(h[k])
    ensures Fields(h) == ["Bearer"] + FieldsFrom(h, p)
  {
    var w := "Bearer ";
    assert NoSpace(w[..6]);
    forall k | 0 <= k < 6
      ensures !IsSpace(h[k])
    {
      assert h[k] == w[k] == w[..6][k];
    }
    assert !IsSpace(h[0]) && IsSpace(h[6]);
    SkipWordSkips(h, 0);
    assert w[..6] == "Bearer";
    assert h[0..6] == "Bearer";
    SpacesSkipped(h, 6, p);
  }

  lemma {:induction false} SpacesSkipped(h: string, i: nat, p: nat)
    requires i <= p <= |h| && forall k :: i <= k < p ==> IsSpace(h[k])
    ensures FieldsFrom(h, i) == FieldsFrom(h, p)
    decreases p - i
  {
    if i < p {
      SpacesSkipped(h, i + 1, p);
    }
  }

  lemma NormalizedHeader(header: string)
    requires ExtractToken(header).Token?
    ensures var token := ExtractToken(header).token;
      NormalizeBearerToken(header) == if NoSpace(token) then token else TrimSpace(header)
  {
    var token := ExtractToken(header).token;
    var p := HeaderShape(header);
    HeaderFields(header);
    if NoSpace(token) {
      SingleField(token);
      TrimSpaceOfTrimmed(token);
    } else {
      InnerSpaceSplits(token);
    }
  }

  lemma NormalizedToken(token: string)
    requires token != [] && Trimmed(token)
    ensures NoSpace(token) ==> NormalizeBearerToken(token) == token
    ensures 0 < |NormalizeBearerToken(token)| <= |token|
  {
    TrimSpaceOfTrimmed(token);
    if NoSpace(token) {
      SingleField(token);
    }
    FieldsAreShort(token, 0);
    var parts := Fields(token);
    if |parts| == 2 {
      assert parts[1] in parts;
      TrimSpaceOfTrimmed(parts[1]);
    }
  }

  /** The fingerprint the cache takes from the raw header is the one the registry took from the token
      exactly when the token contains no white space, whatever the hash. */
  lemma FingerprintRoundTrip(hash: string -> string, header: string)
    requires ExtractToken(header).Token?
    ensures var token := ExtractToken(header).token;
      TokenFingerprint(hash, header) == TokenFingerprint(hash, token) <==> NoSpace(token)
  {
    var token := ExtractToken(header).token;
    var p := HeaderShape(header);
    NormalizedHeader(header);
    NormalizedToken(token);
    HeaderFields(header);
  }

  /** A bare token and the same token behind "Bearer" have the same fingerprint. */
  lemma SchemeWordIsDropped(hash: string -> string, token: string)
    requires token != "" && NoSpace(token)
    ensures Trimmed(token) && Trimmed("Bearer " + token)
    ensures TokenFingerprint(hash, "Bearer " + token) == TokenFingerprint(hash, token)
  {
    var header := "Bearer " + token;
    assert header[7..] == token;
    TrimSpaceOfTrimmed(header);
    TrimSpaceOfTrimmed(token);
    FingerprintRoundTrip(hash, header);
  }
}
