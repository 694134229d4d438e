/** The string operations the gateway uses on headers and configuration values. */
module Text {

  /** White space as Go's unicode.IsSpace has it. */
  predicate IsSpace(c: char) {
    || '\t' <= c <= '\r'
    || c == ' '
    || c == '\U{0085}' || c == '\U{00A0}' || c == '\U{1680}'
    || '\U{2000}' <= c <= '\U{200A}'
    || c == '\U{2028}' || c == '\U{2029}' || c == '\U{202F}' || c == '\U{205F}' || c == '\U{3000}'
  }

  predicate NoSpace(s: string) {
    forall i :: 0 <= i < |s| ==> !IsSpace(s[i])
  }

  predicate HasPrefix(s: string, prefix: string) {
    prefix <= s
  }

  /** First position at or after i that holds no white space. */
  function SkipSpace(s: string, i: nat): (r: nat)
    requires i <= |s|
    ensures i <= r <= |s|
    decreases |s| - i
  {
    if i < |s| && IsSpace(s[i]) then SkipSpace(s, i + 1) else i
  }

  lemma {:induction false} SkipSpaceSkips(s: string, i: nat)
    requires i <= |s|
    ensures forall k :: i <= k < SkipSpace(s, i) ==> IsSpace(s[k])
    ensures SkipSpace(s, i) < |s| ==> !IsSpace(s[SkipSpace(s, i)])
    decreases |s| - i
  {
    if i < |s| && IsSpace(s[i]) {
      SkipSpaceSkips(s, i + 1);
    }
  }

  /** First position at or after i that holds white space. */
  function SkipWord(s: string, i: nat): (r: nat)
    requires i <= |s|
    ensures i <= r <= |s|
    ensures i < |s| && !IsSpace(s[i]) ==> i < r
    decreases |s| - i
  {
    if i < |s| && !IsSpace(s[i]) then SkipWord(s, i + 1) else i
  }

  lemma {:induction false} SkipWordSkips(s: string, i: nat)
    requires i <= |s|
    ensures forall k :: i <= k < SkipWord(s, i) ==> !IsSpace(s[k])
    ensures SkipWord(s, i) < |s| ==> IsSpace(s[SkipWord(s, i)])
    decreases |s| - i
  {
    if i < |s| && !IsSpace(s[i]) {
      SkipWordSkips(s, i + 1);
    }
  }

  /** End of the text once trailing white space before position j is dropped. */
  function DropSpace(s: string, j: nat): (r: nat)
    requires j <= |s|
    ensures r <= j
    ensures r > 0 ==> !IsSpace(s[r - 1])
  {
    if j > 0 && IsSpace(s[j - 1]) then DropSpace(s, j - 1) else j
  }

  function TrimLeft(s: string): string {
    s[SkipSpace(s, 0)..]
  }

  function TrimRight(s: string): string {
    s[..DropSpace(s, |s|)]
  }

  function TrimSpace(s: string): string {
    TrimRight(TrimLeft(s))
  }

  function Fields(s: string): seq<string> {
    FieldsFrom(s, 0)
  }

  function FieldsFrom(s: string, i: nat): seq<string>
    requires i <= |s|
    decreases |s| - i
  {
    var start := SkipSpace(s, i);
    if start == |s| then []
    else
      SkipSpaceSkips(s, i);
      var end := SkipWord(s, start);
      [s[start..end]] + FieldsFrom(s, end)
  }

  function Lower(c: char): char {
    if 'A' <= c <= 'Z' then ((c as int) + 32) as char else c
  }

  /** Equality up to the case of ASCII letters. */
  predicate EqualFold(a: string, b: string) {
    |a| == |b| && forall i :: 0 <= i < |a| ==> Lower(a[i]) == Lower(b[i])
  }

  predicate Trimmed(s: string) {
    s == [] || (!IsSpace(s[0]) && !IsSpace(s[|s| - 1]))
  }

  lemma TrimSpaceIsTrimmed(s: string)
    ensures Trimmed(TrimSpace(s))
  {
    var t := TrimLeft(s);
    SkipSpaceSkips(s, 0);
    var end := DropSpace(t, |t|);
    if end > 0 {
      assert t[..end][0] == t[0] && t[..end][end - 1] == t[end - 1];
    }
  }

  lemma TrimSpaceOfTrimmed(s: string)
    requires Trimmed(s)
    ensures TrimSpace(s) == s
  {
    assert SkipSpace(s, 0) == 0 && TrimLeft(s) == s;
    assert DropSpace(s, |s|) == |s|;
  }

  /** Trimming drops white space at both ends and nothing else. */
  lemma {:induction false} TrimSpaceDrops(s: string) returns (i: nat, j: nat)
    ensures i <= j <= |s| && TrimSpace(s) == s[i..j] && Trimmed(s[i..j])
    ensures Blank(s[..i]) && Blank(s[j..])
  {
    SkipSpaceSkips(s, 0);
    TrimSpaceIsTrimmed(s);
    var t := TrimLeft(s);
    i := SkipSpace(s, 0);
    j := i + DropSpace(t, |t|);
    DropSpaceDrops(t, |t|);
    assert t[DropSpace(t, |t|)..] == s[j..];
  }

  lemma {:induction false} SomethingLeft(s: string, k: nat)
    requires k < |s| && !IsSpace(s[k])
    ensures TrimSpace(s) != ""
  {
    var i, j := TrimSpaceDrops(s);
    DroppedAt(s, i, j, k);
  }

  lemma DroppedAt(s: string, i: nat, j: nat, k: nat)
    requires i <= j <= |s| && Blank(s[..i]) && Blank(s[j..]) && k < |s|
    ensures k < i || j <= k ==> IsSpace(s[k])
  {
    if k < i {
      assert s[..i][k] == s[k];
    } else if j <= k {
      assert s[j..][k - j] == s[k];
    }
  }

  /** Nothing but white space. */
  predicate Blank(s: string) {
    forall k :: 0 <= k < |s| ==> IsSpace(s[k])
  }

  lemma {:induction false} DropSpaceDrops(s: string, j: nat)
    requires j <= |s| && Blank(s[j..])
    ensures Blank(s[DropSpace(s, j)..])
  {
    if j > 0 && IsSpace(s[j - 1]) {
      assert s[j - 1..] == [s[j - 1]] + s[j..];
      DropSpaceDrops(s, j - 1);
    }
  }

  /** t is the text of s beyond position p. */
  predicate Tail(s: string, p: nat, t: string) {
    p + |t| == |s| && forall k :: 0 <= k < |t| ==> t[k] == s[p + k]
  }

  lemma {:induction false} SkipSpaceShift(s: string, p: nat, t: string, i: nat)
    requires Tail(s, p, t) && i <= |t|
    ensures SkipSpace(s, p + i) == p + SkipSpace(t, i)
    decreases |t| - i
  {
    if i < |t| && IsSpace(t[i]) {
      SkipSpaceShift(s, p, t, i + 1);
    }
  }

  lemma {:induction false} SkipWordShift(s: string, p: nat, t: string, i: nat)
    requires Tail(s, p, t) && i <= |t|
    ensures SkipWord(s, p + i) == p + SkipWord(t, i)
    decreases |t| - i
  {
    if i < |t| && !IsSpace(t[i]) {
      SkipWordShift(s, p, t, i + 1);
    }
  }

  lemma SliceShift(s: string, p: nat, t: string, i: nat, j: nat)
    requires Tail(s, p, t) && i <= j <= |t|
    ensures s[p + i..p + j] == t[i..j]
  {
  }

  lemma FieldsUnfold(s: string, i: nat, start: nat, end: nat, rest: seq<string>)
    requires i <= |s| && start == SkipSpace(s, i) < |s| && end == SkipWord(s, start)
    requires rest == FieldsFrom(s, end)
    ensures FieldsFrom(s, i) == [s[start..end]] + rest
  {
  }

  /** Fields found beyond position p are the fields of the text that begins there. */
  lemma {:induction false} FieldsShift(s: string, p: nat, t: string, i: nat)
    requires Tail(s, p, t) && i <= |t|
    ensures FieldsFrom(s, p + i) == FieldsFrom(t, i)
    decreases |t| - i
  {
    var start := SkipSpace(t, i);
    SkipSpaceShift(s, p, t, i);
    if start < |t| {
      SkipSpaceSkips(t, i);
      var end := SkipWord(t, start);
      SkipWordShift(s, p, t, start);
      SliceShift(s, p, t, start, end);
      FieldsShift(s, p, t, end);
      FieldsUnfold(s, p + i, p + start, p + end, FieldsFrom(t, end));
      FieldsUnfold(t, i, start, end, FieldsFrom(t, end));
    }
  }

  lemma SingleField(s: string)
    requires s != [] && NoSpace(s)
    ensures Fields(s) == [s]
  {
    SkipWordSkips(s, 0);
    assert s[0..|s|] == s;
    assert FieldsFrom(s, |s|) == [];
  }

  /** Trimmed text containing white space has at least two fields. */
  lemma InnerSpaceSplits(s: string)
    requires s != [] && Trimmed(s) && !NoSpace(s)
    ensures |Fields(s)| >= 2
  {
    var end := SkipWord(s, 0);
    SkipWordSkips(s, 0);
    SkipSpaceSkips(s, end);
    assert |FieldsFrom(s, end)| >= 1;
  }

  lemma {:induction false} FieldsAreShort(s: string, i: nat)
    requires i <= |s|
    ensures forall f :: f in FieldsFrom(s, i) ==> 0 < |f| <= |s| && NoSpace(f)
    decreases |s| - i
  {
    var start := SkipSpace(s, i);
    SkipSpaceSkips(s, i);
    if start < |s| {
      SkipWordSkips(s, start);
      FieldsAreShort(s, SkipWord(s, start));
    }
  }

  /** Two words with white space between them. */
  predicate TwoWords(s: string, p: int, q: int) {
    0 < p < q < |s| && NoSpace(s[..p]) && Blank(s[p..q]) && NoSpace(s[q..])
  }

  lemma {:induction false} SkipSpaceTo(s: string, i: nat, j: nat)
    requires i <= j <= |s| && Blank(s[i..j]) && (j < |s| ==> !IsSpace(s[j]))
    ensures SkipSpace(s, i) == j
    decreases j - i
  {
    if i < j {
      assert IsSpace(s[i..j][0]) && s[i..j][1..] == s[i + 1..j];
      SkipSpaceTo(s, i + 1, j);
    }
  }

  lemma {:induction false} SkipWordTo(s: string, i: nat, j: nat)
    requires i <= j <= |s| && NoSpace(s[i..j]) && (j < |s| ==> IsSpace(s[j]))
    ensures SkipWord(s, i) == j
    decreases j - i
  {
    if i < j {
      assert !IsSpace(s[i..j][0]) && s[i..j][1..] == s[i + 1..j];
      SkipWordTo(s, i + 1, j);
    }
  }

  lemma {:induction false} FieldsOfTwoWords(s: string, p: int, q: int)
    requires TwoWords(s, p, q)
    ensures Fields(s) == [s[..p], s[q..]]
  {
    assert !IsSpace(s[..p][0]) && IsSpace(s[p..q][0]) && !IsSpace(s[q..][0]);
    SkipWordTo(s, 0, p);
    SkipSpaceTo(s, p, q);
    assert s[q..] == s[q..|s|];
    SkipWordTo(s, q, |s|);
    FieldsUnfold(s, 0, 0, p, FieldsFrom(s, p));
    FieldsUnfold(s, p, q, |s|, []);
    assert s[0..p] == s[..p];
  }

  /** Trimmed text with exactly two fields is two words. */
  lemma {:induction false} TwoFieldsAreWords(s: string) returns (p: nat, q: nat)
    requires Trimmed(s) && |Fields(s)| == 2
    ensures TwoWords(s, p, q) && Fields(s) == [s[..p], s[q..]]
  {
    p := SkipWord(s, 0);
    SkipWordSkips(s, 0);
    q := SkipSpace(s, p);
    SkipSpaceSkips(s, p);
    assert Fields(s) == [s[0..p]] + FieldsFrom(s, p);
    assert FieldsFrom(s, p) != [];
    var end := SkipWord(s, q);
    SkipWordSkips(s, q);
    assert FieldsFrom(s, end) == [];
    SkipSpaceSkips(s, end);
    assert SkipSpace(s, end) == |s|;
    assert end == |s|;
    assert s[q..end] == s[q..];
  }

  // ---- order ----

  /** Go's string order. */
  predicate Less(a: string, b: string) {
    b != [] && (a == [] || a[0] < b[0] || (a[0] == b[0] && Less(a[1..], b[1..])))
  }

  /** One string comes before another at their first difference, or as its proper prefix. */
  lemma {:induction false} LessIff(a: string, b: string)
    ensures Less(a, b) <==>
      exists k :: DiffersAt(a, b, k)
  {
    if a == [] || b == [] || a[0] != b[0] {
      LessAtHead(a, b);
    } else {
      LessIff(a[1..], b[1..]);
      LessBehindHead(a, b);
    }
  }

  ghost predicate DiffersAt(a: string, b: string, k: int) {
    0 <= k <= |a| && k < |b| && a[..k] == b[..k] && (k == |a| || a[k] < b[k])
  }

  lemma SameFirst(a: string, b: string, k: int)
    requires 0 <= k <= |a| && k <= |b| && a[..k] == b[..k]
    ensures k > 0 ==> a[0] == b[0]
  {
    if k > 0 {
      assert a[..k][0] == b[..k][0];
    }
  }

  lemma LessAtHead(a: string, b: string)
    requires a == [] || b == [] || a[0] != b[0]
    ensures Less(a, b) <==> exists k :: DiffersAt(a, b, k)
  {
    if Less(a, b) {
      assert DiffersAt(a, b, 0);
    }
    if k :| DiffersAt(a, b, k) {
      SameFirst(a, b, k);
    }
  }

  lemma LessBehindHead(a: string, b: string)
    requires a != [] && b != [] && a[0] == b[0]
    ensures (exists k :: DiffersAt(a, b, k)) <==> exists k :: DiffersAt(a[1..], b[1..], k)
  {
    if k :| DiffersAt(a, b, k) {
      assert k > 0;
      assert a[1..][..k - 1] == a[..k][1..] && b[1..][..k - 1] == b[..k][1..];
      assert DiffersAt(a[1..], b[1..], k - 1);
    }
    if k :| DiffersAt(a[1..], b[1..], k) {
      assert a[..k + 1] == [a[0]] + a[1..][..k] && b[..k + 1] == [b[0]] + b[1..][..k];
      assert DiffersAt(a, b, k + 1);
    }
  }

  lemma {:induction false} LessIrreflexive(a: string)
    ensures !Less(a, a)
  {
    if a == [] {
    } else {
      LessIrreflexive(a[1..]);
    }
  }

  lemma {:induction false} LessTransitive(a: string, b: string, c: string)
    requires Less(a, b) && Less(b, c)
    ensures Less(a, c)
    decreases |b|
  {
    if a != [] && a[0] == b[0] == c[0] {
      LessTransitive(a[1..], b[1..], c[1..]);
    }
  }

  lemma {:induction false} LessTotal(a: string, b: string)
    ensures Less(a, b) || a == b || Less(b, a)
    decreases |b|
  {
    if a != [] && b != [] && a[0] == b[0] {
      LessTotal(a[1..], b[1..]);
      assert a == [a[0]] + a[1..] && b == [b[0]] + b[1..];
    }
  }

  predicate Distinct(xs: seq<string>) {
    forall i, j :: 0 <= i < j < |xs| ==> xs[i] != xs[j]
  }
}
