/**
 * Which usage is kept of a stream that is cut into chunks (responseRecorder in internal/middleware/cache.go),
 * and exactly when it is the usage the whole stream reports last.
 */
module StreamCuts {
  import opened StreamUsage
  import opened Text
  import opened Wire

  // ---- what a chunk reports ----

  /** Skipping the chunk for want of the marker loses nothing. */
  predicate Heard(parse: Parser, chunk: string) {
    Contains(chunk, MARKER) || forall k :: 0 <= k < |Lines(chunk)| ==> Event(parse, Lines(chunk)[k]) == None
  }

  /** An event that reports tokens spells out the marker. */
  ghost predicate Marks(parse: Parser) {
    forall line :: Event(parse, line).Some? ==> Contains(line, MARKER)
  }

  /** Each line is a piece of the text, the last one its end. */
  lemma {:induction false} LineOccurs(s: string, k: nat) returns (at: nat)
    requires k < |Lines(s)|
    ensures OccursAt(s, Lines(s)[k], at)
    ensures k == |Lines(s)| - 1 ==> at + |Lines(s)[k]| == |s|
  {
    if s == [] {
      at := 0;
    } else {
      var n := |s| - 1;
      var before := Lines(s[..n]);
      if k < |before| && (k < |before| - 1 || s[n] == '\n') {
        at := LineOccurs(s[..n], k);
        OccursInLonger(s, n, before[k], at);
      } else if s[n] == '\n' {
        at := |s|;
      } else {
        at := LineOccurs(s[..n], k);
        OccursAtEnd(s, before[k], at);
      }
    }
  }

  lemma OccursInLonger(s: string, n: nat, line: string, at: nat)
    requires n <= |s| && OccursAt(s[..n], line, at)
    ensures OccursAt(s, line, at)
  {
    assert s[..n][at..at + |line|] == s[at..at + |line|];
  }

  lemma OccursAtEnd(s: string, line: string, at: nat)
    requires s != [] && OccursAt(s[..|s| - 1], line, at) && at + |line| == |s| - 1
    ensures OccursAt(s, line + [s[|s| - 1]], at)
  {
    OccursInLonger(s, |s| - 1, line, at);
    assert s[at..] == s[at..at + |line|] + [s[|s| - 1]];
    assert s[at..] == s[at..at + |line| + 1];
  }

  lemma ContainsThrough(s: string, line: string, at: nat, p: string)
    requires OccursAt(s, line, at) && Contains(line, p)
    ensures Contains(s, p)
  {
    var i :| 0 <= i <= |line| && OccursAt(line, p, i);
    forall k | 0 <= k < |p|
      ensures p[k] == s[at + i + k]
    {
      assert line[i..i + |p|][k] == line[i + k] && s[at..at + |line|][i + k] == s[at + (i + k)];
    }
    assert OccursAt(s, p, at + i);
  }

  /** Where events spell out the marker, no chunk is skipped wrongly. */
  lemma MarksAreHeard(parse: Parser, chunk: string)
    requires Marks(parse)
    ensures Heard(parse, chunk)
  {
    if !Contains(chunk, MARKER) {
      forall k | 0 <= k < |Lines(chunk)|
        ensures Event(parse, Lines(chunk)[k]) == None
      {
        var at := LineOccurs(chunk, k);
        if Event(parse, Lines(chunk)[k]).Some? {
          ContainsThrough(chunk, Lines(chunk)[k], at, MARKER);
        }
      }
    }
  }

  lemma AfterChunkIsLastUsage(parse: Parser, chunk: string, known: Option<Reported>)
    requires Heard(parse, chunk)
    ensures AfterChunk(parse, chunk, known) == LastUsage(parse, Lines(chunk), known)
  {
    if !Contains(chunk, MARKER) {
      NothingReported(parse, Lines(chunk), known);
    }
  }

  lemma {:induction false} NothingReported(parse: Parser, lines: seq<string>, known: Option<Reported>)
    requires forall k :: 0 <= k < |lines| ==> Event(parse, lines[k]) == None
    ensures LastUsage(parse, lines, known) == known
  {
    if lines == [] {
    } else {
      NothingReported(parse, lines[..|lines| - 1], known);
    }
  }

  lemma {:induction false} LastUsageAppend(parse: Parser, a: seq<string>, b: seq<string>, known: Option<Reported>)
    ensures LastUsage(parse, a + b, known) == LastUsage(parse, b, LastUsage(parse, a, known))
  {
    if b == [] {
      assert a + b == a;
    } else {
      LastUsageAppend(parse, a, b[..|b| - 1], known);
      assert (a + b)[..|a + b| - 1] == a + b[..|b| - 1];
    }
  }

  /** Only what the lines report themselves can replace what was known. */
  lemma {:induction false} LastUsageOver(parse: Parser, lines: seq<string>, known: Option<Reported>)
    ensures LastUsage(parse, lines, known)
         == if LastUsage(parse, lines, None).Some? then LastUsage(parse, lines, None) else known
  {
    if lines == [] {
    } else {
      LastUsageOver(parse, lines[..|lines| - 1], known);
    }
  }

  // ---- the lines of a stream and the pieces its chunks cut them into ----

  /** The pieces of each finished line, and of the line the stream is in. */
  datatype Cuts = Cuts(finished: seq<seq<string>>, open: seq<string>)

  /** A chunk begins with a new piece of the open line. */
  function NewPiece(t: Cuts): Cuts {
    Cuts(t.finished, t.open + [[]])
  }

  function Typed(t: Cuts, c: char): Cuts
    requires t.open != []
  {
    var last := |t.open| - 1;
    if c == '\n' then Cuts(t.finished + [t.open], [[]])
    else Cuts(t.finished, t.open[..last] + [t.open[last] + [c]])
  }

  function Chunked(t: Cuts, chunk: string): (r: Cuts)
    ensures r.open != []
  {
    if chunk == [] then NewPiece(t) else Typed(Chunked(t, chunk[..|chunk| - 1]), chunk[|chunk| - 1])
  }

  function CutsOf(chunks: seq<string>): Cuts {
    if chunks == [] then Cuts([], []) else Chunked(CutsOf(chunks[..|chunks| - 1]), chunks[|chunks| - 1])
  }

  function Groups(t: Cuts): seq<seq<string>> {
    t.finished + [t.open]
  }

  /** All pieces, in the order of the stream. */
  function Pieces(gs: seq<seq<string>>): seq<string> {
    if gs == [] then [] else Pieces(gs[..|gs| - 1]) + gs[|gs| - 1]
  }

  /** The lines the pieces make up. */
  function Whole(gs: seq<seq<string>>): seq<string> {
    if gs == [] then [] else Whole(gs[..|gs| - 1]) + [Joined(gs[|gs| - 1])]
  }

  lemma LinesStep(before: string, c: char)
    ensures Lines(before + [c]) == Extended(Lines(before), c)
  {
    assert (before + [c])[..|before|] == before;
  }

  lemma ExtendsBack(front: seq<string>, back: seq<string>, c: char)
    requires back != []
    ensures Extended(front + back, c) == front + Extended(back, c)
  {
  }

  lemma EndsWithLast(b: string)
    requires b != []
    ensures b[..|b| - 1] + [b[|b| - 1]] == b
  {
  }

  lemma JoinedLonger(open: seq<string>, piece: string)
    ensures Joined(open + [piece]) == Joined(open) + piece
  {
    assert (open + [piece])[..|open|] == open;
  }

  lemma OpenGrows(open: seq<string>, c: char)
    requires open != []
    ensures Joined(open[..|open| - 1] + [open[|open| - 1] + [c]]) == Joined(open) + [c]
  {
    JoinedLonger(open[..|open| - 1], open[|open| - 1] + [c]);
  }

  lemma OneMoreGroup(gs: seq<seq<string>>, g: seq<string>)
    ensures Pieces(gs + [g]) == Pieces(gs) + g
    ensures Whole(gs + [g]) == Whole(gs) + [Joined(g)]
  {
    assert (gs + [g])[..|gs|] == gs;
  }

  lemma PiecesTyped(t: Cuts, c: char)
    requires t.open != []
    ensures Pieces(Typed(t, c).finished) + Typed(t, c).open == Extended(Pieces(t.finished) + t.open, c)
  {
    ExtendsBack(Pieces(t.finished), t.open, c);
    if c == '\n' {
      OneMoreGroup(t.finished, t.open);
      Regrouped(Pieces(t.finished), t.open, [[]]);
    }
  }

  lemma WholeTyped(t: Cuts, c: char)
    requires t.open != []
    ensures Whole(Typed(t, c).finished) + [Joined(Typed(t, c).open)]
         == Extended(Whole(t.finished) + [Joined(t.open)], c)
  {
    ExtendsBack(Whole(t.finished), [Joined(t.open)], c);
    if c == '\n' {
      OneMoreGroup(t.finished, t.open);
      JoinedLonger([], []);
      Regrouped(Whole(t.finished), [Joined(t.open)], [[]]);
    } else {
      OpenGrows(t.open, c);
      LineGrows(Joined(t.open), c);
    }
  }

  lemma LineGrows(line: string, c: char)
    requires c != '\n'
    ensures Extended([line], c) == [line + [c]]
  {
  }

  lemma Regrouped(a: seq<string>, b: seq<string>, c: seq<string>)
    ensures (a + b) + c == a + (b + c)
  {
  }

  /** A chunk adds its own lines as pieces. */
  lemma {:induction false} PiecesChunked(t: Cuts, chunk: string)
    ensures Pieces(Chunked(t, chunk).finished) + Chunked(t, chunk).open == (Pieces(t.finished) + t.open) + Lines(chunk)
  {
    if chunk == [] {
      Regrouped(Pieces(t.finished), t.open, [[]]);
    } else {
      var shorter, c := chunk[..|chunk| - 1], chunk[|chunk| - 1];
      PiecesChunked(t, shorter);
      PiecesTyped(Chunked(t, shorter), c);
      ExtendsBack(Pieces(t.finished) + t.open, Lines(shorter), c);
    }
  }

  /** A chunk continues the text. */
  lemma {:induction false} WholeChunked(t: Cuts, text: string, chunk: string)
    requires Whole(t.finished) + [Joined(t.open)] == Lines(text)
    ensures Whole(Chunked(t, chunk).finished) + [Joined(Chunked(t, chunk).open)] == Lines(text + chunk)
  {
    if chunk == [] {
      JoinedLonger(t.open, []);
      assert Joined(t.open) + [] == Joined(t.open);
      assert text + chunk == text;
    } else {
      var shorter, c := chunk[..|chunk| - 1], chunk[|chunk| - 1];
      WholeChunked(t, text, shorter);
      WholeTyped(Chunked(t, shorter), c);
      LinesStep(text + shorter, c);
      EndsWithLast(chunk);
      assert (text + shorter) + [c] == text + (shorter + [c]);
    }
  }

  /** The groups make up the lines of the whole stream. */
  lemma {:induction false} WholeIsLines(chunks: seq<string>)
    ensures Whole(Groups(CutsOf(chunks))) == Lines(Joined(chunks))
  {
    OneMoreGroup(CutsOf(chunks).finished, CutsOf(chunks).open);
    if chunks == [] {
      assert Whole(CutsOf([]).finished) == [];
    } else {
      var shorter := chunks[..|chunks| - 1];
      WholeIsLines(shorter);
      OneMoreGroup(CutsOf(shorter).finished, CutsOf(shorter).open);
      WholeChunked(CutsOf(shorter), Joined(shorter), chunks[|chunks| - 1]);
    }
  }

  /** What is kept of a stream is what its pieces report last. */
  lemma {:induction false} KeptIsPieces(parse: Parser, chunks: seq<string>)
    requires forall i :: 0 <= i < |chunks| ==> Heard(parse, chunks[i])
    ensures AfterChunks(parse, chunks) == LastUsage(parse, Pieces(Groups(CutsOf(chunks))), None)
  {
    OneMoreGroup(CutsOf(chunks).finished, CutsOf(chunks).open);
    if chunks == [] {
      assert Pieces(CutsOf([]).finished) == [];
    } else {
      var shorter, chunk := chunks[..|chunks| - 1], chunks[|chunks| - 1];
      var before := CutsOf(shorter);
      KeptIsPieces(parse, shorter);
      OneMoreGroup(before.finished, before.open);
      AfterChunkIsLastUsage(parse, chunk, AfterChunks(parse, shorter));
      PiecesChunked(before, chunk);
      LastUsageAppend(parse, Pieces(before.finished) + before.open, Lines(chunk), None);
    }
  }

  // ---- what the recorder hears of a stream ----

  function OnlyNewlines(s: string): string {
    if s == [] then []
    else OnlyNewlines(s[..|s| - 1]) + if s[|s| - 1] == '\n' then ['\n'] else []
  }

  /** A chunk without the marker is skipped: of it only its line ends matter. */
  function Audible(chunk: string): string {
    if Contains(chunk, MARKER) then chunk else OnlyNewlines(chunk)
  }

  function AudibleAll(chunks: seq<string>): (audible: seq<string>)
    ensures |audible| == |chunks|
  {
    if chunks == [] then [] else AudibleAll(chunks[..|chunks| - 1]) + [Audible(chunks[|chunks| - 1])]
  }

  lemma {:induction false} NewlinesOnly(s: string)
    ensures forall k :: 0 <= k < |OnlyNewlines(s)| ==> OnlyNewlines(s)[k] == '\n'
  {
    if s == [] {
    } else {
      NewlinesOnly(s[..|s| - 1]);
    }
  }

  lemma {:induction false} BlankLines(s: string)
    requires forall k :: 0 <= k < |s| ==> s[k] == '\n'
    ensures Blank(Lines(s))
  {
    if s == [] {
    } else {
      BlankLines(s[..|s| - 1]);
    }
  }

  lemma NewlinesLackMarker(s: string)
    requires forall k :: 0 <= k < |s| ==> s[k] == '\n'
    ensures !Contains(s, MARKER)
  {
    forall i | 0 <= i <= |s|
      ensures !OccursAt(s, MARKER, i)
    {
      MarkerIsNoNewline(s, i);
    }
  }

  lemma MarkerIsNoNewline(s: string, i: nat)
    requires i < |s| ==> s[i] == '\n'
    ensures !OccursAt(s, MARKER, i)
  {
    if i + |MARKER| <= |s| {
      assert s[i..i + |MARKER|][0] == '\n' && MARKER[0] == '"';
    }
  }

  /** What is audible of a chunk is heard, and leaves known what the chunk does. */
  lemma AudibleIsHeard(parse: Parser, chunk: string, known: Option<Reported>)
    ensures Heard(parse, Audible(chunk))
    ensures AfterChunk(parse, Audible(chunk), known) == AfterChunk(parse, chunk, known)
  {
    if !Contains(chunk, MARKER) {
      NewlinesOnly(chunk);
      NewlinesLackMarker(OnlyNewlines(chunk));
      BlankLines(OnlyNewlines(chunk));
    }
  }

  lemma {:induction false} AudibleKeeps(parse: Parser, chunks: seq<string>)
    ensures forall i :: 0 <= i < |chunks| ==> Heard(parse, AudibleAll(chunks)[i])
    ensures AfterChunks(parse, AudibleAll(chunks)) == AfterChunks(parse, chunks)
  {
    if chunks == [] {
    } else {
      var n := |chunks| - 1;
      AudibleKeeps(parse, chunks[..n]);
      AudibleIsHeard(parse, chunks[n], AfterChunks(parse, chunks[..n]));
      assert AudibleAll(chunks)[..n] == AudibleAll(chunks[..n]);
    }
  }

  function Newlines(s: string): nat {
    if s == [] then 0 else Newlines(s[..|s| - 1]) + if s[|s| - 1] == '\n' then 1 else 0
  }

  lemma {:induction false} ChunkedCounts(t: Cuts, chunk: string)
    ensures |Chunked(t, chunk).finished| == |t.finished| + Newlines(chunk)
  {
    if chunk == [] {
    } else {
      ChunkedCounts(t, chunk[..|chunk| - 1]);
    }
  }

  lemma {:induction false} SameNewlines(s: string)
    ensures Newlines(OnlyNewlines(s)) == Newlines(s)
  {
    if s == [] {
    } else {
      var before := OnlyNewlines(s[..|s| - 1]);
      SameNewlines(s[..|s| - 1]);
      if s[|s| - 1] == '\n' {
        assert (before + ['\n'])[..|before|] == before;
      } else {
        assert OnlyNewlines(s) == before;
      }
    }
  }

  lemma CutsMore(chunks: seq<string>, chunk: string)
    ensures CutsOf(chunks + [chunk]) == Chunked(CutsOf(chunks), chunk)
  {
    assert (chunks + [chunk])[..|chunks|] == chunks;
  }

  /** Line by line, what is audible lines up with the whole. */
  lemma {:induction false} AudibleLinesUp(chunks: seq<string>)
    ensures |CutsOf(AudibleAll(chunks)).finished| == |CutsOf(chunks).finished|
  {
    if chunks == [] {
    } else {
      var n := |chunks| - 1;
      AudibleLinesUp(chunks[..n]);
      SameNewlines(chunks[n]);
      ChunkedCounts(CutsOf(chunks[..n]), chunks[n]);
      ChunkedCounts(CutsOf(AudibleAll(chunks[..n])), Audible(chunks[n]));
      CutsMore(AudibleAll(chunks[..n]), Audible(chunks[n]));
    }
  }

  /** For each line of the stream, the pieces of it that the recorder hears. */
  function Kept(chunks: seq<string>): seq<seq<string>> {
    Groups(CutsOf(AudibleAll(chunks)))
  }

  // ---- when the cuts do not matter ----

  // `ks` are the pieces kept of each line, `gs` all of its pieces.

  /** The line reports tokens, whole or in the pieces kept of it. */
  predicate Speaks(parse: Parser, ks: seq<seq<string>>, gs: seq<seq<string>>, i: nat)
    requires i < |gs| == |ks|
  {
    LastUsage(parse, ks[i], None).Some? || Event(parse, Joined(gs[i])).Some?
  }

  predicate LastToSpeak(parse: Parser, ks: seq<seq<string>>, gs: seq<seq<string>>, i: nat)
    requires |gs| == |ks|
  {
    i < |gs| && Speaks(parse, ks, gs, i) && forall j :: i < j < |gs| ==> !Speaks(parse, ks, gs, j)
  }

  /**
   * What is lost of the i-th line does no harm: the pieces kept report what it reports; or they report
   * nothing, and the last usage kept before it happens to be the one it reports; or they report a usage that
   * it does not, and the last line that reports before it happens to report that.
   */
  predicate Harmless(parse: Parser, ks: seq<seq<string>>, gs: seq<seq<string>>, i: nat)
    requires i < |gs| == |ks|
  {
    var pieces, line := LastUsage(parse, ks[i], None), Event(parse, Joined(gs[i]));
    if pieces.Some? && line.Some? then pieces == line
    else if line.Some? then LastUsage(parse, Pieces(ks[..i]), None) == line
    else LastUsage(parse, Whole(gs[..i]), None) == pieces
  }

  /** What the last line adds to what is kept and to what the whole stream reports. */
  lemma LastLineAdds(parse: Parser, ks: seq<seq<string>>, gs: seq<seq<string>>)
    requires gs != [] && |gs| == |ks|
    ensures var n := |gs| - 1;
      && LastUsage(parse, Pieces(ks), None) == (if LastUsage(parse, ks[n], None).Some?
           then LastUsage(parse, ks[n], None) else LastUsage(parse, Pieces(ks[..n]), None))
      && LastUsage(parse, Whole(gs), None) == (if Event(parse, Joined(gs[n])).Some?
           then Event(parse, Joined(gs[n])) else LastUsage(parse, Whole(gs[..n]), None))
  {
    var n := |gs| - 1;
    LastUsageAppend(parse, Pieces(ks[..n]), ks[n], None);
    LastUsageOver(parse, ks[n], LastUsage(parse, Pieces(ks[..n]), None));
    OneLineMore(parse, Whole(gs[..n]), Joined(gs[n]));
  }

  lemma OneLineMore(parse: Parser, lines: seq<string>, line: string)
    ensures LastUsage(parse, lines + [line], None)
         == if Event(parse, line).Some? then Event(parse, line) else LastUsage(parse, lines, None)
  {
    assert (lines + [line])[..|lines|] == lines;
  }

  predicate Agree(parse: Parser, ks: seq<seq<string>>, gs: seq<seq<string>>) {
    LastUsage(parse, Pieces(ks), None) == LastUsage(parse, Whole(gs), None)
  }

  ghost predicate HarmlessLast(parse: Parser, ks: seq<seq<string>>, gs: seq<seq<string>>)
    requires |gs| == |ks|
  {
    forall i :: LastToSpeak(parse, ks, gs, i) ==> Harmless(parse, ks, gs, i)
  }

  /** A last line that reports decides alone. */
  lemma SpeakingLast(parse: Parser, ks: seq<seq<string>>, gs: seq<seq<string>>)
    requires gs != [] && |gs| == |ks| && Speaks(parse, ks, gs, |gs| - 1)
    ensures Agree(parse, ks, gs) <==> HarmlessLast(parse, ks, gs)
  {
    LastLineAdds(parse, ks, gs);
    assert LastToSpeak(parse, ks, gs, |gs| - 1);
    assert forall i :: LastToSpeak(parse, ks, gs, i) ==> i == |gs| - 1;
  }

  lemma SilentLastDecidesNothing(parse: Parser, ks: seq<seq<string>>, gs: seq<seq<string>>)
    requires gs != [] && |gs| == |ks| && !Speaks(parse, ks, gs, |gs| - 1)
    ensures var n := |gs| - 1; HarmlessLast(parse, ks, gs) <==> HarmlessLast(parse, ks[..n], gs[..n])
  {
    var n := |gs| - 1;
    forall i: nat
      ensures LastToSpeak(parse, ks, gs, i) <==> LastToSpeak(parse, ks[..n], gs[..n], i)
      ensures LastToSpeak(parse, ks, gs, i) ==> (Harmless(parse, ks, gs, i) <==> Harmless(parse, ks[..n], gs[..n], i))
    {
      SilentLast(parse, ks, gs, i);
    }
  }

  lemma {:induction false} GroupsAgreeIff(parse: Parser, ks: seq<seq<string>>, gs: seq<seq<string>>)
    requires |gs| == |ks|
    ensures Agree(parse, ks, gs) <==> HarmlessLast(parse, ks, gs)
  {
    if gs == [] {
    } else if Speaks(parse, ks, gs, |gs| - 1) {
      SpeakingLast(parse, ks, gs);
    } else {
      GroupsAgreeIff(parse, ks[..|gs| - 1], gs[..|gs| - 1]);
      LastLineAdds(parse, ks, gs);
      SilentLastDecidesNothing(parse, ks, gs);
    }
  }

  /** A last line that reports nothing decides nothing. */
  lemma SilentLast(parse: Parser, ks: seq<seq<string>>, gs: seq<seq<string>>, i: nat)
    requires gs != [] && |gs| == |ks| && !Speaks(parse, ks, gs, |gs| - 1)
    ensures var n := |gs| - 1;
      LastToSpeak(parse, ks, gs, i) <==> LastToSpeak(parse, ks[..n], gs[..n], i)
    ensures var n := |gs| - 1;
      LastToSpeak(parse, ks, gs, i) ==> (Harmless(parse, ks, gs, i) <==> Harmless(parse, ks[..n], gs[..n], i))
  {
    var n := |gs| - 1;
    assert forall j :: 0 <= j < n ==> (Speaks(parse, ks[..n], gs[..n], j) <==> Speaks(parse, ks, gs, j));
    if i < n {
      assert gs[..n][..i] == gs[..i] && ks[..n][..i] == ks[..i];
    }
  }

  /**
   * For any chunks at all: the usage kept is the last one of the whole stream exactly when nothing harmful is
   * lost of the last line to report anything, whole or in the pieces kept of it.
   */
  lemma {:induction false} KeptIffHarmless(parse: Parser, chunks: seq<string>)
    ensures |Groups(CutsOf(chunks))| == |Kept(chunks)|
    ensures AfterChunks(parse, chunks) == LastUsage(parse, Lines(Joined(chunks)), None)
       <==> HarmlessLast(parse, Kept(chunks), Groups(CutsOf(chunks)))
  {
    AudibleKeeps(parse, chunks);
    KeptIsPieces(parse, AudibleAll(chunks));
    AudibleLinesUp(chunks);
    WholeIsLines(chunks);
    GroupsAgreeIff(parse, Kept(chunks), Groups(CutsOf(chunks)));
  }

  /** Where no chunk that reports is skipped, all pieces are kept. */
  lemma {:induction false} HeardKeptIffHarmless(parse: Parser, chunks: seq<string>)
    requires forall i :: 0 <= i < |chunks| ==> Heard(parse, chunks[i])
    ensures AfterChunks(parse, chunks) == LastUsage(parse, Lines(Joined(chunks)), None)
       <==> HarmlessLast(parse, Groups(CutsOf(chunks)), Groups(CutsOf(chunks)))
  {
    KeptIsPieces(parse, chunks);
    WholeIsLines(chunks);
    GroupsAgreeIff(parse, Groups(CutsOf(chunks)), Groups(CutsOf(chunks)));
  }

  /** An event that reports without spelling out the marker is dropped, however little the stream is cut. */
  lemma MarkerlessEventIsDropped(parse: Parser, line: string)
    requires '\n' !in line && !Contains(line, MARKER) && Event(parse, line).Some?
    ensures CutAtLines([line]) && LastUsage(parse, Lines(Joined([line])), None) == Event(parse, line)
    ensures AfterChunks(parse, [line]) == None
  {
    assert [line][..0] == [];
    assert Joined([]) == [] && [] + line == line;
    OneLine(line);
    OneLineUsage(parse, line);
    assert AfterChunks(parse, []) == None;
  }

  /** Such an event and decoder: one that finds a usage wherever it is asked to. */
  lemma MarkerlessExample() returns (parse: Parser, line: string)
    ensures '\n' !in line && !Contains(line, MARKER) && Event(parse, line).Some?
  {
    parse, line := (json: string) => Some(Reported(1, 1, 2)), "data: x";
    assert forall i :: 0 <= i <= |line| ==> !OccursAt(line, MARKER, i);
  }

  // ---- cuts at line boundaries ----

  predicate EndsLine(s: string) {
    s == [] || s[|s| - 1] == '\n'
  }

  /** Every chunk but the last ends at a line boundary. */
  predicate CutAtLines(chunks: seq<string>) {
    forall i :: 0 <= i < |chunks| - 1 ==> EndsLine(chunks[i])
  }

  predicate Blank(pieces: seq<string>) {
    forall k :: 0 <= k < |pieces| ==> pieces[k] == []
  }

  /** The line is in one piece, after empty ones. */
  predicate InOnePiece(g: seq<string>) {
    g == [] || Blank(g[..|g| - 1])
  }

  predicate AllInOnePiece(gs: seq<seq<string>>) {
    forall i :: 0 <= i < |gs| ==> InOnePiece(gs[i])
  }

  lemma {:induction false} ChunkedInOnePiece(t: Cuts, chunk: string)
    requires AllInOnePiece(t.finished) && Blank(t.open)
    ensures AllInOnePiece(Chunked(t, chunk).finished) && InOnePiece(Chunked(t, chunk).open)
    ensures EndsLine(chunk) ==> Blank(Chunked(t, chunk).open)
  {
    if chunk == [] {
    } else {
      ChunkedInOnePiece(t, chunk[..|chunk| - 1]);
    }
  }

  lemma {:induction false} CutsInOnePiece(chunks: seq<string>)
    requires CutAtLines(chunks)
    ensures AllInOnePiece(CutsOf(chunks).finished) && InOnePiece(CutsOf(chunks).open)
    ensures chunks == [] || EndsLine(chunks[|chunks| - 1]) ==> Blank(CutsOf(chunks).open)
  {
    if chunks == [] {
    } else {
      CutsInOnePiece(chunks[..|chunks| - 1]);
      ChunkedInOnePiece(CutsOf(chunks[..|chunks| - 1]), chunks[|chunks| - 1]);
    }
  }

  lemma {:induction false} BlankJoins(parse: Parser, pieces: seq<string>)
    requires Blank(pieces)
    ensures Joined(pieces) == [] && LastUsage(parse, pieces, None) == None
  {
    if pieces == [] {
    } else {
      BlankJoins(parse, pieces[..|pieces| - 1]);
    }
  }

  lemma OnePieceReports(parse: Parser, g: seq<string>)
    requires InOnePiece(g)
    ensures LastUsage(parse, g, None) == Event(parse, Joined(g))
  {
    if g == [] {
    } else {
      BlankJoins(parse, g[..|g| - 1]);
      assert [] + g[|g| - 1] == g[|g| - 1];
    }
  }

  /** A stream cut at line boundaries, none of whose reporting chunks lacks the marker, keeps its last usage. */
  lemma {:induction false} ChunkingIsInvisible(parse: Parser, chunks: seq<string>)
    requires CutAtLines(chunks) && forall i :: 0 <= i < |chunks| ==> Heard(parse, chunks[i])
    ensures AfterChunks(parse, chunks) == LastUsage(parse, Lines(Joined(chunks)), None)
  {
    var gs := Groups(CutsOf(chunks));
    CutsInOnePiece(chunks);
    forall i: nat | LastToSpeak(parse, gs, gs, i)
      ensures Harmless(parse, gs, gs, i)
    {
      OnePieceReports(parse, gs[i]);
    }
    HeardKeptIffHarmless(parse, chunks);
  }

  /** Where every reporting event spells out the marker, no cut at line boundaries loses anything. */
  lemma {:induction false} MarkedStreamsSurvive(parse: Parser, chunks: seq<string>)
    requires Marks(parse) && CutAtLines(chunks)
    ensures AfterChunks(parse, chunks) == LastUsage(parse, Lines(Joined(chunks)), None)
  {
    forall i | 0 <= i < |chunks|
      ensures Heard(parse, chunks[i])
    {
      MarksAreHeard(parse, chunks[i]);
    }
    ChunkingIsInvisible(parse, chunks);
  }

  // ---- one cut, inside a line ----

  /** The lines of two texts on end: the last of the first and the first of the second are one line. */
  function Welded(front: seq<string>, last: string, lines: seq<string>): seq<string>
    requires lines != []
  {
    (front + [last + lines[0]]) + lines[1..]
  }

  lemma WeldedExtends(front: seq<string>, last: string, lines: seq<string>, c: char)
    requires lines != []
    ensures Extended(Welded(front, last, lines), c) == Welded(front, last, Extended(lines, c))
  {
    if |lines| == 1 && c != '\n' {
      assert last + (lines[0] + [c]) == (last + lines[0]) + [c];
    }
  }

  lemma {:induction false} LinesWeld(a: string, b: string)
    ensures Lines(a + b) == Welded(Lines(a)[..|Lines(a)| - 1], Lines(a)[|Lines(a)| - 1], Lines(b))
  {
    var front, last := Lines(a)[..|Lines(a)| - 1], Lines(a)[|Lines(a)| - 1];
    if b == [] {
      assert a + b == a && last + [] == last;
    } else {
      var shorter, c := b[..|b| - 1], b[|b| - 1];
      LinesWeld(a, shorter);
      LinesStep(a + shorter, c);
      LinesStep(shorter, c);
      WeldedExtends(front, last, Lines(shorter), c);
      EndsWithLast(b);
      assert (a + shorter) + [c] == a + (shorter + [c]);
    }
  }

  /** The lines around a cut line, and its two halves. */
  datatype Cut = Cut(front: seq<string>, left: string, right: string, tail: seq<string>)

  function CutBetween(a: string, b: string): Cut {
    Cut(Lines(a)[..|Lines(a)| - 1], Lines(a)[|Lines(a)| - 1], Lines(b)[0], Lines(b)[1..])
  }

  lemma OneLineUsage(parse: Parser, line: string)
    ensures LastUsage(parse, [line], None) == Event(parse, line)
  {
    assert [line][..0] == [];
  }

  /** What the lines before, one line or piece, and the lines after report last. */
  lemma ThreeParts(parse: Parser, front: seq<string>, line: string, tail: seq<string>)
    ensures LastUsage(parse, (front + [line]) + tail, None)
         == if LastUsage(parse, tail, None).Some? then LastUsage(parse, tail, None)
            else if Event(parse, line).Some? then Event(parse, line) else LastUsage(parse, front, None)
  {
    LastUsageAppend(parse, front + [line], tail, None);
    LastUsageOver(parse, tail, LastUsage(parse, front + [line], None));
    LastUsageAppend(parse, front, [line], None);
    LastUsageOver(parse, [line], LastUsage(parse, front, None));
    OneLineUsage(parse, line);
  }

  lemma TwoChunks(parse: Parser, a: string, b: string)
    requires Heard(parse, a) && Heard(parse, b)
    ensures AfterChunks(parse, [a, b]) == LastUsage(parse, Lines(a) + Lines(b), None)
  {
    AfterChunkIsLastUsage(parse, a, None);
    AfterChunkIsLastUsage(parse, b, LastUsage(parse, Lines(a), None));
    assert [a, b][..1] == [a] && [a][..0] == [];
    assert AfterChunks(parse, [a]) == AfterChunk(parse, a, None);
    LastUsageAppend(parse, Lines(a), Lines(b), None);
  }

  /** What is kept, and what the whole stream reports, when the halves of a cut line report nothing. */
  lemma {:induction false} OneCutKeeps(parse: Parser, a: string, b: string)
    requires Heard(parse, a) && Heard(parse, b)
    requires var cut := CutBetween(a, b); Event(parse, cut.left) == None && Event(parse, cut.right) == None
    ensures var cut := CutBetween(a, b);
      var after := LastUsage(parse, cut.tail, None);
      var before := LastUsage(parse, cut.front, None);
      var line := Event(parse, cut.left + cut.right);
      && AfterChunks(parse, [a, b]) == (if after.Some? then after else before)
      && LastUsage(parse, Lines(a + b), None) == (if after.Some? then after else if line.Some? then line else before)
  {
    var cut := CutBetween(a, b);
    TwoChunks(parse, a, b);
    LinesWeld(a, b);
    ThreeParts(parse, cut.front, cut.left + cut.right, cut.tail);
    ThreeParts(parse, cut.front + [cut.left], cut.right, cut.tail);
    ThreeParts(parse, cut.front, cut.left, []);
    Halves(a, b);
  }

  /**
   * A cut whose two halves report nothing loses nothing exactly when the whole line reports nothing either,
   * or a later line reports, or the last usage reported before is the same.
   */
  lemma {:induction false} OneCutAgreesIff(parse: Parser, a: string, b: string)
    requires Heard(parse, a) && Heard(parse, b)
    requires var cut := CutBetween(a, b); Event(parse, cut.left) == None && Event(parse, cut.right) == None
    ensures var cut := CutBetween(a, b);
      AfterChunks(parse, [a, b]) == LastUsage(parse, Lines(a + b), None)
      <==> || Event(parse, cut.left + cut.right) == None
           || LastUsage(parse, cut.tail, None).Some?
           || LastUsage(parse, cut.front, None) == Event(parse, cut.left + cut.right)
  {
    OneCutKeeps(parse, a, b);
  }

  lemma Halves(a: string, b: string)
    ensures var cut := CutBetween(a, b);
      Lines(a) + Lines(b) == ((cut.front + [cut.left]) + [cut.right]) + cut.tail
    ensures var cut := CutBetween(a, b); (cut.front + [cut.left]) + [] == cut.front + [cut.left]
  {
    var cut := CutBetween(a, b);
    EndsSplit(Lines(a), Lines(b));
    Regrouped(cut.front + [cut.left], [cut.right], cut.tail);
  }

  lemma EndsSplit(x: seq<string>, y: seq<string>)
    requires x != [] && y != []
    ensures x == x[..|x| - 1] + [x[|x| - 1]] && y == [y[0]] + y[1..]
  {
  }

  /** A lone event cut in two where neither half decodes: its usage is lost, though the whole line reports it. */
  lemma MidLineCutLosesUsage(parse: Parser, json: string, cut: nat)
    requires cut < |json| && '\n' !in json && json != "[DONE]"
    requires parse(json).Some? && parse(json).value.totalTokens > 0
    requires parse(json[..cut]) == None && !HasPrefix(json[cut..], DATA_PREFIX)
    ensures LastUsage(parse, Lines(DATA_PREFIX + json), None) == parse(json)
    ensures AfterChunks(parse, [DATA_PREFIX + json[..cut], json[cut..]]) == None
  {
    var first, second := DATA_PREFIX + json[..cut], json[cut..];
    OneEvent(parse, json);
    OneEvent(parse, json[..cut]);
    OneLine(second);
    OneLineUsage(parse, first);
    CutEvent(parse, first, second);
  }

  lemma CutEvent(parse: Parser, first: string, second: string)
    requires Lines(first) == [first] && Lines(second) == [second]
    requires Event(parse, first) == None && Event(parse, second) == None
    ensures AfterChunks(parse, [first, second]) == None
  {
    assert CutBetween(first, second) == Cut([], first, second, []);
    OneCutKeeps(parse, first, second);
  }

  lemma OneEvent(parse: Parser, json: string)
    requires '\n' !in json && (json == "[DONE]" ==> parse(json) == None)
    ensures Lines(DATA_PREFIX + json) == [DATA_PREFIX + json]
    ensures LastUsage(parse, Lines(DATA_PREFIX + json), None)
         == if parse(json).Some? && parse(json).value.totalTokens > 0 then parse(json) else None
  {
    EventHasNoNewline(json);
    OneLine(DATA_PREFIX + json);
    EventOf(parse, json);
    OneLineUsage(parse, DATA_PREFIX + json);
  }

  lemma EventHasNoNewline(json: string)
    requires '\n' !in json
    ensures '\n' !in DATA_PREFIX + json
  {
    assert '\n' !in DATA_PREFIX;
  }

  lemma EventOf(parse: Parser, json: string)
    requires json == "[DONE]" ==> parse(json) == None
    ensures Event(parse, DATA_PREFIX + json)
         == if parse(json).Some? && parse(json).value.totalTokens > 0 then parse(json) else None
  {
    var line := DATA_PREFIX + json;
    assert line[6..] == json && line[..6] == DATA_PREFIX;
  }

  lemma {:induction false} OneLine(s: string)
    requires '\n' !in s
    ensures Lines(s) == [s]
  {
    if s == [] {
    } else {
      var shorter, c := s[..|s| - 1], s[|s| - 1];
      OneLine(shorter);
      EndsWithLast(s);
      LinesStep(shorter, c);
      LineGrows(shorter, c);
    }
  }
}
