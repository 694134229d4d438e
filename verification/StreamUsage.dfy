/**
 * Usage taken from a streamed answer as it is forwarded (responseRecorder in internal/middleware/cache.go).
 * `parse` stands for the JSON decoding of one event; it may fail.
 */
module StreamUsage {
  import opened Text
  import opened Wire

  /** The usage part of an upstream answer. */
  datatype Reported = Reported(promptTokens: int, completionTokens: int, totalTokens: int)

  type Parser = string -> Option<Reported>

  const MARKER := "\"usage\":"
  const DATA_PREFIX := "data: "

  predicate OccursAt(s: string, p: string, i: nat) {
    i + |p| <= |s| && s[i..i + |p|] == p
  }

  predicate Contains(s: string, p: string) {
    exists i :: 0 <= i <= |s| && OccursAt(s, p, i)
  }

  /** The pieces between newlines; there is always at least one. */
  function Lines(s: string): (r: seq<string>)
    ensures r != []
  {
    if s == [] then [[]]
    else Extended(Lines(s[..|s| - 1]), s[|s| - 1])
  }

  function Extended(lines: seq<string>, c: char): (r: seq<string>)
    requires lines != []
    ensures r != []
  {
    if c == '\n' then lines + [[]] else lines[..|lines| - 1] + [lines[|lines| - 1] + [c]]
  }

  /** The usage an event line reports, if it reports any tokens. */
  function Event(parse: Parser, line: string): Option<Reported> {
    if !HasPrefix(line, DATA_PREFIX) || line[6..] == "[DONE]" then None
    else
      var u := parse(line[6..]);
      if u.Some? && u.value.totalTokens > 0 then u else None
  }

  /** The last usage reported by the lines, or the one known before. */
  function LastUsage(parse: Parser, lines: seq<string>, known: Option<Reported>): Option<Reported> {
    if lines == [] then known
    else
      var last := Event(parse, lines[|lines| - 1]);
      if last.Some? then last else LastUsage(parse, lines[..|lines| - 1], known)
  }

  /** Lines are what newlines separate: put together again they are the text, and none of them holds a newline. */
  lemma {:induction false} LinesAre(s: string)
    ensures Unlines(Lines(s)) == s
    ensures forall i :: 0 <= i < |Lines(s)| ==> '\n' !in Lines(s)[i]
  {
    if s == [] {
    } else {
      var before, c := s[..|s| - 1], s[|s| - 1];
      LinesAre(before);
      UnlinesExtended(Lines(before), c);
      NewlineFree(Lines(before), c);
    }
  }

  lemma NewlineFree(lines: seq<string>, c: char)
    requires lines != [] && forall i :: 0 <= i < |lines| ==> '\n' !in lines[i]
    ensures forall i :: 0 <= i < |Extended(lines, c)| ==> '\n' !in Extended(lines, c)[i]
  {
  }

  /** The lines with a newline between each two. */
  function Unlines(lines: seq<string>): string
    requires lines != []
  {
    if |lines| == 1 then lines[0] else Unlines(lines[..|lines| - 1]) + "\n" + lines[|lines| - 1]
  }

  lemma UnlinesExtended(lines: seq<string>, c: char)
    requires lines != []
    ensures Unlines(Extended(lines, c)) == Unlines(lines) + [c]
  {
    var more := Extended(lines, c);
    if c == '\n' {
      assert more[..|more| - 1] == lines;
    } else {
      assert more[..|more| - 1] == lines[..|lines| - 1];
    }
  }

  /** A line reports usage exactly when it is an event other than the last whose decoding has tokens. */
  lemma EventIff(parse: Parser, line: string, u: Reported)
    ensures Event(parse, line) == Some(u) <==>
      exists json :: line == "data: " + json && json != "[DONE]" && parse(json) == Some(u) && u.totalTokens > 0
  {
    assert HasPrefix(line, DATA_PREFIX) ==> line == "data: " + line[6..];
    forall json | line == "data: " + json
      ensures json == line[6..]
    {
    }
  }

  /** The line reports, and no later one does. */
  predicate LastToReport(parse: Parser, lines: seq<string>, i: nat) {
    i < |lines| && Event(parse, lines[i]).Some? && forall j :: i < j < |lines| ==> Event(parse, lines[j]) == None
  }

  /** What is known is what the last line to report says. */
  lemma {:induction false} LastUsageIs(parse: Parser, lines: seq<string>, known: Option<Reported>, i: nat)
    requires LastToReport(parse, lines, i)
    ensures LastUsage(parse, lines, known) == Event(parse, lines[i])
  {
    if i < |lines| - 1 {
      assert LastToReport(parse, lines[..|lines| - 1], i);
      LastUsageIs(parse, lines[..|lines| - 1], known, i);
    }
  }

  /** If no line reports, what was known before stays. */
  lemma {:induction false} SilenceKeeps(parse: Parser, lines: seq<string>, known: Option<Reported>)
    requires forall i :: 0 <= i < |lines| ==> Event(parse, lines[i]) == None
    ensures LastUsage(parse, lines, known) == known
  {
    if lines == [] {
    } else {
      SilenceKeeps(parse, lines[..|lines| - 1], known);
    }
  }

  /** What one `Write` of a stream leaves known. */
  function AfterChunk(parse: Parser, chunk: string, known: Option<Reported>): Option<Reported> {
    if Contains(chunk, MARKER) then LastUsage(parse, Lines(chunk), known) else known
  }

  function AfterChunks(parse: Parser, chunks: seq<string>): Option<Reported> {
    if chunks == [] then None
    else AfterChunk(parse, chunks[|chunks| - 1], AfterChunks(parse, chunks[..|chunks| - 1]))
  }

  function Joined(chunks: seq<string>): string {
    if chunks == [] then [] else Joined(chunks[..|chunks| - 1]) + chunks[|chunks| - 1]
  }

  lemma ChunkAppended(parse: Parser, chunks: seq<string>, b: string)
    ensures Joined(chunks + [b]) == Joined(chunks) + b
    ensures AfterChunks(parse, chunks + [b]) == AfterChunk(parse, b, AfterChunks(parse, chunks))
  {
    assert (chunks + [b])[..|chunks|] == chunks;
  }

  class ResponseRecorder {
    const parse: Parser
    const isStream: bool
    var body: string
    var sent: string                 // what the client's writer has been given
    var finalUsage: Option<Reported>
    ghost var chunks: seq<string>

    ghost predicate Valid()
      reads this
    {
      && sent == Joined(chunks)
      && body == (if isStream then [] else sent)
      && finalUsage == if isStream then AfterChunks(parse, chunks) else None
    }

    constructor (parse: Parser, isStream: bool)
      ensures Valid() && chunks == [] && this.isStream == isStream && this.parse == parse
    {
      this.parse, this.isStream := parse, isStream;
      body, sent, finalUsage, chunks := [], [], None, [];
    }

    method Write(b: string)
      requires Valid()
      modifies this
      ensures Valid() && chunks == old(chunks) + [b]
      ensures sent == old(sent) + b
      ensures if isStream then body == [] else body == old(body) + b
      ensures finalUsage == if isStream then AfterChunk(parse, b, old(finalUsage)) else None
    {
      if !isStream {
        body := body + b;
      } else if Contains(b, MARKER) {
        ExtractUsageFromChunk(b);
      }
      sent := sent + b;
      ChunkAppended(parse, chunks, b);
      chunks := chunks + [b];
    }

    method ExtractUsageFromChunk(chunk: string)
      modifies this`finalUsage
      ensures finalUsage == LastUsage(parse, Lines(chunk), old(finalUsage))
    {
      var lines := Lines(chunk);
      for i := 0 to |lines|
        invariant finalUsage == LastUsage(parse, lines[..i], old(finalUsage))
      {
        assert lines[..i + 1][..i] == lines[..i];
        var line := lines[i];
        if !HasPrefix(line, DATA_PREFIX) {
          continue;
        }
        var jsonStr := line[6..];
        if jsonStr == "[DONE]" {
          continue;
        }
        var llmResp := parse(jsonStr);
        if llmResp == None {
          continue;
        }
        if llmResp.value.totalTokens > 0 {
          finalUsage := llmResp;
        }
      }
      assert lines[..|lines|] == lines;
    }
  }
}
