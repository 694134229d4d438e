/** Captured responses as objects, and the copies handed from one request to another (internal/middleware/cache.go). */
module Recorded {
  import opened Wire

  class RecordedResponse {
    var statusCode: int
    var header: map<string, seq<string>>
    var body: array<byte>

    /** What a reader of the object sees. */
    function Value(): Response
      reads this, body
    {
      Response(statusCode, header, body[..])
    }

    constructor (statusCode: int, header: map<string, seq<string>>, body: array<byte>)
      ensures this.statusCode == statusCode && this.header == header && this.body == body
    {
      this.statusCode, this.header, this.body := statusCode, header, body;
    }
  }

  function Overlaid(dst: Header, src: Header): Header {
    map k | k in dst.Keys + src.Keys :: if k in src then src[k] else dst[k]
  }

  /** The source's entries replace the destination's; the others stay, and nothing else comes in. */
  lemma OverlaidIs(dst: Header, src: Header, k: string)
    ensures k in Overlaid(dst, src) <==> k in dst || k in src
    ensures k in src ==> Overlaid(dst, src)[k] == src[k]
    ensures k in dst && k !in src ==> Overlaid(dst, src)[k] == dst[k]
  {
  }

  lemma OverlayOne(dst: Header, done: Header, k: string, v: seq<string>)
    ensures Overlaid(dst, done)[k := v] == Overlaid(dst, done[k := v])
  {
  }

  /** The copying, once all but these keys have been copied. */
  ghost predicate CopiedBut(dst: Header, src: Header, out: Header, todo: set<string>) {
    todo <= src.Keys && out == Overlaid(dst, src - todo)
  }

  lemma CopyOne(dst: Header, src: Header, out: Header, todo: set<string>, key: string)
    requires CopiedBut(dst, src, out, todo) && key in todo
    ensures CopiedBut(dst, src, out[key := src[key]], todo - {key})
  {
    OverlayOne(dst, src - todo, key, src[key]);
    assert (src - todo)[key := src[key]] == src - (todo - {key});
  }

  lemma CopyEnds(dst: Header, src: Header)
    ensures CopiedBut(dst, src, dst, src.Keys) && src - {} == src
  {
    assert src - src.Keys == map[];
  }

  /** Copies every entry of src over those of dst, in whatever order the map yields them. */
  method CopyHeaders(dst: Header, src: Header) returns (out: Header)
    ensures out == Overlaid(dst, src)
  {
    out := dst;
    var todo := src.Keys;
    CopyEnds(dst, src);
    while todo != {}
      invariant CopiedBut(dst, src, out, todo)
      decreases |todo|
    {
      var key :| key in todo;
      CopyOne(dst, src, out, todo, key);
      out := out[key := src[key]];
      todo := todo - {key};
    }
  }

  method CloneHeader(src: Header) returns (out: Header)
    ensures out == src
  {
    out := CopyHeaders(map[], src);
  }

  /** A copy that shares nothing with the original: later writes to either leave the other as it was. */
  method CloneRecordedResponse(resp: RecordedResponse?) returns (copy: RecordedResponse?)
    ensures copy == null <==> resp == null
    ensures resp != null ==> copy.Value() == resp.Value()
    ensures copy != null ==> fresh(copy) && fresh(copy.body)
  {
    if resp == null {
      return null;
    }
    var header := CloneHeader(resp.header);
    var body := new byte[resp.body.Length](i requires 0 <= i < resp.body.Length reads resp, resp.body => resp.body[i]);
    copy := new RecordedResponse(resp.statusCode, header, body);
  }
}
