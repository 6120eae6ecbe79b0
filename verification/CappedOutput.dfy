/** Output capping: the writer that keeps the first `limit` bytes, and the pump that feeds it and a live sink. */
module CappedOutput {
  import opened ByteOrder

  function Cap(limit: int): nat {
    if limit < 0 then 0 else limit
  }

  // The part of a stream that fits under the limit.
  function Head(stream: Bytes, limit: int): Bytes {
    if |stream| <= Cap(limit) then stream else stream[..Cap(limit)]
  }

  function Concat(chunks: seq<Bytes>): Bytes {
    if chunks == [] then [] else Concat(chunks[..|chunks| - 1]) + chunks[|chunks| - 1]
  }

  class CapWriter {
    var buf: Bytes
    var n: int
    var truncated: bool
    const limit: int

    // The writer has seen exactly this stream.
    ghost predicate Saw(stream: Bytes)
      reads this
    {
      buf == Head(stream, limit) && n == |buf|
    }

    constructor (limit: int)
      ensures Saw([]) && !truncated && this.limit == limit
    {
      this.limit := limit;
      buf, n, truncated := [], 0, false;
    }

    // An empty write to a full buffer counts as truncation too.
    method Write(p: Bytes, ghost stream: Bytes)
      requires Saw(stream)
      modifies this
      ensures Saw(stream + p)
      ensures buf <= stream + p
      ensures |buf| == if limit < 0 then 0 else if |stream + p| < limit then |stream + p| else limit
      ensures truncated == (old(truncated) || |stream| >= limit || |stream + p| > limit)
    {
      if n >= limit {
        truncated := true;
        assert Head(stream + p, limit) == Head(stream, limit);
        return;
      }
      var room := limit - n;
      if |p| > room {
        buf := buf + p[..room];
        n := limit;
        truncated := true;
        assert Head(stream + p, limit) == stream + p[..room];
        return;
      }
      buf := buf + p;
      n := n + |p|;
    }
  }

  /** However the stream is cut into reads, the writer keeps its first `limit` bytes, the sink is
      given exactly those, and truncation is flagged exactly when the stream is longer. */
  method Pump(pieces: seq<Bytes>, w: CapWriter, live: bool) returns (sunk: Bytes)
    requires w.Saw([]) && !w.truncated
    modifies w
    ensures w.Saw(Concat(pieces))
    ensures w.buf <= Concat(pieces)
    ensures |w.buf| == if w.limit < 0 then 0 else if |Concat(pieces)| < w.limit then |Concat(pieces)| else w.limit
    ensures w.truncated <==> |Concat(pieces)| > w.limit && Concat(pieces) != []
    ensures sunk == if live then w.buf else []
  {
    sunk := [];
    ghost var stream := [];
    for i := 0 to |pieces|
      invariant stream == Concat(pieces[..i]) && w.Saw(stream)
      invariant w.truncated <==> |stream| > Cap(w.limit)
      invariant sunk == if live then w.buf else []
    {
      var p := pieces[i];
      assert pieces[..i + 1][..i] == pieces[..i];
      if |p| > 0 {
        if live {
          var room := w.limit - w.n;
          if room > 0 {
            var k := if |p| > room then room else |p|;
            sunk := sunk + p[..k];
          }
        }
        w.Write(p, stream);
      }
      stream := stream + p;
    }
    assert pieces[..|pieces|] == pieces;
  }
}
