/** One step of a resident kernel: reading response frames until this step's terminal frame. */
module KernelExec {
  import opened ByteOrder
  import opened CappedOutput

  type StepId = nat

  datatype Frame =
    | Stream(id: StepId, stderr: bool, data: Bytes)
    | Result(id: StepId, ok: bool, durationMs: nat, truncated: bool)
    | Fatal(id: StepId, error: Bytes)
    | Other(id: StepId)                       // ready, pong, anything else

  // A line of the attach stream: a frame, or bytes that do not parse.
  datatype Line = Noise | Json(frame: Frame)

  datatype Output = Output(
    stdout: Bytes, stderr: Bytes, durationMs: nat, truncated: bool, timedOut: bool, exitCode: int)

  datatype Outcome =
    | Finished(out: Output)
    | StreamClosed(out: Output, failed: bool) // end of stream; not an error to the caller once the step timed out
    | KernelFatal(out: Output, error: Bytes)
    | WriteFailed
    | AlreadyDead

  // ------------------------------------------------------------------ the step's own frames

  predicate Terminal(f: Frame) {
    f.Result? || f.Fatal?
  }

  predicate Ended(own: seq<Frame>) {
    own != [] && Terminal(own[|own| - 1])
  }

  predicate Relevant(l: Line, id: StepId) {
    l.Json? && l.frame.id == id && !l.frame.Other?
  }

  // This step's stream frames up to and including its first terminal one.
  function Own(lines: seq<Line>, id: StepId): seq<Frame> {
    if lines == [] then []
    else
      var front, last := Own(lines[..|lines| - 1], id), lines[|lines| - 1];
      if Ended(front) || !Relevant(last, id) then front else front + [last.frame]
  }

  function Chunks(own: seq<Frame>, stderr: bool): seq<Bytes> {
    if own == [] then []
    else
      var front, last := Chunks(own[..|own| - 1], stderr), own[|own| - 1];
      if last.Stream? && last.stderr == stderr then front + [last.data] else front
  }

  // Some chunk arrived at a full buffer or did not fit whole.
  predicate CutShort(chunks: seq<Bytes>, limit: int) {
    chunks != []
    && (|| CutShort(chunks[..|chunks| - 1], limit)
        || |Concat(chunks[..|chunks| - 1])| >= limit
        || |Concat(chunks)| > limit)
  }

  // Chunks are forwarded whole until one is cut short, then not at all.
  function Forwarded(chunks: seq<Bytes>, limit: int): Bytes {
    if chunks == [] then []
    else if CutShort(chunks, limit) then Forwarded(chunks[..|chunks| - 1], limit)
    else Concat(chunks)
  }

  // The deadline flag as the end of a step reads it, twice: it may be raised in between.
  datatype Deadline = Deadline(first: bool, second: bool)

  function Judge(own: seq<Frame>, limit: int, late: Deadline, elapsedMs: nat): Outcome {
    var out, err := Chunks(own, false), Chunks(own, true);
    var stdout, stderr := Head(Concat(out), limit), Head(Concat(err), limit);
    if !Ended(own) then
      StreamClosed(Output(stdout, stderr, elapsedMs, false, late.first, 137), !late.second)
    else
      match own[|own| - 1]
      case Result(_, ok, ms, truncated) =>
        Finished(Output(stdout, stderr, if ms == 0 then elapsedMs else ms,
                        truncated || CutShort(out, limit) || CutShort(err, limit), late.first,
                        if late.second then 137 else if ok then 0 else 1))
      case Fatal(_, error) =>
        KernelFatal(Output([], stdout + error, elapsedMs, false, false, 1), error)
      case _ => AlreadyDead
  }

  predicate EndsWithResult(own: seq<Frame>) {
    own != [] && own[|own| - 1].Result?
  }

  predicate EndsWithFatal(own: seq<Frame>) {
    own != [] && own[|own| - 1].Fatal?
  }

  function LastOf(own: seq<Frame>): Frame
    requires own != []
  {
    own[|own| - 1]
  }

  // The first `limit` bytes of a stream, or all of it.
  predicate IsHead(buf: Bytes, stream: Bytes, limit: int) {
    buf <= stream && |buf| == if limit < 0 then 0 else if |stream| < limit then |stream| else limit
  }

  // The stream is too long, or an empty chunk came when it was exactly long enough.
  predicate Cut(chunks: seq<Bytes>, limit: int) {
    chunks != [] && (|Concat(chunks)| > limit || (|Concat(chunks)| == limit && chunks[|chunks| - 1] == []))
  }

  lemma {:induction false} HeadIs(stream: Bytes, limit: int)
    ensures IsHead(Head(stream, limit), stream, limit)
  {
  }

  lemma {:induction false} JudgeMeans(own: seq<Frame>, limit: int, late: Deadline, elapsedMs: nat, j: Outcome)
    requires j == Judge(own, limit, late, elapsedMs)
    ensures !j.AlreadyDead? && !j.WriteFailed?
    ensures j.Finished? <==> EndsWithResult(own)
    ensures j.KernelFatal? <==> EndsWithFatal(own)
    ensures j.Finished? || j.StreamClosed? ==>
              && IsHead(j.out.stdout, Concat(Chunks(own, false)), limit)
              && IsHead(j.out.stderr, Concat(Chunks(own, true)), limit)
    ensures j.KernelFatal? ==>
              && j.error == LastOf(own).error && j.out.stdout == [] && |j.out.stderr| >= |j.error|
              && j.out.stderr[|j.out.stderr| - |j.error|..] == j.error
              && IsHead(j.out.stderr[..|j.out.stderr| - |j.error|], Concat(Chunks(own, false)), limit)
    ensures j.Finished? ==>
              && (j.out.exitCode == 0 <==> LastOf(own).ok && !late.second)
              && (j.out.exitCode == 137 <==> late.second) && j.out.exitCode in {0, 1, 137}
              && j.out.timedOut == late.first
              && (j.out.truncated <==> LastOf(own).truncated || Cut(Chunks(own, false), limit)
                                       || Cut(Chunks(own, true), limit))
              && (LastOf(own).durationMs > 0 ==> j.out.durationMs == LastOf(own).durationMs)
              && (LastOf(own).durationMs == 0 ==> j.out.durationMs == elapsedMs)
    ensures j.StreamClosed? ==>
              && j.out.exitCode == 137 && j.out.timedOut == late.first && j.failed == !late.second
              && j.out.durationMs == elapsedMs && !j.out.truncated
    ensures j.KernelFatal? ==>
              j.out.exitCode == 1 && j.out.durationMs == elapsedMs && !j.out.truncated && !j.out.timedOut
  {
    CutShortIff(Chunks(own, false), limit);
    CutShortIff(Chunks(own, true), limit);
    HeadIs(Concat(Chunks(own, false)), limit);
    HeadIs(Concat(Chunks(own, true)), limit);
    if j.KernelFatal? {
      var head := Head(Concat(Chunks(own, false)), limit);
      assert (head + j.error)[|head|..] == j.error && (head + j.error)[..|head|] == head;
    }
  }

  // The buffer and the sink of one of the step's two streams, after these chunks.
  ghost predicate Tracks(w: CapWriter, sink: Bytes, chunks: seq<Bytes>)
    reads w
  {
    && w.Saw(Concat(chunks)) && (w.truncated <==> CutShort(chunks, w.limit))
    && sink == Forwarded(chunks, w.limit)
  }

  // Buffer a chunk, then hand the sink what clip lets through.
  method Feed(w: CapWriter, sink: Bytes, data: Bytes, ghost chunks: seq<Bytes>) returns (sink': Bytes)
    requires Tracks(w, sink, chunks)
    modifies w
    ensures Tracks(w, sink', chunks + [data])
  {
    ChunkAppended(chunks, data);
    SinkIsPrefix(chunks, w.limit);
    w.Write(data, Concat(chunks));
    sink' := sink + (if w.truncated then [] else data);
  }

  // Read lines until this step's terminal frame, if it comes.
  method ReadFrames(id: StepId, lines: seq<Line>, out: CapWriter, errb: CapWriter)
    returns (ended: bool, last: Frame, sinkOut: Bytes, sinkErr: Bytes)
    requires out != errb && Tracks(out, [], []) && Tracks(errb, [], [])
    modifies out, errb
    ensures Tracks(out, sinkOut, Chunks(Own(lines, id), false))
    ensures Tracks(errb, sinkErr, Chunks(Own(lines, id), true))
    ensures ended == Ended(Own(lines, id))
    ensures ended ==> last == Own(lines, id)[|Own(lines, id)| - 1]
  {
    sinkOut, sinkErr, ended, last := [], [], false, Other(id);
    ghost var own := [];
    for i := 0 to |lines|
      invariant own == Own(lines[..i], id) && !Ended(own)
      invariant Tracks(out, sinkOut, Chunks(own, false)) && Tracks(errb, sinkErr, Chunks(own, true))
    {
      var line := lines[i];
      assert lines[..i + 1][..i] == lines[..i];
      if line.Noise? || line.frame.id != id || line.frame.Other? {
        continue;
      }
      assert (own + [line.frame])[..|own|] == own;
      if Terminal(line.frame) {
        OwnStops(lines, id, i + 1);
        return true, line.frame, sinkOut, sinkErr;
      }
      if line.frame.stderr {
        sinkErr := Feed(errb, sinkErr, line.frame.data, Chunks(own, true));
      } else {
        sinkOut := Feed(out, sinkOut, line.frame.data, Chunks(own, false));
      }
      own := own + [line.frame];
    }
    assert lines[..|lines|] == lines;
  }

  class Kernel {
    var dead: bool
    var lastUsed: int

    /** The answer, the sinks and the kernel's fate depend on this step's own frames alone. `lines`
        is everything the attach stream will still deliver before it closes. */
    method Exec(id: StepId, lines: seq<Line>, writeOk: bool, limit: int, late: Deadline, elapsedMs: nat, now: int)
      returns (r: Outcome, sinkOut: Bytes, sinkErr: Bytes)
      modifies this
      ensures r == if old(dead) then AlreadyDead
                   else if !writeOk then WriteFailed
                   else Judge(Own(lines, id), limit, late, elapsedMs)
      // Which way the step ended is its first terminal frame, or the lack of one.
      ensures r.AlreadyDead? <==> old(dead)
      ensures r.WriteFailed? <==> !old(dead) && !writeOk
      ensures r.Finished? <==> !old(dead) && writeOk && EndsWithResult(Own(lines, id))
      ensures r.KernelFatal? <==> !old(dead) && writeOk && EndsWithFatal(Own(lines, id))
      // The output is the first `limit` bytes of each stream; a fatal frame reports stdout as stderr.
      ensures r.Finished? || r.StreamClosed? ==>
                && IsHead(r.out.stdout, Concat(Chunks(Own(lines, id), false)), limit)
                && IsHead(r.out.stderr, Concat(Chunks(Own(lines, id), true)), limit)
      ensures r.KernelFatal? ==>
                && r.error == LastOf(Own(lines, id)).error && r.out.stdout == [] && |r.out.stderr| >= |r.error|
                && r.out.stderr[|r.out.stderr| - |r.error|..] == r.error
                && IsHead(r.out.stderr[..|r.out.stderr| - |r.error|], Concat(Chunks(Own(lines, id), false)), limit)
      // The verdict on the step.
      ensures r.Finished? ==>
                && (r.out.exitCode == 0 <==> LastOf(Own(lines, id)).ok && !late.second)
                && (r.out.exitCode == 137 <==> late.second) && r.out.exitCode in {0, 1, 137}
                && r.out.timedOut == late.first
                && (r.out.truncated <==> LastOf(Own(lines, id)).truncated || Cut(Chunks(Own(lines, id), false), limit)
                                         || Cut(Chunks(Own(lines, id), true), limit))
                && (LastOf(Own(lines, id)).durationMs > 0 ==> r.out.durationMs == LastOf(Own(lines, id)).durationMs)
                && (LastOf(Own(lines, id)).durationMs == 0 ==> r.out.durationMs == elapsedMs)
      ensures r.StreamClosed? ==>
                && r.out.exitCode == 137 && r.out.timedOut == late.first && r.failed == !late.second
                && r.out.durationMs == elapsedMs && !r.out.truncated
      ensures r.KernelFatal? ==>
                r.out.exitCode == 1 && r.out.durationMs == elapsedMs && !r.out.truncated && !r.out.timedOut
      ensures dead <==> !r.Finished?
      ensures lastUsed == if r.Finished? then now else old(lastUsed)
      ensures !old(dead) && writeOk ==>
                (&& sinkOut == Forwarded(Chunks(Own(lines, id), false), limit)
                 && sinkErr == Forwarded(Chunks(Own(lines, id), true), limit))
    {
      if !dead && writeOk {
        JudgeMeans(Own(lines, id), limit, late, elapsedMs, Judge(Own(lines, id), limit, late, elapsedMs));
      }
      r, sinkOut, sinkErr := RunStep(id, lines, writeOk, limit, late, elapsedMs, now);
    }

    method RunStep(id: StepId, lines: seq<Line>, writeOk: bool, limit: int, late: Deadline, elapsedMs: nat, now: int)
      returns (r: Outcome, sinkOut: Bytes, sinkErr: Bytes)
      modifies this
      ensures r == if old(dead) then AlreadyDead
                   else if !writeOk then WriteFailed
                   else Judge(Own(lines, id), limit, late, elapsedMs)
      ensures dead <==> !r.Finished?
      ensures lastUsed == if r.Finished? then now else old(lastUsed)
      ensures !old(dead) && writeOk ==>
                (&& sinkOut == Forwarded(Chunks(Own(lines, id), false), limit)
                 && sinkErr == Forwarded(Chunks(Own(lines, id), true), limit))
    {
      sinkOut, sinkErr := [], [];
      if dead {
        return AlreadyDead, sinkOut, sinkErr;
      }
      if !writeOk {
        dead := true;
        return WriteFailed, sinkOut, sinkErr;
      }
      var out := new CapWriter(limit);
      var errb := new CapWriter(limit);
      var ended, last;
      ended, last, sinkOut, sinkErr := ReadFrames(id, lines, out, errb);
      if !ended {
        dead := true;
        r := StreamClosed(Output(out.buf, errb.buf, elapsedMs, false, late.first, 137), !late.second);
      } else if last.Result? {
        lastUsed := now;
        r := Finished(Output(out.buf, errb.buf, if last.durationMs == 0 then elapsedMs else last.durationMs,
                             last.truncated || out.truncated || errb.truncated, late.first,
                             if late.second then 137 else if last.ok then 0 else 1));
      } else {
        dead := true;
        r := KernelFatal(Output([], out.buf + last.error, elapsedMs, false, false, 1), last.error);
      }
    }
  }

  lemma ChunkAppended(chunks: seq<Bytes>, data: Bytes)
    ensures (chunks + [data])[..|chunks|] == chunks
    ensures Concat(chunks + [data]) == Concat(chunks) + data
  {
    assert (chunks + [data])[..|chunks|] == chunks;
  }

  // Nothing after the first terminal frame matters.
  lemma {:induction false} OwnStops(lines: seq<Line>, id: StepId, i: nat)
    requires i <= |lines| && Ended(Own(lines[..i], id))
    ensures Own(lines, id) == Own(lines[..i], id)
    decreases |lines|
  {
    if i < |lines| {
      assert lines[..|lines| - 1][..i] == lines[..i];
      OwnStops(lines[..|lines| - 1], id, i);
    } else {
      assert lines[..i] == lines;
    }
  }

  /** Noise, and frames that carry another step's id or none, forged or stale, change nothing wherever
      they appear. */
  lemma {:induction false} ForeignLinesAreIgnored(a: seq<Line>, x: Line, b: seq<Line>, id: StepId)
    requires x.Noise? || x.frame.id != id || x.frame.Other?
    ensures Own(a + [x] + b, id) == Own(a + b, id)
    decreases |b|
  {
    if b == [] {
      assert a + [x] + b == a + [x] && (a + [x])[..|a|] == a && a + b == a;
    } else {
      var front, last := b[..|b| - 1], b[|b| - 1];
      ForeignLinesAreIgnored(a, x, front, id);
      assert (a + [x] + b)[..|a| + |b|] == a + [x] + front;
      assert (a + b)[..|a| + |b| - 1] == a + front;
    }
  }

  // Every frame of this step that the stream carries, terminal or not.
  function Mine(lines: seq<Line>, id: StepId): seq<Frame> {
    if lines == [] then []
    else if Relevant(lines[0], id) then [lines[0].frame] + Mine(lines[1..], id)
    else Mine(lines[1..], id)
  }

  lemma {:induction false} MineSplits(a: seq<Line>, b: seq<Line>, id: StepId)
    ensures Mine(a + b, id) == Mine(a, id) + Mine(b, id)
    decreases |a|
  {
    if a == [] {
      assert a + b == b;
    } else {
      MineSplits(a[1..], b, id);
      assert (a + b)[1..] == a[1..] + b;
    }
  }

  // What one line adds to a step's frames, and what one frame adds to its streams.
  lemma {:induction false} OneLine(f: Frame, id: StepId, own: seq<Frame>, stderr: bool)
    ensures Mine([Noise], id) == []
    ensures Mine([Json(f)], id) == if f.id == id && (f.Stream? || f.Result? || f.Fatal?) then [f] else []
    ensures Chunks(own + [f], stderr)
         == Chunks(own, stderr) + (if f.Stream? && f.stderr == stderr then [f.data] else [])
  {
    assert (own + [f])[..|own|] == own;
    assert Mine([Json(f)][1..], id) == [] && Mine([Noise][1..], id) == [];
  }

  /** The frames honoured are this step's frames, in order and complete up to the first terminal
      one; if none comes, all of them. */
  lemma {:induction false} OwnIsMineCut(lines: seq<Line>, id: StepId)
    ensures Own(lines, id) <= Mine(lines, id)
    ensures forall k :: 0 <= k < |Own(lines, id)| - 1 ==> !Terminal(Own(lines, id)[k])
    ensures !Ended(Own(lines, id)) ==> Own(lines, id) == Mine(lines, id)
    decreases |lines|
  {
    if lines != [] {
      var front, last := lines[..|lines| - 1], lines[|lines| - 1];
      OwnIsMineCut(front, id);
      MineSplits(front, [last], id);
      assert front + [last] == lines;
    }
  }

  /** Two streams with the same frames of this step are the same to it, whatever else they carry. */
  lemma {:induction false} OnlyOwnFramesMatter(a: seq<Line>, b: seq<Line>, id: StepId)
    requires Mine(a, id) == Mine(b, id)
    ensures Own(a, id) == Own(b, id)
  {
    OwnIsMineCut(a, id);
    OwnIsMineCut(b, id);
    NotShorter(Own(a, id), Own(b, id), Mine(a, id));
    NotShorter(Own(b, id), Own(a, id), Mine(a, id));
  }

  lemma NotShorter(x: seq<Frame>, y: seq<Frame>, all: seq<Frame>)
    requires x <= all && y <= all
    requires forall k :: 0 <= k < |y| - 1 ==> !Terminal(y[k])
    requires !Ended(x) ==> x == all
    ensures |y| <= |x|
  {
    assert forall k :: 0 <= k < |x| && k < |y| ==> x[k] == all[k] == y[k];
  }

  // ------------------------------------------------------------------ the live sink

  /** The sink is always given a prefix of what the buffer keeps, and all of it if nothing was cut. */
  lemma {:induction false} SinkIsPrefix(chunks: seq<Bytes>, limit: int)
    ensures Forwarded(chunks, limit) <= Head(Concat(chunks), limit)
    ensures !CutShort(chunks, limit) ==> Forwarded(chunks, limit) == Concat(chunks) == Head(Concat(chunks), limit)
    decreases |chunks|
  {
    if chunks != [] {
      var front := chunks[..|chunks| - 1];
      SinkIsPrefix(front, limit);
      assert Concat(chunks) == Concat(front) + chunks[|chunks| - 1];
      HeadGrows(Concat(front), chunks[|chunks| - 1], limit);
    }
  }

  // The sink only ever grows, and has everything as long as everything fits.
  lemma {:induction false} SinkGrows(chunks: seq<Bytes>, n: nat, limit: int)
    requires n <= |chunks|
    ensures Forwarded(chunks[..n], limit) <= Forwarded(chunks, limit)
    decreases |chunks|
  {
    if n == |chunks| {
      assert chunks[..n] == chunks;
    } else {
      var front := chunks[..|chunks| - 1];
      SinkGrows(front, n, limit);
      assert front[..n] == chunks[..n];
      SinkIsPrefix(front, limit);
      assert Concat(front) <= Concat(chunks);
      assert Head(Concat(front), limit) <= Concat(front);
    }
  }

  lemma {:induction false} SinkHasWhatFits(chunks: seq<Bytes>, limit: int)
    requires |Concat(chunks)| <= Cap(limit)
    ensures Forwarded(chunks, limit) == Concat(chunks)
    decreases |chunks|
  {
    if chunks != [] {
      var front, last := chunks[..|chunks| - 1], chunks[|chunks| - 1];
      assert Concat(chunks) == Concat(front) + last;
      SinkHasWhatFits(front, limit);
      CutShortIff(chunks, limit);
    }
  }

  // What the sink has is some number of whole chunks.
  lemma {:induction false} SinkIsWholeChunks(chunks: seq<Bytes>, limit: int) returns (n: nat)
    ensures n <= |chunks| && Forwarded(chunks, limit) == Concat(chunks[..n])
    decreases |chunks|
  {
    if chunks == [] || !CutShort(chunks, limit) {
      n := |chunks|;
      assert chunks[..n] == chunks;
    } else {
      n := SinkIsWholeChunks(chunks[..|chunks| - 1], limit);
      assert chunks[..|chunks| - 1][..n] == chunks[..n];
    }
  }

  // The limit falls between two chunks.
  predicate CutsCleanly(chunks: seq<Bytes>, limit: int) {
    exists n :: 0 <= n <= |chunks| && |Concat(chunks[..n])| == Cap(limit)
  }

  /** The sink is given all that the buffer keeps if and only if the stream fits, or the limit falls
      exactly between two of its chunks. */
  lemma {:induction false} SinkIsBufferIff(chunks: seq<Bytes>, limit: int)
    ensures Forwarded(chunks, limit) == Head(Concat(chunks), limit)
            <==> |Concat(chunks)| <= Cap(limit) || CutsCleanly(chunks, limit)
  {
    SinkIsPrefix(chunks, limit);
    if |Concat(chunks)| <= Cap(limit) {
      SinkHasWhatFits(chunks, limit);
    } else if CutsCleanly(chunks, limit) {
      var n :| 0 <= n <= |chunks| && |Concat(chunks[..n])| == Cap(limit);
      SinkHasWhatFits(chunks[..n], limit);
      SinkGrows(chunks, n, limit);
    } else {
      var n := SinkIsWholeChunks(chunks, limit);
      assert |Concat(chunks[..n])| != Cap(limit);
    }
  }

  lemma HeadGrows(s: Bytes, t: Bytes, limit: int)
    ensures Head(s, limit) <= Head(s + t, limit)
  {
  }

  /** Truncation is flagged when the stream is longer than the limit and in one more case: it is
      exactly as long and its last chunk is empty. */
  lemma {:induction false} CutShortIff(chunks: seq<Bytes>, limit: int)
    ensures CutShort(chunks, limit) <==>
            && chunks != []
            && (|Concat(chunks)| > limit || (|Concat(chunks)| == limit && chunks[|chunks| - 1] == []))
    decreases |chunks|
  {
    if chunks != [] {
      var front, last := chunks[..|chunks| - 1], chunks[|chunks| - 1];
      CutShortIff(front, limit);
      assert Concat(chunks) == Concat(front) + last;
    }
  }
}
