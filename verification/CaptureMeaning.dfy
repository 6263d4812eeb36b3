/** What capturing keeps of a stream, and when it does not depend on how the reads split it. */
module CaptureMeaning {
  import opened Output
  import opened Capture

  const LONGEST: nat := READ_CHUNK_BYTES * 2

  predicate AreReads(chunks: seq<string>) {
    forall r :: r in chunks ==> 1 <= |r| <= 4096
  }

  lemma {:induction false} ConcatOfConcat(a: seq<string>, b: seq<string>)
    ensures Concat(a + b) == Concat(a) + Concat(b)
    decreases |b|
  {
    if b == [] {
      assert a + b == a;
    } else {
      var n := |b| - 1;
      ConcatOfConcat(a, b[..n]);
      ConcatNext(a + b[..n], b[n]);
      assert (a + b[..n]) + [b[n]] == a + b;
    }
  }

  lemma ConcatNext(a: seq<string>, piece: string)
    ensures Concat(a + [piece]) == Concat(a) + piece
  {
    assert (a + [piece])[..|a|] == a;
  }

  // ---------------------------------------------------------------------------------------------
  // What the pieces of a stream are
  // ---------------------------------------------------------------------------------------------

  /** Each piece but the last is a line; the last is one, or is not empty and has no newline. */
  ghost predicate AreLines(pieces: seq<string>) {
    forall i :: 0 <= i < |pieces| ==>
      IsLine(pieces[i]) || (i == |pieces| - 1 && pieces[i] != "" && '\n' !in pieces[i])
  }

  lemma PiecesAreLines(s: string)
    ensures AreLines(Pieces(s)) && Concat(Pieces(s)) == s
  {
    var r := SplitLines(s);
    SplitMeaning(s);
    ConcatOfConcat(r.lines, [r.tail]);
    ConcatOfOne(r.tail);
    if r.tail == "" {
      assert Pieces(s) == r.lines && Concat(r.lines) + "" == Concat(r.lines);
    }
  }

  /** The pieces a stream should be captured as are the one way to make it up from lines. */
  lemma PiecesExactly(s: string, pieces: seq<string>)
    ensures pieces == Pieces(s) <==> AreLines(pieces) && Concat(pieces) == s
  {
    hide AreLines, Pieces, Concat;
    PiecesAreLines(s);
    if AreLines(pieces) {
      LinesAreSplit(pieces);
    }
  }

  lemma {:induction false} LinesAreSplit(pieces: seq<string>)
    requires AreLines(pieces)
    ensures Pieces(Concat(pieces)) == pieces
  {
    if pieces != [] {
      var first, rest := pieces[0], pieces[1..];
      ConcatOfConcat([first], rest);
      ConcatOfOne(first);
      assert pieces == [first] + rest;
      assert forall i :: 0 <= i < |rest| ==> rest[i] == pieces[i + 1];
      LinesAreSplit(rest);
      if IsLine(first) {
        FirstLine(first, Concat(rest));
      } else {
        NoNewline(first);
        assert rest == [];
      }
    }
  }

  // ---------------------------------------------------------------------------------------------
  // Nothing is lost, and memory is bounded
  // ---------------------------------------------------------------------------------------------

  lemma ConcatOfOne(s: string)
    ensures Concat([s]) == s
  {
    assert [s][..0] == [];
  }

  /** What is pushed and what is pending, as bytes. */
  function Held(c: Captured): string { Concat(c.pieces) + c.pending }

  lemma CutKeeps(pieces: seq<string>, tail: string, k: nat)
    requires k <= |tail|
    ensures Held(Captured(pieces + [tail[..k]], tail[k..])) == Held(Captured(pieces, tail))
  {
    ConcatOfConcat(pieces, [tail[..k]]);
    ConcatOfOne(tail[..k]);
    assert tail == tail[..k] + tail[k..];
  }

  lemma LinesKeep(pieces: seq<string>, whole: string)
    ensures Held(Captured(pieces + SplitLines(whole).lines, SplitLines(whole).tail)) == Concat(pieces) + whole
  {
    SplitMeaning(whole);
    ConcatOfConcat(pieces, SplitLines(whole).lines);
  }

  lemma OneReadKeeps(c: Captured, chunk: string)
    ensures Held(AfterRead(c, chunk)) == Held(c) + chunk
  {
    var r := SplitLines(c.pending + chunk);
    LinesKeep(c.pieces, c.pending + chunk);
    assert Concat(c.pieces) + (c.pending + chunk) == Held(c) + chunk;
    if |r.tail| >= LONGEST {
      CutKeeps(c.pieces + r.lines, r.tail, READ_CHUNK_BYTES);
    }
  }

  /** The pieces pushed and the pending bytes are the bytes read, in order. */
  lemma {:induction false} NothingLost(chunks: seq<string>)
    ensures Held(AfterReads(chunks)) == Concat(chunks)
    ensures Concat(PushedFor(chunks, false)) == Concat(chunks)
    decreases |chunks|
  {
    var c := AfterReads(chunks);
    if chunks != [] {
      var n := |chunks| - 1;
      NothingLost(chunks[..n]);
      OneReadKeeps(AfterReads(chunks[..n]), chunks[n]);
    }
    ConcatOfConcat(c.pieces, [c.pending]);
    ConcatOfOne(c.pending);
  }

  /** Less than two chunks are pending between reads, and no piece reaches three. */
  lemma {:induction false} Bounded(chunks: seq<string>)
    requires AreReads(chunks)
    ensures |AfterReads(chunks).pending| < 8192
    ensures forall p :: p in AfterReads(chunks).pieces ==> 1 <= |p| < 12288
    decreases |chunks|
  {
    if chunks != [] {
      var n := |chunks| - 1;
      var c := AfterReads(chunks[..n]);
      Bounded(chunks[..n]);
      assert chunks[n] in chunks;
      SplitMeaning(c.pending + chunks[n]);
      var r := SplitLines(c.pending + chunks[n]);
      forall l | l in r.lines ensures |l| <= |c.pending + chunks[n]| {
        PieceIsNoLonger(r.lines, l);
      }
    }
  }

  lemma {:induction false} PieceIsNoLonger(pieces: seq<string>, piece: string)
    requires piece in pieces
    ensures |piece| <= |Concat(pieces)|
    decreases |pieces|
  {
    if piece != pieces[|pieces| - 1] {
      PieceIsNoLonger(pieces[..|pieces| - 1], piece);
    }
  }

  /** Every piece pushed before the end of the stream is a line, or 4096 bytes without newline cut off a
      longer one. */
  lemma {:induction false} CutsAreChunks(chunks: seq<string>)
    ensures '\n' !in AfterReads(chunks).pending
    ensures forall p :: p in AfterReads(chunks).pieces ==> IsLine(p) || (|p| == 4096 && '\n' !in p)
    decreases |chunks|
  {
    if chunks != [] {
      var n := |chunks| - 1;
      CutsAreChunks(chunks[..n]);
      SplitMeaning(AfterReads(chunks[..n]).pending + chunks[n]);
    }
  }

  /** A read error loses the pending bytes and nothing else; the end of the stream loses none. */
  lemma FailureLosesPending(chunks: seq<string>)
    ensures Concat(PushedFor(chunks, true)) + AfterReads(chunks).pending == Concat(chunks)
    ensures Uncut(chunks) ==> PushedFor(chunks, true) == SplitLines(Concat(chunks)).lines
  {
    NothingLost(chunks);
    if Uncut(chunks) {
      UncutIsSplit(chunks);
    }
  }

  // ---------------------------------------------------------------------------------------------
  // Chunk independence
  // ---------------------------------------------------------------------------------------------

  function TailAfter(chunks: seq<string>, k: nat): string
    requires k <= |chunks|
  {
    SplitLines(Concat(chunks[..k])).tail
  }

  /** No read ends with a long unterminated line. */
  predicate Uncut(chunks: seq<string>) {
    forall k :: 0 <= k <= |chunks| ==> |TailAfter(chunks, k)| < LONGEST
  }

  lemma UncutStep(chunks: seq<string>)
    requires chunks != []
    ensures Uncut(chunks) <==> Uncut(chunks[..|chunks| - 1]) && |SplitLines(Concat(chunks)).tail| < LONGEST
  {
    var n := |chunks| - 1;
    assert chunks[..n + 1] == chunks;
    forall k | 0 <= k <= n ensures TailAfter(chunks[..n], k) == TailAfter(chunks, k) {
      assert chunks[..n][..k] == chunks[..k];
    }
    if Uncut(chunks) {
      assert |TailAfter(chunks, n + 1)| < LONGEST;
    }
  }

  lemma {:induction false} UncutIsSplit(chunks: seq<string>)
    requires Uncut(chunks)
    ensures AfterReads(chunks) == Captured(SplitLines(Concat(chunks)).lines, SplitLines(Concat(chunks)).tail)
    decreases |chunks|
  {
    if chunks != [] {
      var n := |chunks| - 1;
      UncutStep(chunks);
      UncutIsSplit(chunks[..n]);
      SplitOfConcat(Concat(chunks[..n]), chunks[n]);
    }
  }

  /** A piece without newline that is not the last one. */
  predicate HasCut(pieces: seq<string>, more: bool) {
    exists i :: 0 <= i < |pieces| && '\n' !in pieces[i] && (i + 1 < |pieces| || more)
  }

  lemma PiecesHaveNoCut(s: string)
    ensures !HasCut(Pieces(s), false)
  {
    SplitMeaning(s);
    var r := SplitLines(s);
    forall i | 0 <= i < |r.lines| ensures '\n' in Pieces(s)[i] {
      assert Pieces(s)[i] == r.lines[i] && r.lines[i] in r.lines;
    }
  }

  /** A cut stays a cut. */
  lemma CutStays(c: Captured, chunk: string)
    requires HasCut(c.pieces, c.pending != "")
    ensures HasCut(AfterRead(c, chunk).pieces, AfterRead(c, chunk).pending != "")
  {
    var i :| 0 <= i < |c.pieces| && '\n' !in c.pieces[i] && (i + 1 < |c.pieces| || c.pending != "");
    SplitMeaning(c.pending + chunk);
    assert AfterRead(c, chunk).pieces[i] == c.pieces[i];
  }

  lemma {:induction false} CutShows(chunks: seq<string>)
    requires !Uncut(chunks)
    ensures HasCut(AfterReads(chunks).pieces, AfterReads(chunks).pending != "")
    decreases |chunks|
  {
    assert Concat([]) == "";
    assert chunks != [];
    UncutStep(chunks);
    var n := |chunks| - 1;
    if !Uncut(chunks[..n]) {
      CutShows(chunks[..n]);
      CutStays(AfterReads(chunks[..n]), chunks[n]);
    } else {
      UncutIsSplit(chunks[..n]);
      SplitOfConcat(Concat(chunks[..n]), chunks[n]);
      FirstCut(AfterReads(chunks[..n]), chunks[n]);
    }
  }

  lemma FirstCut(c: Captured, chunk: string)
    requires |SplitLines(c.pending + chunk).tail| >= LONGEST
    ensures HasCut(AfterRead(c, chunk).pieces, AfterRead(c, chunk).pending != "")
  {
    var r := SplitLines(c.pending + chunk);
    SplitMeaning(c.pending + chunk);
    assert AfterRead(c, chunk).pieces[|c.pieces + r.lines|] == r.tail[..READ_CHUNK_BYTES];
  }

  /** For given reads: the pieces pushed are the lines of the stream if and only if no read ended
      with an unterminated line of two chunks. */
  lemma CapturesLinesExactly(chunks: seq<string>)
    ensures PushedFor(chunks, false) == Pieces(Concat(chunks)) <==> Uncut(chunks)
  {
    if Uncut(chunks) {
      UncutIsSplit(chunks);
    } else {
      CutShows(chunks);
      PiecesHaveNoCut(Concat(chunks));
      var c := AfterReads(chunks);
      var i :| 0 <= i < |c.pieces| && '\n' !in c.pieces[i] && (i + 1 < |c.pieces| || c.pending != "");
      assert PushedFor(chunks, false)[i] == c.pieces[i];
      assert HasCut(PushedFor(chunks, false), false);
    }
  }

  // ---------------------------------------------------------------------------------------------
  // The streams that are captured as their lines however they are read
  // ---------------------------------------------------------------------------------------------

  predicate ShortLines(s: string) {
    (forall l :: l in SplitLines(s).lines ==> |l| <= 8192) && |SplitLines(s).tail| < 8192
  }

  ghost predicate IsChunking(chunks: seq<string>, stream: string) {
    AreReads(chunks) && Concat(chunks) == stream
  }

  /** A long tail ends up in a long line or stays in the tail. */
  lemma {:induction false} LongTailGrows(s: string, k: nat)
    requires k <= |s| && |SplitLines(s[..k]).tail| >= LONGEST
    ensures !ShortLines(s)
    decreases |s|
  {
    if k == |s| {
      assert s[..k] == s;
    } else {
      var n := |s| - 1;
      assert s[..n][..k] == s[..k];
      LongTailGrows(s[..n], k);
      var before := SplitLines(s[..n]);
      if |before.tail| >= LONGEST {
        assert s[n] == '\n' ==> SplitLines(s).lines[|before.lines|] == before.tail + [s[n]];
      } else {
        var l :| l in before.lines && |l| > LONGEST;
        assert l in SplitLines(s).lines;
      }
    }
  }

  /** A long line was a long tail once. */
  lemma {:induction false} LongLineWasTail(s: string) returns (k: nat)
    requires !ShortLines(s)
    ensures k <= |s| && |SplitLines(s[..k]).tail| >= LONGEST
    decreases |s|
  {
    if |SplitLines(s).tail| >= LONGEST {
      k := |s|;
      assert s[..k] == s;
    } else {
      var n := |s| - 1;
      var before := SplitLines(s[..n]);
      if |before.tail| >= LONGEST {
        k := n;
      } else {
        var l :| l in SplitLines(s).lines && |l| > LONGEST;
        assert l in before.lines;
        k := LongLineWasTail(s[..n]);
        assert s[..n][..k] == s[..k];
      }
    }
  }

  function Bytes(s: string): (r: seq<string>)
    ensures |r| == |s| && AreReads(r)
  {
    seq(|s|, i requires 0 <= i < |s| => [s[i]])
  }

  lemma {:induction false} BytesConcat(s: string)
    ensures Concat(Bytes(s)) == s
    decreases |s|
  {
    if s != "" {
      var n := |s| - 1;
      BytesConcat(s[..n]);
      assert Bytes(s)[..n] == Bytes(s[..n]);
      assert s == s[..n] + [s[n]];
    }
  }

  lemma {:induction false} ConcatPrefix(chunks: seq<string>, k: nat)
    requires k <= |chunks|
    ensures |Concat(chunks[..k])| <= |Concat(chunks)|
    ensures Concat(chunks)[..|Concat(chunks[..k])|] == Concat(chunks[..k])
  {
    ConcatOfConcat(chunks[..k], chunks[k..]);
    assert chunks == chunks[..k] + chunks[k..];
  }

  /** A stream is captured as its lines, however the reads split it, if and only if every line,
      terminator included, is at most 8192 bytes and any unterminated tail is under 8192. */
  lemma ChunkIndependenceExactly(stream: string)
    ensures (forall chunks :: IsChunking(chunks, stream) ==> PushedFor(chunks, false) == Pieces(stream)) <==> ShortLines(stream)
  {
    if ShortLines(stream) {
      forall chunks | IsChunking(chunks, stream) ensures PushedFor(chunks, false) == Pieces(stream) {
        ShortIsUncut(chunks);
        CapturesLinesExactly(chunks);
      }
    } else {
      var k := LongLineWasTail(stream);
      var chunks := Bytes(stream);
      BytesConcat(stream);
      BytesConcat(stream[..k]);
      assert chunks[..k] == Bytes(stream[..k]);
      assert |TailAfter(chunks, k)| >= LONGEST;
      CapturesLinesExactly(chunks);
      assert IsChunking(chunks, stream);
    }
  }

  lemma ShortIsUncut(chunks: seq<string>)
    requires ShortLines(Concat(chunks))
    ensures Uncut(chunks)
  {
    forall k | 0 <= k <= |chunks| ensures |TailAfter(chunks, k)| < LONGEST {
      ConcatPrefix(chunks, k);
      if |TailAfter(chunks, k)| >= LONGEST {
        LongTailGrows(Concat(chunks), |Concat(chunks[..k])|);
      }
    }
  }

  // ---------------------------------------------------------------------------------------------
  // The snapshot shows the lines
  // ---------------------------------------------------------------------------------------------

  /** What `from_utf8_lossy` does with newlines, which never take part in a longer sequence. */
  ghost predicate KeepsNewlines(lossy: string -> string) {
    && (forall s :: '\n' !in s ==> '\n' !in lossy(s))
    && (forall s: string :: lossy(s + "\n") == lossy(s) + "\n")
  }

  predicate IsPiece(piece: string) { '\n' !in piece || IsLine(piece) }

  lemma {:induction false} PushedArePieces(chunks: seq<string>)
    ensures '\n' !in AfterReads(chunks).pending
    ensures forall p :: p in AfterReads(chunks).pieces ==> IsPiece(p)
    ensures forall p :: p in PushedFor(chunks, false) + PushedFor(chunks, true) ==> IsPiece(p)
    decreases |chunks|
  {
    if chunks != [] {
      var n := |chunks| - 1;
      PushedArePieces(chunks[..n]);
      SplitMeaning(AfterReads(chunks[..n]).pending + chunks[n]);
    }
  }

  lemma PieceMakesLine(source: string, piece: string, lossy: string -> string)
    requires IsPiece(piece) && '\n' !in source && KeepsNewlines(lossy)
    ensures '\n' !in LineOf(source, piece, lossy)
  {
    var last := LastBytes(piece, MaximumPayload(source));
    if '\n' in last {
      var t := last[..|last| - 1];
      assert last == t + "\n" && '\n' !in t;
      assert lossy(last) == lossy(t) + "\n";
      var text := TrimEnd(lossy(last));
      assert lossy(last)[|lossy(last)| - 1] == '\n';
      assert |text| < |lossy(last)|;
      assert text == lossy(t)[..|text|];
    }
    assert '\n' !in TrimEnd(lossy(last));
  }

  /** Whatever a stream holds, no line logged for it holds a newline, so the lines can be read off
      a snapshot. */
  lemma CapturedLinesAreLines(chunks: seq<string>, failed: bool, source: string, lossy: string -> string)
    requires '\n' !in source && KeepsNewlines(lossy)
    ensures forall l :: l in LinesOf(source, PushedFor(chunks, failed), lossy) ==> '\n' !in l
  {
    var pieces := PushedFor(chunks, failed);
    PushedArePieces(chunks);
    forall i | 0 <= i < |pieces| ensures '\n' !in LinesOf(source, pieces, lossy)[i] {
      assert pieces[i] in PushedFor(chunks, false) + PushedFor(chunks, true);
      PieceMakesLine(source, pieces[i], lossy);
    }
  }

  function Terminated(lines: seq<string>): seq<string> {
    seq(|lines|, i requires 0 <= i < |lines| => lines[i] + "\n")
  }

  lemma {:induction false} SnapshotShowsLines(lines: seq<string>)
    requires lines != [] && forall l :: l in lines ==> '\n' !in l
    ensures SplitLines(Join(lines) + "\n") == Split(Terminated(lines), "")
  {
    var line := lines[0] + "\n";
    assert line[..|line| - 1] == lines[0];
    if |lines| == 1 {
      FirstLine(line, "");
      assert Join(lines) + "\n" == line + "";
      assert Terminated(lines) == [line];
    } else {
      SnapshotShowsLines(lines[1..]);
      FirstLine(line, Join(lines[1..]) + "\n");
      assert Terminated(lines) == [line] + Terminated(lines[1..]);
      assert Join(lines) + "\n" == line + (Join(lines[1..]) + "\n");
    }
  }

  lemma RecentAreLines(history: seq<string>)
    requires forall l :: l in history ==> '\n' !in l
    ensures forall l :: l in Recent(history) ==> '\n' !in l
  {
    RecentMeaning(history, []);
    var recent := Recent(history);
    forall i | 0 <= i < |recent| ensures '\n' !in recent[i] {
      assert recent[i] == history[|history| - |recent| + i];
    }
  }

  /** After any stream is captured into a log of lines, a snapshot shows the last of them line by
      line. */
  lemma SnapshotAfterCapture(history: seq<string>, chunks: seq<string>, failed: bool, source: string, lossy: string -> string)
    requires '\n' !in source && KeepsNewlines(lossy)
    requires forall l :: l in history ==> '\n' !in l
    ensures var after := history + LinesOf(source, PushedFor(chunks, failed), lossy);
            && (forall l :: l in after ==> '\n' !in l)
            && (Recent(after) != [] ==> SplitLines(Join(Recent(after)) + "\n") == Split(Terminated(Recent(after)), ""))
  {
    CapturedLinesAreLines(chunks, failed, source, lossy);
    var after := history + LinesOf(source, PushedFor(chunks, failed), lossy);
    hide Recent, PushedFor, LineOf, Join;
    RecentAreLines(after);
    if Recent(after) != [] {
      SnapshotShowsLines(Recent(after));
    }
  }

  /** Capturing a child's stream and showing it: the lines shown are the most recent ones logged. */
  method CaptureAndShow(chunks: seq<string>, failed: bool, source: string, lossy: string -> string) returns (shown: string)
    requires AreReads(chunks) && |source| <= STR_MAX
    requires '\n' !in source && KeepsNewlines(lossy)
    ensures var lines := Recent(LinesOf(source, PushedFor(chunks, failed), lossy));
            if lines == [] then shown == "" else SplitLines(shown + "\n") == Split(Terminated(lines), "")
  {
    var output := new RecentOutput();
    var _ := CaptureStream(chunks, failed, source, lossy, output);
    shown := output.Snapshot();
    SnapshotAfterCapture([], chunks, failed, source, lossy);
    var logged := LinesOf(source, PushedFor(chunks, failed), lossy);
    assert [] + logged == logged;
  }
}
