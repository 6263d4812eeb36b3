/** Splitting a child's output into lines, read by read (`capture_stream` in `src/cloudflared.rs`). */
module Capture {
  import opened Wrappers
  import opened Output

  const READ_CHUNK_BYTES: nat := 4096

  // ---------------------------------------------------------------------------------------------
  // Lines of a stream
  // ---------------------------------------------------------------------------------------------

  /** Complete lines with their terminators, and the unterminated rest. */
  datatype Split = Split(lines: seq<string>, tail: string)

  function SplitLines(s: string): Split {
    if s == "" then Split([], "")
    else
      var n := |s| - 1;
      var before := SplitLines(s[..n]);
      if s[n] == '\n' then Split(before.lines + [before.tail + [s[n]]], "")
      else Split(before.lines, before.tail + [s[n]])
  }

  function Concat(pieces: seq<string>): string {
    if pieces == [] then "" else Concat(pieces[..|pieces| - 1]) + pieces[|pieces| - 1]
  }

  predicate IsLine(s: string) {
    s != "" && s[|s| - 1] == '\n' && '\n' !in s[..|s| - 1]
  }

  /** The lines and the tail make up the stream, and each line holds one newline, at its end. */
  lemma {:induction false} SplitMeaning(s: string)
    ensures var r := SplitLines(s);
            && Concat(r.lines) + r.tail == s
            && (forall l :: l in r.lines ==> IsLine(l))
            && '\n' !in r.tail
  {
    if s != "" {
      var n := |s| - 1;
      SplitMeaning(s[..n]);
      var before := SplitLines(s[..n]);
      assert s == s[..n] + [s[n]];
      if s[n] == '\n' {
        var line := before.tail + [s[n]];
        assert line[..|line| - 1] == before.tail;
        assert (before.lines + [line])[..|before.lines|] == before.lines;
      }
    }
  }

  /** Splitting goes on from the tail. */
  lemma {:induction false} SplitOfConcat(a: string, b: string)
    ensures var r := SplitLines(SplitLines(a).tail + b);
            SplitLines(a + b) == Split(SplitLines(a).lines + r.lines, r.tail)
    decreases |b|
  {
    var t := SplitLines(a).tail;
    if b == "" {
      SplitOfTail(a);
      assert a + b == a && t + b == t;
    } else {
      var n := |b| - 1;
      SplitOfConcat(a, b[..n]);
      assert (a + b)[..|a + b| - 1] == a + b[..n];
      assert (t + b)[..|t + b| - 1] == t + b[..n];
    }
  }

  lemma SplitOfTail(a: string)
    ensures SplitLines(SplitLines(a).tail) == Split([], SplitLines(a).tail)
  {
    SplitMeaning(a);
    NoNewline(SplitLines(a).tail);
  }

  lemma {:induction false} NoNewline(s: string)
    requires '\n' !in s
    ensures SplitLines(s) == Split([], s)
  {
    if s != "" {
      NoNewline(s[..|s| - 1]);
    }
  }

  /** A line in front comes off whole. */
  lemma FirstLine(line: string, rest: string)
    requires IsLine(line)
    ensures SplitLines(line + rest) == Split([line] + SplitLines(rest).lines, SplitLines(rest).tail)
  {
    NoNewline(line[..|line| - 1]);
    SplitOfConcat(line, rest);
    assert line == line[..|line| - 1] + [line[|line| - 1]];
    assert "" + rest == rest;
  }

  /** What a stream should be captured as. */
  function Pieces(s: string): seq<string> {
    var r := SplitLines(s);
    r.lines + if r.tail == "" then [] else [r.tail]
  }

  // ---------------------------------------------------------------------------------------------
  // What is captured, read by read
  // ---------------------------------------------------------------------------------------------

  datatype Captured = Captured(pieces: seq<string>, pending: string)

  /** After one more read: complete lines are pushed; of a long rest, one chunk. */
  function AfterRead(c: Captured, chunk: string): Captured {
    var r := SplitLines(c.pending + chunk);
    if |r.tail| >= READ_CHUNK_BYTES * 2
    then Captured(c.pieces + r.lines + [r.tail[..READ_CHUNK_BYTES]], r.tail[READ_CHUNK_BYTES..])
    else Captured(c.pieces + r.lines, r.tail)
  }

  function AfterReads(chunks: seq<string>): Captured {
    if chunks == [] then Captured([], "")
    else AfterRead(AfterReads(chunks[..|chunks| - 1]), chunks[|chunks| - 1])
  }

  /** At the end of the stream the rest is pushed; on a read error it is not. */
  function PushedFor(chunks: seq<string>, failed: bool): seq<string> {
    var c := AfterReads(chunks);
    if failed || c.pending == "" then c.pieces else c.pieces + [c.pending]
  }

  function LinesOf(source: string, pieces: seq<string>, lossy: string -> string): seq<string> {
    seq(|pieces|, i requires 0 <= i < |pieces| => LineOf(source, pieces[i], lossy))
  }

  function FirstNewline(s: string): (r: Option<nat>)
    ensures match r
            case None => '\n' !in s
            case Some(i) => i < |s| && s[i] == '\n' && '\n' !in s[..i]
  {
    if s == "" then None
    else if s[0] == '\n' then Some(0)
    else
      match FirstNewline(s[1..])
      case None => None
      case Some(i) =>
        assert s[..i + 1] == [s[0]] + s[1..][..i];
        Some(i + 1)
  }

  /** `history` is `before` with the lines of `pieces` pushed. */
  predicate Logged(before: seq<string>, history: seq<string>, source: string, pieces: seq<string>, lossy: string -> string) {
    history == before + LinesOf(source, pieces, lossy)
  }

  lemma LoggedMore(before: seq<string>, mid: seq<string>, after: seq<string>, source: string, a: seq<string>, b: seq<string>,
                   lossy: string -> string)
    requires Logged(before, mid, source, a, lossy) && Logged(mid, after, source, b, lossy)
    ensures Logged(before, after, source, a + b, lossy)
  {
    assert LinesOf(source, a + b, lossy) == LinesOf(source, a, lossy) + LinesOf(source, b, lossy);
  }

  /** Pushing one piece. */
  method PushPiece(source: string, piece: string, lossy: string -> string, output: RecentOutput,
                   ghost before: seq<string>, ghost pieces: seq<string>)
    requires output.Valid() && |source| <= STR_MAX && Logged(before, output.history, source, pieces, lossy)
    modifies output
    ensures output.Valid() && Logged(before, output.history, source, pieces + [piece], lossy)
  {
    output.PushBytes(source, piece, lossy);
    assert LinesOf(source, [piece], lossy) == [LineOf(source, piece, lossy)];
    LoggedMore(before, old(output.history), output.history, source, pieces, [piece], lossy);
  }

  lemma TakeLine(pending: string, newline: nat)
    requires FirstNewline(pending) == Some(newline)
    ensures SplitLines(pending) ==
            Split([pending[..newline + 1]] + SplitLines(pending[newline + 1..]).lines, SplitLines(pending[newline + 1..]).tail)
  {
    var line := pending[..newline + 1];
    assert line[..|line| - 1] == pending[..newline];
    assert pending == line + pending[newline + 1..];
    FirstLine(line, pending[newline + 1..]);
  }

  lemma DoneAndTodo(done: seq<string>, line: string, todo: seq<string>)
    ensures done + ([line] + todo) == (done + [line]) + todo
  {}

  /** The inner loop: pushes every complete line of `whole`, and returns the rest. */
  method DrainLines(source: string, whole: string, lossy: string -> string, output: RecentOutput) returns (pending: string)
    requires output.Valid() && |source| <= STR_MAX
    modifies output
    ensures output.Valid() && pending == SplitLines(whole).tail
    ensures Logged(old(output.history), output.history, source, SplitLines(whole).lines, lossy)
  {
    pending := whole;
    ghost var done: seq<string> := [];
    var newline := FirstNewline(pending);
    while newline.Some?
      invariant newline == FirstNewline(pending)
      invariant SplitLines(whole).lines == done + SplitLines(pending).lines
      invariant SplitLines(whole).tail == SplitLines(pending).tail
      invariant output.Valid()
      invariant Logged(old(output.history), output.history, source, done, lossy)
      decreases |pending|
    {
      var line := pending[..newline.value + 1];
      TakeLine(pending, newline.value);
      pending := pending[newline.value + 1..];
      DoneAndTodo(done, line, SplitLines(pending).lines);
      PushPiece(source, line, lossy, output, old(output.history), done);
      done := done + [line];
      newline := FirstNewline(pending);
    }
    NoNewline(pending);
    assert done + [] == done;
  }

  /** One read. */
  method Consume(source: string, chunk: string, before: string, lossy: string -> string, output: RecentOutput,
                 ghost start: seq<string>, ghost pieces: seq<string>) returns (pending: string)
    requires output.Valid() && |source| <= STR_MAX && Logged(start, output.history, source, pieces, lossy)
    modifies output
    ensures output.Valid() && pending == AfterRead(Captured(pieces, before), chunk).pending
    ensures Logged(start, output.history, source, AfterRead(Captured(pieces, before), chunk).pieces, lossy)
  {
    ghost var lines := SplitLines(before + chunk).lines;
    pending := DrainLines(source, before + chunk, lossy, output);
    LoggedMore(start, old(output.history), output.history, source, pieces, lines, lossy);
    if |pending| >= READ_CHUNK_BYTES * 2 {
      var line := pending[..READ_CHUNK_BYTES];
      pending := pending[READ_CHUNK_BYTES..];
      PushPiece(source, line, lossy, output, start, pieces + lines);
    }
  }

  /** `capture_stream`: `chunks` are the reads before the end of the stream or the read error. */
  method CaptureStream(chunks: seq<string>, failed: bool, source: string, lossy: string -> string, output: RecentOutput)
    returns (ok: bool)
    requires output.Valid() && |source| <= STR_MAX
    requires forall r :: r in chunks ==> 1 <= |r| <= READ_CHUNK_BYTES
    modifies output
    ensures output.Valid() && ok == !failed
    ensures output.history == old(output.history) + LinesOf(source, PushedFor(chunks, failed), lossy)
  {
    var pending := "";
    var i := 0;
    ghost var captured := Captured([], "");
    while i < |chunks|
      invariant 0 <= i <= |chunks|
      invariant captured == AfterReads(chunks[..i]) && captured.pending == pending
      invariant output.Valid()
      invariant Logged(old(output.history), output.history, source, captured.pieces, lossy)
    {
      assert chunks[..i + 1][..i] == chunks[..i];
      pending := Consume(source, chunks[i], pending, lossy, output, old(output.history), captured.pieces);
      captured := AfterRead(captured, chunks[i]);
      i := i + 1;
    }
    assert chunks[..i] == chunks;
    if !failed && pending != "" {
      PushPiece(source, pending, lossy, output, old(output.history), captured.pieces);
    }
    ok := !failed;
  }
}
