/** The bounded log of recent output (`src/cloudflared.rs`). */
module Output {
  const MAX_OUTPUT_BYTES: nat := 64 * 1024

  const MAX_OUTPUT_LINES: nat := 100

  /** The largest `usize`, and the longest Rust string. */
  const USIZE_MAX: nat := 0xFFFF_FFFF_FFFF_FFFF

  const STR_MAX: nat := 0x7FFF_FFFF_FFFF_FFFF

  function SaturatingSub(a: nat, b: nat): nat { if a < b then 0 else a - b }

  function SaturatingAdd(a: nat, b: nat): nat { if a + b > USIZE_MAX then USIZE_MAX else a + b }

  // ---------------------------------------------------------------------------------------------
  // One line
  // ---------------------------------------------------------------------------------------------

  /** `trim_end_matches(['\r', '\n'])`. */
  function TrimEnd(s: string): (r: string)
    ensures r <= s
    ensures r != "" ==> r[|r| - 1] != '\r' && r[|r| - 1] != '\n'
    ensures forall i :: |r| <= i < |s| ==> s[i] == '\r' || s[i] == '\n'
  {
    if s != "" && (s[|s| - 1] == '\r' || s[|s| - 1] == '\n') then TrimEnd(s[..|s| - 1]) else s
  }

  /** `is_char_boundary`, on UTF-8 bytes: no continuation byte starts here. */
  predicate IsBoundary(text: string, i: nat)
    requires i <= |text|
  {
    i == 0 || i == |text| || !(0x80 <= text[i] as int < 0xC0)
  }

  /** The first boundary from `start` on. */
  function BoundaryFrom(text: string, start: nat): (r: nat)
    requires start <= |text|
    ensures start <= r <= |text| && IsBoundary(text, r)
    ensures forall i :: start <= i < r ==> !IsBoundary(text, i)
    decreases |text| - start
  {
    if IsBoundary(text, start) then start else BoundaryFrom(text, start + 1)
  }

  function Prefix(source: string): string { "[" + source + "] " }

  function MaximumPayload(source: string): nat { SaturatingSub(MAX_OUTPUT_BYTES, |Prefix(source)| + 1) }

  function LastBytes(bytes: string, count: nat): string {
    bytes[SaturatingSub(|bytes|, count)..]
  }

  /** The line logged for some bytes; `lossy` stands for `String::from_utf8_lossy`. */
  function LineOf(source: string, bytes: string, lossy: string -> string): string {
    var most := MaximumPayload(source);
    var text := TrimEnd(lossy(LastBytes(bytes, most)));
    Prefix(source) + text[BoundaryFrom(text, SaturatingSub(|text|, most))..]
  }

  /** A line fits the log by itself unless its prefix alone does not. */
  lemma LineFits(source: string, bytes: string, lossy: string -> string)
    ensures |LineOf(source, bytes, lossy)| + 1 <= MAX_OUTPUT_BYTES <==> |source| + 4 <= MAX_OUTPUT_BYTES
    ensures |LineOf(source, bytes, lossy)| <= |source| + 3 + MAX_OUTPUT_BYTES
  {}

  /** Valid text that fits is logged whole, less its line terminator. */
  lemma WholeLine(source: string, bytes: string, lossy: string -> string)
    requires |source| + 4 + |bytes| <= 65536 && lossy(bytes) == bytes
    ensures LineOf(source, bytes, lossy) == "[" + source + "] " + TrimEnd(bytes)
  {
    assert LastBytes(bytes, MaximumPayload(source)) == bytes;
  }

  /** Of input too long for a line, the last bytes that fit beside the prefix are taken. */
  lemma LongLine(source: string, bytes: string, lossy: string -> string)
    requires |source| + 4 <= 65536 && |bytes| > 65536 - (|source| + 4)
    ensures var last := bytes[|bytes| - (65536 - (|source| + 4))..];
            lossy(last) == last ==> LineOf(source, bytes, lossy) == "[" + source + "] " + TrimEnd(last)
  {
    var last := bytes[|bytes| - (65536 - (|source| + 4))..];
    assert last == LastBytes(bytes, MaximumPayload(source));
    assert TrimEnd(last)[0..] == TrimEnd(last);
  }

  // ---------------------------------------------------------------------------------------------
  // Whole characters
  // ---------------------------------------------------------------------------------------------

  /** A Unicode scalar value, and its UTF-8 bytes (section 3 of RFC 3629). */
  type Scalar = c: nat | c < 0x11_0000 && !(0xD800 <= c < 0xE000)

  function Utf8(c: Scalar): (r: string)
    ensures 1 <= |r| <= 4
  {
    if c < 0x80 then [c as char]
    else if c < 0x800 then [(0xC0 + c / 0x40) as char, Continuation(c)]
    else if c < 0x1_0000 then [(0xE0 + c / 0x1000) as char, Continuation(c / 0x40), Continuation(c)]
    else [(0xF0 + c / 0x4_0000) as char, Continuation(c / 0x1000), Continuation(c / 0x40), Continuation(c)]
  }

  function Continuation(c: nat): char { (0x80 + c % 0x40) as char }

  function Encode(text: seq<Scalar>): string {
    if text == [] then "" else Encode(text[..|text| - 1]) + Utf8(text[|text| - 1])
  }

  lemma EncodeNext(text: seq<Scalar>, c: Scalar)
    ensures Encode(text + [c]) == Encode(text) + Utf8(c)
  {
    hide Utf8;
    assert (text + [c])[..|text|] == text;
  }

  lemma {:induction false} EncodeOfConcat(a: seq<Scalar>, b: seq<Scalar>)
    ensures Encode(a + b) == Encode(a) + Encode(b)
    decreases |b|
  {
    hide Utf8;
    if b == [] {
      assert a + b == a;
    } else {
      var n := |b| - 1;
      EncodeOfConcat(a, b[..n]);
      EncodeConcatNext(a, b[..n], b[n]);
      assert b[..n] + [b[n]] == b;
    }
  }

  lemma EncodeConcatNext(a: seq<Scalar>, init: seq<Scalar>, c: Scalar)
    requires Encode(a + init) == Encode(a) + Encode(init)
    ensures Encode(a + (init + [c])) == Encode(a) + Encode(init + [c])
  {
    hide Utf8, Encode;
    EncodeNext(a + init, c);
    EncodeNext(init, c);
    assert a + (init + [c]) == (a + init) + [c];
  }

  lemma EncodeSplits(text: seq<Scalar>, k: nat)
    requires k <= |text|
    ensures Encode(text) == Encode(text[..k]) + Encode(text[k..])
  {
    hide Encode;
    EncodeOfConcat(text[..k], text[k..]);
    assert text[..k] + text[k..] == text;
  }

  /** Only the first byte of a character is no continuation. */
  lemma FirstByteStarts(c: Scalar, j: nat)
    requires j < |Utf8(c)|
    ensures j == 0 <==> !(0x80 <= Utf8(c)[j] as int < 0xC0)
  {
  }

  /** `i` is where some character of the text ends. */
  ghost predicate EndsCharacter(text: seq<Scalar>, i: nat) {
    exists k :: 0 <= k <= |text| && |Encode(text[..k])| == i
  }

  lemma EndsInPrefix(text: seq<Scalar>, c: Scalar, i: nat)
    requires i < |Encode(text + [c])|
    ensures EndsCharacter(text + [c], i) <==> EndsCharacter(text, i)
  {
    hide Encode;
    var whole := text + [c];
    assert whole[..|whole|] == whole;
    forall k | 0 <= k <= |text| ensures whole[..k] == text[..k] {}
  }

  lemma EndsWithin(text: seq<Scalar>, i: nat)
    requires EndsCharacter(text, i)
    ensures i <= |Encode(text)|
  {
    hide Encode;
    var k :| 0 <= k <= |text| && |Encode(text[..k])| == i;
    EncodeSplits(text, k);
  }

  /** The boundaries of a text are the ends of its characters. */
  lemma {:induction false} BoundariesAreCharacters(text: seq<Scalar>, i: nat)
    requires i <= |Encode(text)|
    ensures IsBoundary(Encode(text), i) <==> EndsCharacter(text, i)
    decreases |text|, 0
  {
    hide Utf8;
    if i == |Encode(text)| {
      assert text[..|text|] == text;
    } else if i == 0 {
      assert text[..0] == [];
    } else {
      var n := |text| - 1;
      BoundaryNext(text[..n], text[n], i);
      assert text[..n] + [text[n]] == text;
    }
  }

  lemma BoundaryNext(init: seq<Scalar>, c: Scalar, i: nat)
    requires 0 < i < |Encode(init + [c])|
    ensures IsBoundary(Encode(init + [c]), i) <==> EndsCharacter(init + [c], i)
    decreases |init|, 1
  {
    hide Utf8, Encode;
    EncodeNext(init, c);
    EndsInPrefix(init, c, i);
    assert init[..|init|] == init;
    if i <= |Encode(init)| {
      BoundariesAreCharacters(init, i);
    }
    if i >= |Encode(init)| {
      FirstByteStarts(c, i - |Encode(init)|);
    }
    if EndsCharacter(init, i) {
      EndsWithin(init, i);
    }
  }

  /** A line shows the longest run of whole characters at the end of the text that fits. */
  lemma LineIsCharacters(source: string, bytes: string, lossy: string -> string, text: seq<Scalar>) returns (k: nat)
    requires |source| + 4 <= 65536
    requires TrimEnd(lossy(LastBytes(bytes, 65536 - (|source| + 4)))) == Encode(text)
    ensures k <= |text|
    ensures LineOf(source, bytes, lossy) == "[" + source + "] " + Encode(text[k..])
    ensures |LineOf(source, bytes, lossy)| + 1 <= 65536
    ensures k > 0 ==> |source| + 3 + |Encode(text[k - 1..])| + 1 > 65536
  {
    hide Encode, BoundaryFrom, TrimEnd, LastBytes, LineOf;
    var most := 65536 - (|source| + 4);
    k := CutIsCharacter(text, most);
    CutOf(source, bytes, lossy);
    assert most == MaximumPayload(source);
  }

  lemma CutOf(source: string, bytes: string, lossy: string -> string)
    ensures var most := MaximumPayload(source);
            var text := TrimEnd(lossy(LastBytes(bytes, most)));
            LineOf(source, bytes, lossy) == "[" + source + "] " + text[BoundaryFrom(text, SaturatingSub(|text|, most))..]
  {
  }

  /** The last `most` bytes of a text, less a character cut in two, are its last characters. */
  lemma CutIsCharacter(text: seq<Scalar>, most: nat) returns (k: nat)
    ensures k <= |text|
    ensures var whole := Encode(text);
            whole[BoundaryFrom(whole, SaturatingSub(|whole|, most))..] == Encode(text[k..])
    ensures |Encode(text[k..])| <= most
    ensures k > 0 ==> |Encode(text[k - 1..])| > most
  {
    hide Encode;
    var whole := Encode(text);
    var start := BoundaryFrom(whole, SaturatingSub(|whole|, most));
    BoundariesAreCharacters(text, start);
    k :| 0 <= k <= |text| && |Encode(text[..k])| == start;
    EncodeSplits(text, k);
    if k > 0 {
      PreviousBoundary(text, k);
    }
  }

  /** The character before one that ends at a boundary ends at an earlier one. */
  lemma PreviousBoundary(text: seq<Scalar>, k: nat)
    requires 0 < k <= |text|
    ensures |Encode(text[..k - 1])| < |Encode(text[..k])| <= |Encode(text)|
    ensures IsBoundary(Encode(text), |Encode(text[..k - 1])|)
    ensures |Encode(text[k - 1..])| == |Encode(text)| - |Encode(text[..k - 1])|
  {
    hide Encode, Utf8;
    EncodeSplits(text, k);
    EncodeSplits(text, k - 1);
    EncodeNext(text[..k - 1], text[k - 1]);
    assert text[..k - 1] + [text[k - 1]] == text[..k];
    BoundariesAreCharacters(text, |Encode(text[..k - 1])|);
  }

  // ---------------------------------------------------------------------------------------------
  // The log
  // ---------------------------------------------------------------------------------------------

  /** What lines take up: their bytes and one more for each. */
  function Cost(lines: seq<string>): nat {
    if lines == [] then 0 else |lines[0]| + 1 + Cost(lines[1..])
  }

  predicate Fits(lines: seq<string>) {
    |lines| <= MAX_OUTPUT_LINES && Cost(lines) <= MAX_OUTPUT_BYTES
  }

  /** The longest suffix that fits. */
  function Recent(history: seq<string>): seq<string> {
    if history == [] || Fits(history) then history else Recent(history[1..])
  }

  lemma {:induction false} CostOfConcat(a: seq<string>, b: seq<string>)
    ensures Cost(a + b) == Cost(a) + Cost(b)
  {
    if a == [] {
      assert a + b == b;
    } else {
      CostOfConcat(a[1..], b);
      assert (a + b)[1..] == a[1..] + b;
    }
  }

  predicate IsSuffix<T(==)>(s: seq<T>, t: seq<T>) {
    |s| <= |t| && t[|t| - |s|..] == s
  }

  /** `Recent` is a suffix that fits, and every suffix that fits is a suffix of it. */
  lemma {:induction false} RecentMeaning(history: seq<string>, other: seq<string>)
    ensures IsSuffix(Recent(history), history) && Fits(Recent(history))
    ensures IsSuffix(other, history) && Fits(other) ==> |other| <= |Recent(history)| && IsSuffix(other, Recent(history))
  {
    if history != [] && !Fits(history) {
      RecentMeaning(history[1..], other);
      assert IsSuffix(other, history) && |other| == |history| ==> other == history;
      assert IsSuffix(other, history) && |other| < |history| ==> IsSuffix(other, history[1..]);
    }
  }

  /** The two limits: at most 100 lines and 65536 bytes, each line counted with one more; and one
      line more would break one of them. */
  lemma RecentSpelled(history: seq<string>)
    ensures var r := Recent(history);
            && |r| <= 100 && (r != [] ==> |Join(r)| + 1 <= 65536)
            && IsSuffix(r, history)
            && (|r| < |history| ==>
                  var more := history[|history| - |r| - 1..];
                  |more| > 100 || |Join(more)| + 1 > 65536)
  {
    var r := Recent(history);
    RecentMeaning(history, []);
    JoinLength(r);
    if |r| < |history| {
      var more := history[|history| - |r| - 1..];
      RecentMeaning(history, more);
      JoinLength(more);
    }
  }

  /** What was dropped before does not matter after one more line. */
  lemma {:induction false} RecentOfRecent(history: seq<string>, line: string)
    ensures Recent(Recent(history) + [line]) == Recent(history + [line])
  {
    if history != [] && !Fits(history) {
      RecentOfRecent(history[1..], line);
      CostOfConcat(history, [line]);
      assert (history + [line])[1..] == history[1..] + [line];
    }
  }

  /** The newest line survives its own push if it fits at all. */
  lemma {:induction false} NewestSurvives(history: seq<string>, line: string)
    ensures |line| + 1 <= MAX_OUTPUT_BYTES ==>
              Recent(history + [line]) != [] && Recent(history + [line])[|Recent(history + [line])| - 1] == line
    ensures |line| + 1 > MAX_OUTPUT_BYTES ==> Recent(history + [line]) == []
  {
    if history == [] {
      assert Cost([line]) == |line| + 1;
      assert [] + [line] == [line] && [line][1..] == [];
    } else {
      NewestSurvives(history[1..], line);
      CostOfConcat(history, [line]);
      assert Cost([line]) == |line| + 1;
      assert (history + [line])[1..] == history[1..] + [line];
    }
  }

  /** What a push leaves: its line last, unless the prefix alone is over the limit. */
  lemma PushSurvives(history: seq<string>, source: string, bytes: string, lossy: string -> string)
    ensures var line := LineOf(source, bytes, lossy);
            var recent := Recent(history + [line]);
            if |source| + 4 <= MAX_OUTPUT_BYTES then recent != [] && recent[|recent| - 1] == line else recent == []
  {
    LineFits(source, bytes, lossy);
    NewestSurvives(history, LineOf(source, bytes, lossy));
  }

  /** `join("\n")`. */
  function Join(lines: seq<string>): string {
    if lines == [] then ""
    else if |lines| == 1 then lines[0]
    else lines[0] + "\n" + Join(lines[1..])
  }

  lemma {:induction false} JoinLength(lines: seq<string>)
    ensures lines != [] ==> |Join(lines)| + 1 == Cost(lines)
  {
    if |lines| > 1 {
      JoinLength(lines[1..]);
    }
  }

  /** A snapshot is shorter than the byte limit. */
  lemma SnapshotIsBounded(history: seq<string>)
    ensures |Join(Recent(history))| < MAX_OUTPUT_BYTES
  {
    RecentMeaning(history, []);
    JoinLength(Recent(history));
  }

  class RecentOutput {
    var lines: seq<string>
    var bytes: nat
    /** Every line ever pushed. */
    ghost var history: seq<string>

    ghost predicate Valid()
      reads this
    {
      lines == Recent(history) && bytes == Cost(lines)
    }

    constructor ()
      ensures Valid() && history == []
    {
      lines, bytes, history := [], 0, [];
    }

    method Snapshot() returns (r: string)
      requires Valid()
      ensures r == Join(Recent(history)) && |r| < MAX_OUTPUT_BYTES
    {
      SnapshotIsBounded(history);
      r := Join(lines);
    }

    method PushBytes(source: string, input: string, lossy: string -> string)
      requires Valid() && |source| <= STR_MAX
      modifies this
      ensures Valid()
      ensures history == old(history) + [LineOf(source, input, lossy)]
    {
      var prefix := Prefix(source);
      var most := SaturatingSub(MAX_OUTPUT_BYTES, |prefix| + 1);
      var kept := if |input| > most then input[|input| - most..] else input;
      var text := TrimEnd(lossy(kept));
      var start := SaturatingSub(|text|, most);
      while !IsBoundary(text, start)
        invariant start <= |text|
        invariant BoundaryFrom(text, start) == BoundaryFrom(text, SaturatingSub(|text|, most))
        decreases |text| - start
      {
        start := start + 1;
      }
      var line := prefix + text[start..];
      assert line == LineOf(source, input, lossy) by {
        assert kept == LastBytes(input, most);
      }
      Append(line);
    }

    /** The part of `push_bytes` under the lock. */
    method Append(line: string)
      requires Valid() && |line| + 1 + MAX_OUTPUT_BYTES <= USIZE_MAX
      modifies this
      ensures Valid()
      ensures history == old(history) + [line]
    {
      RecentMeaning(history, []);
      RecentOfRecent(history, line);
      CostOfConcat(lines, [line]);
      bytes := SaturatingAdd(bytes, |line| + 1);
      lines := lines + [line];
      history := history + [line];
      assert Cost([line]) == |line| + 1;
      while |lines| > MAX_OUTPUT_LINES || bytes > MAX_OUTPUT_BYTES
        invariant Recent(lines) == Recent(history)
        invariant bytes == Cost(lines)
        invariant history == old(history) + [line]
        decreases |lines|
      {
        if |lines| > 0 {
          var removed := lines[0];
          lines := lines[1..];
          bytes := SaturatingSub(bytes, |removed| + 1);
        } else {
          break;
        }
      }
    }
  }
}
