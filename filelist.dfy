/**
 * Reading the file list in `main`: the text as Python's text-mode file yields
 * it (universal newlines, then one line per "\n"), and
 * `[line.strip() for line in f if line.strip()]`.
 */
module FileList {

  /** The code points `str.isspace()` holds of, as inclusive ranges. */
  const SpaceRanges: seq<(int, int)> := [
    (0x09, 0x0D), (0x1C, 0x20), (0x85, 0x85), (0xA0, 0xA0), (0x1680, 0x1680),
    (0x2000, 0x200A), (0x2028, 0x2029), (0x202F, 0x202F), (0x205F, 0x205F), (0x3000, 0x3000)]

  /** Whether `n` lies in one of the ranges. */
  predicate InRanges(n: int, ranges: seq<(int, int)>) {
    ranges != [] && ((ranges[0].0 <= n <= ranges[0].1) || InRanges(n, ranges[1..]))
  }

  /** `str.isspace()` for one character: Python's whitespace code points. */
  predicate IsSpace(c: char) {
    InRanges(c as int, SpaceRanges)
  }

  /** Every character of `s` is whitespace (`s.isspace()`, or `s` is empty). */
  predicate AllSpace(s: string) {
    forall k :: 0 <= k < |s| ==> IsSpace(s[k])
  }

  lemma AllSpaceAppend(a: string, b: string)
    ensures AllSpace(a + b) <==> AllSpace(a) && AllSpace(b)
  {
    if AllSpace(a + b) {
      forall k | 0 <= k < |a| ensures IsSpace(a[k]) { assert a[k] == (a + b)[k]; }
      forall k | 0 <= k < |b| ensures IsSpace(b[k]) { assert b[k] == (a + b)[|a| + k]; }
    }
  }

  lemma AllSpaceInfix(s: string, i: nat, j: nat)
    requires AllSpace(s) && i <= j <= |s|
    ensures AllSpace(s[i..j])
  {
    forall k | 0 <= k < j - i ensures IsSpace(s[i..j][k]) { assert s[i..j][k] == s[i + k]; }
  }

  /** The number of whitespace characters `s` starts with (see LeadingSpaceSpec). */
  function LeadingSpace(s: string): (n: nat)
    ensures n <= |s|
  {
    if s != [] && IsSpace(s[0]) then 1 + LeadingSpace(s[1..]) else 0
  }

  /** The number of whitespace characters `s` ends with (see TrailingSpaceSpec). */
  function TrailingSpace(s: string): (n: nat)
    ensures n <= |s|
  {
    if s != [] && IsSpace(s[|s| - 1]) then 1 + TrailingSpace(s[..|s| - 1]) else 0
  }

  /** LeadingSpace counts the longest run of whitespace at the start. */
  lemma {:induction false} LeadingSpaceSpec(s: string)
    ensures var n := LeadingSpace(s);
            && AllSpace(s[..n])
            && (n < |s| ==> !IsSpace(s[n]))
  {
    if s != [] && IsSpace(s[0]) {
      var m := LeadingSpace(s[1..]);
      LeadingSpaceSpec(s[1..]);
      assert s[..m + 1] == [s[0]] + s[1..][..m];
      AllSpaceAppend([s[0]], s[1..][..m]);
      if m + 1 < |s| {
        assert s[m + 1] == s[1..][m];
      }
    }
  }

  /** TrailingSpace counts the longest run of whitespace at the end. */
  lemma {:induction false} TrailingSpaceSpec(s: string)
    ensures var n := TrailingSpace(s);
            && AllSpace(s[|s| - n..])
            && (n < |s| ==> !IsSpace(s[|s| - n - 1]))
  {
    if s != [] && IsSpace(s[|s| - 1]) {
      var f := s[..|s| - 1];
      var m := TrailingSpace(f);
      TrailingSpaceSpec(f);
      assert s[|s| - (m + 1)..] == f[|f| - m..] + [s[|s| - 1]];
      AllSpaceAppend(f[|f| - m..], [s[|s| - 1]]);
      if m + 1 < |s| {
        assert s[|s| - (m + 1) - 1] == f[|f| - m - 1];
      }
    }
  }

  /** Whitespace followed by text that does not start with whitespace: the count stops there. */
  lemma {:induction false} LeadingSpaceOf(a: string, b: string)
    requires AllSpace(a)
    requires b == [] || !IsSpace(b[0])
    ensures LeadingSpace(a + b) == |a|
  {
    if a == [] {
      assert a + b == b;
    } else {
      assert (a + b)[1..] == a[1..] + b;
      AllSpaceInfix(a, 1, |a|);
      LeadingSpaceOf(a[1..], b);
    }
  }

  /** Text that does not end in whitespace followed by whitespace: the count stops there. */
  lemma {:induction false} TrailingSpaceOf(a: string, b: string)
    requires AllSpace(b)
    requires a == [] || !IsSpace(a[|a| - 1])
    ensures TrailingSpace(a + b) == |b|
  {
    if b == [] {
      assert a + b == a;
    } else {
      var m := |b| - 1;
      assert (a + b)[..|a + b| - 1] == a + b[..m];
      AllSpaceInfix(b, 0, m);
      TrailingSpaceOf(a, b[..m]);
    }
  }

  /** `s.strip()`: the part of `s` between its leading and its trailing whitespace (see StripSpec). */
  function Strip(s: string): string {
    var i := LeadingSpace(s);
    s[i..|s| - TrailingSpace(s[i..])]
  }

  /**
   * The text splits into leading whitespace, the stripped text and trailing
   * whitespace; the stripped text neither starts nor ends with whitespace, and
   * it is empty exactly when the text is all whitespace.
   */
  lemma StripSpec(s: string)
    ensures var r, i := Strip(s), LeadingSpace(s);
            && i + |r| <= |s|
            && s == s[..i] + r + s[i + |r|..]
            && AllSpace(s[..i])
            && AllSpace(s[i + |r|..])
    ensures var r := Strip(s);
            r == [] || (!IsSpace(r[0]) && !IsSpace(r[|r| - 1]))
    ensures Strip(s) == [] <==> AllSpace(s)
  {
    StripInfix(s);
    StripEmpty(s);
  }

  /** The split around the stripped text. */
  lemma StripInfix(s: string)
    ensures var r, i := Strip(s), LeadingSpace(s);
            && i + |r| <= |s|
            && s == s[..i] + r + s[i + |r|..]
            && AllSpace(s[..i])
            && AllSpace(s[i + |r|..])
            && (r == [] || (!IsSpace(r[0]) && !IsSpace(r[|r| - 1])))
  {
    var i := LeadingSpace(s);
    var j := |s| - TrailingSpace(s[i..]);
    LeadingSpaceSpec(s);
    StripTail(s, i);
    if i < j {
      StripLast(s, i);
    }
    SplitAround(s, i, j);
  }

  /** Cutting whitespace off both ends at `i` and `j`. */
  lemma SplitAround(s: string, i: nat, j: nat)
    requires i <= j <= |s|
    requires AllSpace(s[..i]) && (i < j ==> !IsSpace(s[i]))
    requires AllSpace(s[j..]) && (i < j ==> !IsSpace(s[j - 1]))
    ensures var r := s[i..j];
            && s == s[..i] + r + s[j..]
            && (r == [] || (!IsSpace(r[0]) && !IsSpace(r[|r| - 1])))
  {
    if i < j {
      assert s[i..j][0] == s[i];
      assert s[i..j][j - i - 1] == s[j - 1];
    }
  }

  /** What follows the stripped text is the trailing whitespace after the leading one. */
  lemma StripTail(s: string, i: nat)
    requires i <= |s|
    ensures var t := s[i..];
            AllSpace(s[|s| - TrailingSpace(t)..])
  {
    var t := s[i..];
    var n := TrailingSpace(t);
    TrailingSpaceSpec(t);
    assert s[|s| - n..] == t[|t| - n..];
  }

  /** The stripped text does not end in whitespace. */
  lemma StripLast(s: string, i: nat)
    requires i <= |s|
    requires TrailingSpace(s[i..]) < |s| - i
    ensures !IsSpace(s[|s| - TrailingSpace(s[i..]) - 1])
  {
    var t := s[i..];
    var n := TrailingSpace(t);
    TrailingSpaceSpec(t);
    assert s[|s| - n - 1] == t[|t| - n - 1];
  }

  /** The stripped text is empty exactly when the text is all whitespace. */
  lemma StripEmpty(s: string)
    ensures Strip(s) == [] <==> AllSpace(s)
  {
    var i := LeadingSpace(s);
    if Strip(s) == [] {
      StripInfix(s);
      assert s == s[..i] + s[i..];
      AllSpaceAppend(s[..i], s[i..]);
    }
    if AllSpace(s) {
      LeadingSpaceOf(s, []);
      assert s + [] == s;
    }
  }

  /** Stripping is idempotent. */
  lemma StripIdempotent(s: string)
    ensures Strip(Strip(s)) == Strip(s)
  {
    var r := Strip(s);
    StripSpec(s);
    assert r == [] + r + [];
    StripUnique(r, [], r, []);
  }

  /**
   * Strip finds the unique core: whitespace, then a core that neither starts
   * nor ends with whitespace, then whitespace, strips to that core.
   */
  lemma StripUnique(s: string, pre: string, core: string, post: string)
    requires s == pre + core + post
    requires AllSpace(pre) && AllSpace(post)
    requires core == [] || (!IsSpace(core[0]) && !IsSpace(core[|core| - 1]))
    ensures Strip(s) == core
  {
    if core == [] {
      assert s == pre + post;
      AllSpaceAppend(pre, post);
      StripEmpty(s);
    } else {
      var i := |pre|;
      assert s == pre + (core + post);
      LeadingSpaceOf(pre, core + post);
      assert s[i..] == core + post;
      TrailingSpaceOf(core, post);
      assert s[i..|s| - |post|] == core;
    }
  }

  /**
   * The universal-newlines translation of text mode: "\r\n" and a lone "\r"
   * both become "\n". The result holds no "\r".
   */
  function Translate(s: string): (r: string)
    ensures '\r' !in r
    ensures |r| <= |s|
  {
    if s == [] then []
    else if s[0] == '\r' then
      if |s| > 1 && s[1] == '\n' then "\n" + Translate(s[2..]) else "\n" + Translate(s[1..])
    else [s[0]] + Translate(s[1..])
  }

  /** Text without "\r" is left unchanged by the translation. */
  lemma {:induction false} TranslateNoCarriageReturn(s: string)
    requires '\r' !in s
    ensures Translate(s) == s
  {
    if s != [] {
      assert '\r' !in s[1..];
      TranslateNoCarriageReturn(s[1..]);
      assert s == [s[0]] + s[1..];
    }
  }

  /** The length of the first line of `s`: up to and including the first "\n", or all of `s`. */
  function FirstLineLength(s: string): (n: nat)
    requires s != []
    ensures 1 <= n <= |s|
    ensures '\n' !in s[..n - 1]
    ensures n == |s| || s[n - 1] == '\n'
  {
    if s[0] == '\n' || |s| == 1 then 1
    else
      var m := FirstLineLength(s[1..]);
      assert s[..m] == [s[0]] + s[1..][..m - 1];
      1 + m
  }

  /** Concatenation of a list of strings. */
  function Concat(ls: seq<string>): string {
    if ls == [] then [] else ls[0] + Concat(ls[1..])
  }

  /** The lines a text-mode file iterates over; together they are the whole text (see LinesShape). */
  function Lines(s: string): (r: seq<string>)
    decreases |s|
    ensures Concat(r) == s
  {
    if s == [] then []
    else
      var n := FirstLineLength(s);
      var r := [s[..n]] + Lines(s[n..]);
      assert r[1..] == Lines(s[n..]);
      assert s == s[..n] + s[n..];
      r
  }

  /** Each line is non-empty, each but the last ends in "\n", and none holds "\n" elsewhere. */
  predicate LineShaped(r: seq<string>) {
    && (forall i :: 0 <= i < |r| ==> r[i] != [] && '\n' !in r[i][..|r[i]| - 1])
    && (forall i :: 0 <= i < |r| - 1 ==> r[i][|r[i]| - 1] == '\n')
  }

  /** The lines of a text are what a text-mode file yields: split after each "\n". */
  lemma {:induction false} LinesShape(s: string)
    decreases |s|
    ensures LineShaped(Lines(s))
  {
    if s != [] {
      var n := FirstLineLength(s);
      LinesShape(s[n..]);
      LinesFirst(s);
      LineShapedCons(s[..n], Lines(s[n..]));
    }
  }

  /** The first line of a non-empty text and what its lines are made of. */
  lemma LinesFirst(s: string)
    requires s != []
    ensures var n := FirstLineLength(s);
            && Lines(s) == [s[..n]] + Lines(s[n..])
            && s[..n] != [] && '\n' !in s[..n][..n - 1]
            && (Lines(s[n..]) != [] ==> s[..n][n - 1] == '\n')
  {
    var n := FirstLineLength(s);
    assert s[..n][..n - 1] == s[..n - 1];
  }

  /** A line followed by shaped lines is shaped when it is non-empty and ends in "\n" unless it is last. */
  lemma LineShapedCons(line: string, rest: seq<string>)
    requires line != [] && '\n' !in line[..|line| - 1]
    requires rest != [] ==> line[|line| - 1] == '\n'
    requires LineShaped(rest)
    ensures LineShaped([line] + rest)
  {
    var r := [line] + rest;
    forall i | 0 <= i < |r| ensures r[i] != [] && '\n' !in r[i][..|r[i]| - 1] {
      if i > 0 { assert r[i] == rest[i - 1]; }
    }
    forall i | 0 <= i < |r| - 1 ensures r[i][|r[i]| - 1] == '\n' {
      if i > 0 { assert r[i] == rest[i - 1]; }
    }
  }

  /**
   * The file list: the stripped lines, in their order, leaving out those that
   * strip to nothing. Every entry is non-empty and already stripped.
   */
  function ParseFileList(lines: seq<string>): (r: seq<string>)
    ensures |r| <= |lines|
    ensures forall k :: 0 <= k < |r| ==> r[k] != [] && Strip(r[k]) == r[k]
  {
    if lines == [] then []
    else
      var front := ParseFileList(lines[..|lines| - 1]);
      var e := Strip(lines[|lines| - 1]);
      StripIdempotent(lines[|lines| - 1]);
      if e == [] then front else front + [e]
  }

  /** The file list read from the text of the list file. */
  function FileListFromText(text: string): seq<string> {
    ParseFileList(Lines(Translate(text)))
  }

  /** A line the comprehension keeps: one that does not strip to nothing. */
  predicate NonBlank(line: string) {
    Strip(line) != []
  }

  /** The positions of the lines that `keep` holds of, in order. */
  function Positions(keep: string -> bool, lines: seq<string>): (idx: seq<nat>)
    ensures forall k :: 0 <= k < |idx| ==> idx[k] < |lines|
  {
    if lines == [] then []
    else
      var front := Positions(keep, lines[..|lines| - 1]);
      if keep(lines[|lines| - 1]) then front + [|lines| - 1] else front
  }

  /** The positions of the lines that do not strip to nothing, in increasing order. */
  function KeptLines(lines: seq<string>): (idx: seq<nat>)
    ensures forall k :: 0 <= k < |idx| ==> idx[k] < |lines|
  {
    Positions(NonBlank, lines)
  }

  /**
   * The file list is exactly the non-blank lines, stripped, in their original
   * order: its k-th entry is the stripped k-th non-blank line, the positions
   * of those lines increase, and a line is among them exactly when it does not
   * strip to nothing.
   */
  lemma ParseFileListExact(lines: seq<string>)
    ensures var r, idx := ParseFileList(lines), KeptLines(lines);
            && |r| == |idx|
            && (forall k :: 0 <= k < |r| ==> r[k] == Strip(lines[idx[k]]))
            && (forall a, b :: 0 <= a < b < |idx| ==> idx[a] < idx[b])
            && (forall j :: 0 <= j < |lines| ==> (j in idx <==> Strip(lines[j]) != []))
  {
    ParseFileListAtKept(lines);
    KeptLinesExact(lines);
  }

  lemma {:induction false} ParseFileListAtKept(lines: seq<string>)
    ensures StrippedAt(ParseFileList(lines), lines, KeptLines(lines))
  {
    if lines != [] {
      var m := |lines| - 1;
      ParseFileListAtKept(lines[..m]);
      AtKeptStep(lines, ParseFileList(lines[..m]), KeptLines(lines[..m]));
    }
  }

  /** Entry k of `r` is line `idx[k]` of `lines`, stripped. */
  predicate StrippedAt(r: seq<string>, lines: seq<string>, idx: seq<nat>) {
    && |r| == |idx|
    && forall k :: 0 <= k < |r| ==> idx[k] < |lines| && r[k] == Strip(lines[idx[k]])
  }

  /** Appending one line keeps the correspondence, whether the line is kept or not. */
  lemma AtKeptStep(lines: seq<string>, fr: seq<string>, fidx: seq<nat>)
    requires lines != [] && StrippedAt(fr, lines[..|lines| - 1], fidx)
    ensures var m := |lines| - 1;
            var r := if Strip(lines[m]) == [] then fr else fr + [Strip(lines[m])];
            var idx := if NonBlank(lines[m]) then fidx + [m] else fidx;
            StrippedAt(r, lines, idx)
  {
  }

  lemma KeptLinesExact(lines: seq<string>)
    ensures var idx := KeptLines(lines);
            && (forall a, b :: 0 <= a < b < |idx| ==> idx[a] < idx[b])
            && (forall j :: 0 <= j < |lines| ==> (j in idx <==> Strip(lines[j]) != []))
  {
    PositionsIncreasing(NonBlank, lines);
    PositionsMembership(NonBlank, lines);
  }

  predicate StrictlyIncreasing(idx: seq<nat>) {
    forall a, b :: 0 <= a < b < |idx| ==> idx[a] < idx[b]
  }

  /** The positions come in increasing order. */
  lemma {:induction false} PositionsIncreasing(keep: string -> bool, lines: seq<string>)
    ensures StrictlyIncreasing(Positions(keep, lines))
  {
    if lines != [] {
      var m := |lines| - 1;
      PositionsIncreasing(keep, lines[..m]);
      var fidx := Positions(keep, lines[..m]);
      var idx := Positions(keep, lines);
      forall a, b | 0 <= a < b < |idx| ensures idx[a] < idx[b] {
        assert idx[a] == fidx[a];
        if b < |fidx| { assert idx[b] == fidx[b]; } else { assert idx[b] == m; }
      }
    }
  }

  /** A line's position is among them exactly when `keep` holds of the line. */
  lemma {:induction false} PositionsMembership(keep: string -> bool, lines: seq<string>)
    ensures var idx := Positions(keep, lines);
            forall j :: 0 <= j < |lines| ==> (j in idx <==> keep(lines[j]))
  {
    if lines != [] {
      var m := |lines| - 1;
      var front := lines[..m];
      PositionsMembership(keep, front);
      var idx := Positions(keep, lines);
      var fidx := Positions(keep, front);
      assert m !in fidx by {
        assert forall k :: 0 <= k < |fidx| ==> fidx[k] < m;
      }
      forall j | 0 <= j < |lines| ensures j in idx <==> keep(lines[j]) {
        if j < m {
          assert front[j] == lines[j];
          if keep(lines[m]) {
            assert j in fidx + [m] <==> j in fidx;
          }
        } else if keep(lines[m]) {
          assert idx[|idx| - 1] == m;
        }
      }
    }
  }

  /** Parsing is line by line: the list of a concatenation is the concatenation of the lists. */
  lemma {:induction false} ParseFileListAppend(a: seq<string>, b: seq<string>)
    ensures ParseFileList(a + b) == ParseFileList(a) + ParseFileList(b)
  {
    if b == [] {
      assert a + b == a;
    } else {
      var m := |b| - 1;
      assert (a + b)[..|a + b| - 1] == a + b[..m];
      assert (a + b)[|a + b| - 1] == b[m];
      ParseFileListAppend(a, b[..m]);
    }
  }

  /** The file list is empty exactly when every line is blank. */
  lemma {:induction false} BlankTextNoFiles(lines: seq<string>)
    ensures ParseFileList(lines) == [] <==> forall j :: 0 <= j < |lines| ==> AllSpace(lines[j])
  {
    if forall j :: 0 <= j < |lines| ==> AllSpace(lines[j]) {
      if lines != [] {
        var m := |lines| - 1;
        assert forall j :: 0 <= j < m ==> lines[..m][j] == lines[j];
        BlankTextNoFiles(lines[..m]);
        StripEmpty(lines[m]);
      }
    }
    if ParseFileList(lines) == [] {
      ParseFileListExact(lines);
      forall j | 0 <= j < |lines| ensures AllSpace(lines[j]) {
        StripEmpty(lines[j]);
      }
    }
  }

  /** Newline translation keeps a text whitespace exactly when it was. */
  lemma {:induction false} TranslateKeepsSpace(s: string)
    ensures AllSpace(Translate(s)) <==> AllSpace(s)
  {
    if s != [] {
      var d := if s[0] == '\r' && |s| > 1 && s[1] == '\n' then 2 else 1;
      var head := if s[0] == '\r' then "\n" else [s[0]];
      TranslateFirst(s);
      FirstStepSpace(s, d, head);
      TranslateKeepsSpace(s[d..]);
      AllSpaceAppend(head, Translate(s[d..]));
      AllSpaceAppend(s[..d], s[d..]);
    }
  }

  /** One step of the translation: the first character, or a "\r\n" pair, becomes `head`. */
  lemma TranslateFirst(s: string)
    requires s != []
    ensures var d := if s[0] == '\r' && |s| > 1 && s[1] == '\n' then 2 else 1;
            var head := if s[0] == '\r' then "\n" else [s[0]];
            && Translate(s) == head + Translate(s[d..])
            && s == s[..d] + s[d..]
  {
    var d := if s[0] == '\r' && |s| > 1 && s[1] == '\n' then 2 else 1;
    assert s == s[..d] + s[d..];
  }

  /** The characters one step replaces are whitespace exactly when their replacement is. */
  lemma FirstStepSpace(s: string, d: nat, head: string)
    requires 0 < d <= |s|
    requires s[0] == '\r' ==> head == "\n" && forall k :: 0 <= k < d ==> s[k] == '\r' || s[k] == '\n'
    requires s[0] != '\r' ==> head == s[..d]
    ensures AllSpace(head) <==> AllSpace(s[..d])
  {
    if s[0] == '\r' {
      LineBreakSpace(s[..d]);
      CarriageReturnNewlineSpace();
    }
  }

  /** A text of line-break characters only is whitespace. */
  lemma LineBreakSpace(s: string)
    requires forall k :: 0 <= k < |s| ==> s[k] == '\r' || s[k] == '\n'
    ensures AllSpace(s)
  {
    CarriageReturnNewlineSpace();
  }

  /** "\r" and "\n" are whitespace, and so are the texts "\n", "\r" and "\r\n". */
  lemma CarriageReturnNewlineSpace()
    ensures IsSpace('\r') && IsSpace('\n')
    ensures AllSpace("\n") && AllSpace("\r") && AllSpace("\r\n")
  {
    assert "\r\n"[0] == '\r' && "\r\n"[1] == '\n';
  }

  /** A concatenation is whitespace exactly when each of its lines is. */
  lemma {:induction false} ConcatSpaceLines(ls: seq<string>)
    ensures AllSpace(Concat(ls)) <==> forall j :: 0 <= j < |ls| ==> AllSpace(ls[j])
  {
    if ls != [] {
      AllSpaceAppend(ls[0], Concat(ls[1..]));
      ConcatSpaceLines(ls[1..]);
      assert forall j :: 1 <= j < |ls| ==> ls[j] == ls[1..][j - 1];
    }
  }

  /**
   * The list file gives no entries exactly when it holds nothing but
   * whitespace (or nothing at all).
   */
  lemma BlankFileNoFiles(text: string)
    ensures FileListFromText(text) == [] <==> AllSpace(text)
  {
    TranslateKeepsSpace(text);
    ConcatSpaceLines(Lines(Translate(text)));
    BlankTextNoFiles(Lines(Translate(text)));
  }
}
