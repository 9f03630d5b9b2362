/** `split_sections` of app/runbooks.py: Markdown to sections at its headings. */
module Runbooks {
  import opened Common
  import opened Decimal
  import opened Whitespace
  import opened Packing

  // ---- Lines ------------------------------------------------------------------

  /** The ends of lines `str.splitlines` knows; "\r\n" is one. */
  predicate LineBreak(c: char) {
    var n := c as int;
    10 <= n <= 13 || 28 <= n <= 30 || n == 0x85 || n == 0x2028 || n == 0x2029
  }

  function LineLength(s: string): (n: nat)
    ensures n <= |s|
    ensures forall i | 0 <= i < n :: !LineBreak(s[i])
    ensures n < |s| ==> LineBreak(s[n])
  {
    if |s| > 0 && !LineBreak(s[0]) then 1 + LineLength(s[1..]) else 0
  }

  function BreakLength(s: string): (n: nat)
    requires |s| > 0
    ensures 0 < n <= |s|
  {
    if |s| > 1 && s[0] == '\r' && s[1] == '\n' then 2 else 1
  }

  /** `s.splitlines()` */
  function SplitLines(s: string): seq<string>
    decreases |s|
  {
    var n := LineLength(s);
    if |s| == 0 then []
    else if n == |s| then [s]
    else [s[..n]] + SplitLines(s[n..][BreakLength(s[n..])..])
  }

  lemma BreakIsBlank(s: string)
    requires |s| > 0 && LineBreak(s[0])
    ensures Blank(s[..BreakLength(s)])
  {
  }

  lemma {:induction false} LinesKeepWords(s: string)
    ensures WordsOfAll(SplitLines(s)) == Words(s)
    decreases |s|
  {
    var n := LineLength(s);
    if |s| == 0 {
    } else if n == |s| {
      WordsOfOne(s);
    } else {
      var t := s[n..];
      var end, rest := t[..BreakLength(t)], t[BreakLength(t)..];
      BreakIsBlank(t);
      LinesKeepWords(rest);
      assert SplitLines(s) == [s[..n]] + SplitLines(rest);
      hide *;
      CutAt(s, n);
      CutAt(t, |end|);
      Grouped(s[..n], end, rest);
      WordsAround(s[..n], end, rest);
      TextsInTwo([s[..n]], SplitLines(rest));
      WordsOfOne(s[..n]);
    }
  }

  /** A line feed, a carriage return, vertical tab, form feed, the separators of
      ASCII and of Unicode, and next line. */
  ghost predicate EndsLine(c: char) {
    c == '\n' || c == '\r' || c as int in {11, 12, 28, 29, 30, 0x85, 0x2028, 0x2029}
  }

  /** The lines, each with its end; the last may have none. */
  function Lined(lines: seq<string>, ends: seq<string>): string
    requires |ends| <= |lines| <= |ends| + 1
  {
    if |lines| == 0 then ""
    else if |ends| == 0 then lines[0]
    else lines[0] + (ends[0] + Lined(lines[1..], ends[1..]))
  }

  /** A line's end: "\r\n", or one character of those; "\r" only where no "\n"
      follows. */
  ghost predicate IsEnd(end: string, rest: string) {
    || (|end| == 2 && end[0] == '\r' && end[1] == '\n')
    || (|end| == 1 && EndsLine(end[0]) && !(end[0] == '\r' && |rest| > 0 && rest[0] == '\n'))
  }

  ghost predicate OnLine(line: string) {
    forall i | 0 <= i < |line| :: !EndsLine(line[i])
  }

  /** Every end is one, before what follows it. */
  ghost predicate EndsRight(lines: seq<string>, ends: seq<string>)
    requires |ends| <= |lines| <= |ends| + 1
  {
    forall i | 0 <= i < |ends| :: IsEnd(ends[i], Lined(lines[i + 1..], ends[i + 1..]))
  }

  lemma LineBreaks(c: char)
    ensures LineBreak(c) <==> EndsLine(c)
  {
  }

  lemma FirstLine(s: string)
    requires LineLength(s) < |s|
    ensures var n := LineLength(s);
            var t := s[n..];
            OnLine(s[..n]) && IsEnd(t[..BreakLength(t)], t[BreakLength(t)..])
  {
    hide LineLength, LineBreak, EndsLine;
    var n := LineLength(s);
    var t := s[n..];
    forall i | 0 <= i < n ensures !EndsLine(s[i]) { LineBreaks(s[i]); }
    LineBreaks(t[0]);
    assert t[..1] == [t[0]];
    assert |t| > 1 ==> t[1..][0] == t[1] && t[..2] == [t[0], t[1]];
  }

  /** The lines are the text cut at the ends of lines: put back, they give the
      text; no line has one of them in it; and a last line without an end is
      not empty. */
  lemma {:induction false} LinesAreCut(s: string) returns (ends: seq<string>)
    ensures |ends| <= |SplitLines(s)| <= |ends| + 1
    ensures Lined(SplitLines(s), ends) == s && EndsRight(SplitLines(s), ends)
    ensures forall i | 0 <= i < |SplitLines(s)| :: OnLine(SplitLines(s)[i])
    ensures |SplitLines(s)| > |ends| ==> |SplitLines(s)[|ends|]| > 0
    decreases |s|
  {
    var n := LineLength(s);
    if |s| == 0 {
      ends := [];
    } else if n == |s| {
      ends := [];
      forall i | 0 <= i < n ensures !EndsLine(s[i]) { LineBreaks(s[i]); }
    } else {
      var t := s[n..];
      var end, rest := t[..BreakLength(t)], t[BreakLength(t)..];
      var line := s[..n];
      FirstLine(s);
      var more := LinesAreCut(rest);
      ends := [end] + more;
      assert SplitLines(s) == [line] + SplitLines(rest);
      hide *;
      CutAt(s, n);
      CutAt(t, |end|);
      LinedOneMore(line, end, SplitLines(rest), more);
    }
  }

  lemma LinedOneMore(line: string, end: string, lines: seq<string>, ends: seq<string>)
    requires |ends| <= |lines| <= |ends| + 1 && EndsRight(lines, ends) && IsEnd(end, Lined(lines, ends))
    ensures Lined([line] + lines, [end] + ends) == line + (end + Lined(lines, ends))
    ensures EndsRight([line] + lines, [end] + ends)
  {
    hide IsEnd;
    var a, b := [line] + lines, [end] + ends;
    assert a[1..] == lines && b[1..] == ends;
    forall i | 0 <= i < |b| ensures IsEnd(b[i], Lined(a[i + 1..], b[i + 1..])) {
      if i > 0 { assert a[i + 1..] == lines[i..] && b[i + 1..] == ends[i..]; }
    }
    hide EndsRight;
  }

  // ---- The patterns -------------------------------------------------------------

  datatype Heading = Heading(level: nat, text: string)

  function Run(s: string, c: char): (n: nat)
    ensures n <= |s|
    ensures forall i | 0 <= i < n :: s[i] == c
    ensures n < |s| ==> s[n] != c
  {
    if |s| > 0 && s[0] == c then 1 + Run(s[1..], c) else 0
  }

  /** ^ {0,3}(```|~~~) */
  predicate IsFence(line: string) {
    var s := line[Run(line, ' ')..];
    Run(line, ' ') <= 3 && (Run(s, '`') >= 3 || Run(s, '~') >= 3)
  }

  /** \s*#*\s*$ */
  predicate IsTail(s: string) {
    var t := s[SpaceRun(s)..];
    var u := t[Run(t, '#')..];
    SpaceRun(u) == |u|
  }

  /** The shortest text of at least `n` characters that a tail follows. */
  function TextLength(s: string, n: nat): (k: nat)
    requires n <= |s|
    ensures n <= k <= |s| && IsTail(s[k..])
    ensures forall j | n <= j < k :: !IsTail(s[j..])
    decreases |s| - n
  {
    if n == |s| || IsTail(s[n..]) then n else TextLength(s, n + 1)
  }

  /** ^ {0,3}(#{1,6})\s+(.+?)\s*#*\s*$ : when nothing but white space follows
      the marks, its last character is the text. */
  function HeadingOf(line: string): Option<Heading> {
    var s := line[Run(line, ' ')..];
    var level := Run(s, '#');
    var t := s[level..];
    var w := SpaceRun(t);
    if Run(line, ' ') > 3 || level < 1 || level > 6 || w == 0 then None
    else if w < |t| then Some(Heading(level, t[w..][..TextLength(t[w..], 1)]))
    else if w > 1 then Some(Heading(level, t[w - 1..]))
    else None
  }

  lemma RunIs(s: string, c: char, n: nat)
    requires n <= |s| && (forall i | 0 <= i < n :: s[i] == c) && (n < |s| ==> s[n] != c)
    ensures Run(s, c) == n
  {
  }

  lemma BlankPrefix(s: string, m: nat)
    requires m <= |s| && Blank(s[..m])
    ensures forall i | 0 <= i < m :: Space(s[i])
  {
    hide Space;
    forall i | 0 <= i < m ensures Space(s[i]) { assert s[..m][i] == s[i]; }
  }

  lemma SpaceRunIs(s: string, n: nat)
    requires n <= |s| && (forall i | 0 <= i < n :: Space(s[i])) && (n < |s| ==> !Space(s[n]))
    ensures SpaceRun(s) == n
  {
    hide Space;
    BlankPrefix(s, SpaceRun(s));
  }

  function Repeated(c: char, n: nat): (s: string)
    ensures |s| == n && forall i | 0 <= i < n :: s[i] == c
  {
    seq(n, i requires 0 <= i < n => c)
  }

  lemma TailChars(s: string, k: nat)
    requires k < |s| && IsTail(s)
    ensures Space(s[k]) || s[k] == '#'
  {
    hide Space;
    var a := SpaceRun(s);
    var t := s[a..];
    var b := Run(t, '#');
    var u := t[b..];
    if k < a {
      assert s[..a][k] == s[k];
    } else if k < a + b {
      assert s[k] == t[k - a];
    } else {
      assert s[k] == u[k - a - b] == u[..SpaceRun(u)][k - a - b];
    }
  }

  lemma TextLengthIs(text: string, tail: string)
    requires |text| > 0 && IsTail(tail)
    requires !Space(text[|text| - 1]) && text[|text| - 1] != '#'
    ensures TextLength(text + tail, 1) == |text|
  {
    var s := text + tail;
    assert s[|text|..] == tail;
    forall j | 1 <= j < |text| ensures !IsTail(s[j..]) {
      assert s[j..][|text| - 1 - j] == text[|text| - 1];
      if IsTail(s[j..]) { TailChars(s[j..], |text| - 1 - j); }
    }
    hide IsTail;
  }

  lemma SplitRun(s: string, c: char, n: nat, rest: string)
    requires s == Repeated(c, n) + rest && (|rest| > 0 ==> rest[0] != c)
    ensures Run(s, c) == n && s[n..] == rest
  {
    RunIs(s, c, n);
  }

  lemma SplitSpaceRun(s: string, gap: string, rest: string)
    requires s == gap + rest && Blank(gap) && (|rest| > 0 ==> !Space(rest[0]))
    ensures SpaceRun(s) == |gap| && s[|gap|..] == rest
  {
    hide Space;
    SpaceRunIs(s, |gap|);
  }

  /** The parts a heading is read in. */
  lemma HeadingIs(line: string, n: nat, s: string, level: nat, t: string, w: nat, u: string)
    requires n <= |line| && Run(line, ' ') == n <= 3 && line[n..] == s
    requires level <= |s| && Run(s, '#') == level && 1 <= level <= 6 && s[level..] == t
    requires w < |t| && SpaceRun(t) == w > 0 && t[w..] == u
    ensures HeadingOf(line) == Some(Heading(level, u[..TextLength(u, 1)]))
  {
    hide Run, SpaceRun, TextLength;
  }

  lemma HeadingStarts(level: nat, gap: string, text: string, tail: string)
    requires level > 0 && |gap| > 0 && Blank(gap) && |text| > 0 && !Space(text[0])
    ensures var t := gap + (text + tail);
            var s := Repeated('#', level) + t;
            && |t| > 0 && t[0] != '#' && |s| > 0 && s[0] == '#'
            && |text + tail| > 0 && !Space((text + tail)[0]) && (text + tail)[..|text|] == text
  {
    assert Space(gap[0]);
  }

  /** A heading's level and text are read from every spelling of it. */
  lemma HeadingReads(indent: nat, level: nat, gap: string, text: string, tail: string)
    requires indent <= 3 && 1 <= level <= 6 && Blank(gap) && |gap| > 0 && IsTail(tail)
    requires |text| > 0 && !Space(text[0]) && !Space(text[|text| - 1]) && text[|text| - 1] != '#'
    ensures HeadingOf(Repeated(' ', indent) + (Repeated('#', level) + (gap + (text + tail))))
            == Some(Heading(level, text))
  {
    hide *;
    var u := text + tail;
    var t := gap + u;
    var s := Repeated('#', level) + t;
    var line := Repeated(' ', indent) + s;
    HeadingStarts(level, gap, text, tail);
    SplitRun(line, ' ', indent, s);
    SplitRun(s, '#', level, t);
    SplitSpaceRun(t, gap, u);
    TextLengthIs(text, tail);
    HeadingIs(line, indent, s, level, t, |gap|, u);
  }

  /** Marks with nothing but white space after them: the last of it is the
      text, if there are two or more. */
  lemma BlankHeadingReads(indent: nat, level: nat, gap: string)
    requires indent <= 3 && 1 <= level <= 6 && Blank(gap)
    ensures HeadingOf(Repeated(' ', indent) + (Repeated('#', level) + gap))
            == if |gap| > 1 then Some(Heading(level, gap[|gap| - 1..])) else None
  {
    var s := Repeated('#', level) + gap;
    var line := Repeated(' ', indent) + s;
    assert s[0] == '#' && (|gap| > 0 ==> Space(gap[0])) && !Space('#');
    assert gap == gap + "";
    hide Repeated, TextLength, Run, SpaceRun, Space;
    SplitRun(line, ' ', indent, s);
    SplitRun(s, '#', level, gap);
    SplitSpaceRun(gap, gap, "");
  }

  /** Three marks, after at most three spaces, make a fence, whatever follows. */
  lemma FenceReads(indent: nat, mark: char, rest: string)
    requires indent <= 3 && (mark == '`' || mark == '~')
    ensures IsFence(Repeated(' ', indent) + ([mark, mark, mark] + rest))
  {
    var s := [mark, mark, mark] + rest;
    var line := Repeated(' ', indent) + s;
    assert s[0] == mark && s[1] == mark && s[2] == mark;
    SplitRun(line, ' ', indent, s);
    hide Repeated;
    assert Run(s, mark) >= 3;
    hide Run;
  }

  /** Only such lines are fences. */
  lemma OnlyFences(line: string) returns (indent: nat, mark: char, rest: string)
    requires IsFence(line)
    ensures indent <= 3 && (mark == '`' || mark == '~')
    ensures line == Repeated(' ', indent) + ([mark, mark, mark] + rest)
  {
    indent := Run(line, ' ');
    var s := line[indent..];
    mark := if Run(s, '`') >= 3 then '`' else '~';
    rest := s[3..];
    assert s == [mark, mark, mark] + rest;
    RunSplits(line, ' ');
    hide Run, Repeated;
  }

  lemma RunSplits(s: string, c: char)
    ensures s == Repeated(c, Run(s, c)) + s[Run(s, c)..]
  {
    assert s[..Run(s, c)] == Repeated(c, Run(s, c));
    CutAt(s, Run(s, c));
  }

  lemma TailReads(before: string, marks: nat, after: string)
    requires Blank(before) && Blank(after)
    ensures IsTail(before + (Repeated('#', marks) + after))
  {
    var u := Repeated('#', marks) + after;
    var s := before + u;
    assert !Space('#') && after == after + "";
    assert |after| > 0 ==> Space(after[0]);
    if marks > 0 {
      assert u[0] == '#';
      hide Space, Repeated, Run, SpaceRun;
      SplitSpaceRun(s, before, u);
      SplitRun(u, '#', marks, after);
      SplitSpaceRun(after, after, "");
    } else {
      assert u == after && s == s + "";
      hide Space, Repeated, Run, SpaceRun;
      SplitSpaceRun(s, s, "");
    }
  }

  lemma TailSplits(s: string) returns (before: string, marks: nat, after: string)
    requires IsTail(s)
    ensures Blank(before) && Blank(after) && s == before + (Repeated('#', marks) + after)
  {
    before := s[..SpaceRun(s)];
    var t := s[SpaceRun(s)..];
    marks := Run(t, '#');
    after := t[marks..];
    CutAt(s, SpaceRun(s));
    RunSplits(t, '#');
    assert after[..SpaceRun(after)] == after;
    hide Space, Repeated, Run, SpaceRun;
  }

  /** A tail is white space, marks and white space, each or all of it absent. */
  lemma TailIs(s: string)
    ensures IsTail(s) <==> exists before, marks, after ::
              Blank(before) && Blank(after) && s == before + (Repeated('#', marks) + after)
  {
    hide Blank, IsTail, Repeated;
    if IsTail(s) { var before, marks, after := TailSplits(s); }
    if exists before, marks, after :: Blank(before) && Blank(after) && s == before + (Repeated('#', marks) + after) {
      var before, marks, after :| Blank(before) && Blank(after) && s == before + (Repeated('#', marks) + after);
      TailReads(before, marks, after);
    }
  }

  /** Only such lines are headings. */
  lemma OnlyHeadings(line: string) returns (indent: nat, gap: string, tail: string)
    requires HeadingOf(line).Some?
    ensures var h := HeadingOf(line).value;
            indent <= 3 && 1 <= h.level <= 6 && Blank(gap) && |gap| > 0 && |h.text| > 0 && IsTail(tail)
            && line == Repeated(' ', indent) + (Repeated('#', h.level) + (gap + (h.text + tail)))
  {
    hide Space, IsTail, Repeated, SpaceRun, Run, TextLength;
    indent := Run(line, ' ');
    var s := line[indent..];
    var level := Run(s, '#');
    var t := s[level..];
    var text := HeadingOf(line).value.text;
    assert HeadingOf(line).value.level == level && indent <= 3 && 1 <= level <= 6;
    assert SpaceRun(t) > 0 && (SpaceRun(t) == |t| ==> |t| > 1);
    assert text == if SpaceRun(t) < |t| then t[SpaceRun(t)..][..TextLength(t[SpaceRun(t)..], 1)]
                   else t[SpaceRun(t) - 1..];
    hide *;
    RunSplits(line, ' ');
    RunSplits(s, '#');
    gap, tail := HeadingTail(t);
  }

  /** What follows the marks: a gap, the text and the tail. */
  lemma HeadingTail(t: string) returns (gap: string, tail: string)
    requires SpaceRun(t) > 0 && (SpaceRun(t) == |t| ==> |t| > 1)
    ensures var w := SpaceRun(t);
            var text := if w < |t| then t[w..][..TextLength(t[w..], 1)] else t[w - 1..];
            Blank(gap) && |gap| > 0 && |text| > 0 && IsTail(tail) && t == gap + (text + tail)
  {
    var w := SpaceRun(t);
    if w < |t| {
      var n := TextLength(t[w..], 1);
      gap, tail := t[..w], t[w..][n..];
      CutAt(t, w);
      CutAt(t[w..], n);
    } else {
      gap, tail := t[..w - 1], "";
      assert forall i | 0 <= i < |gap| :: gap[i] == t[..w][i];
      CutAt(t, w - 1);
      assert t[w - 1..] + "" == t[w - 1..];
    }
    hide Space;
  }

  // ---- What each line is ------------------------------------------------------------

  /** A runbook to split; `fold` is `str.casefold`. */
  datatype Doc = Doc(title: string, lines: seq<string>, fold: string -> string)

  datatype Kind = Body | Repeat | Head(heading: Heading)

  /** How many of the first `n` lines open or close a fenced block. */
  function Fences(lines: seq<string>, n: nat): nat
    requires n <= |lines|
  {
    if n == 0 then 0 else Fences(lines, n - 1) + (if IsFence(lines[n - 1]) then 1 else 0)
  }

  /** Is a fenced block open after the first `n` lines? */
  predicate InFence(lines: seq<string>, n: nat)
    requires n <= |lines|
  {
    Fences(lines, n) % 2 == 1
  }

  lemma FenceToggles(lines: seq<string>, i: nat)
    requires i < |lines|
    ensures InFence(lines, i + 1) == (InFence(lines, i) != IsFence(lines[i]))
  {
    hide IsFence;
  }

  predicate IsRepeat(d: Doc, h: Heading) {
    h.level == 1 && d.fold(Strip(h.text)) == d.fold(d.title)
  }

  function KindAt(d: Doc, i: nat): Kind
    requires i < |d.lines|
  {
    if InFence(d.lines, i + 1) then Body
    else
      match HeadingOf(d.lines[i])
      case None => Body
      case Some(h) => if IsRepeat(d, h) then Repeat else Head(h)
  }

  // ---- The heading path: its look-back definition ---------------------------------------

  /** Line `j` is a heading that no later heading before line `i` closes: all
      of those are of a lower rank. */
  predicate IsOpen(d: Doc, i: nat, j: nat)
    requires j < i <= |d.lines|
  {
    KindAt(d, j).Head? &&
    forall k | j < k < i && KindAt(d, k).Head? :: KindAt(d, k).heading.level > KindAt(d, j).heading.level
  }

  /** The headings among the first `j` lines that are open at line `i`. */
  function OpenAmong(d: Doc, i: nat, j: nat): seq<Heading>
    requires j <= i <= |d.lines|
  {
    if j == 0 then []
    else OpenAmong(d, i, j - 1) + (if IsOpen(d, i, j - 1) then [KindAt(d, j - 1).heading] else [])
  }

  function PathAt(d: Doc, i: nat): seq<Heading>
    requires i <= |d.lines|
  {
    OpenAmong(d, i, i)
  }

  /** `[(lvl, h) for lvl, h in path if lvl < level]` */
  function Above(path: seq<Heading>, level: nat): seq<Heading> {
    if path == [] then []
    else
      var last := path[|path| - 1];
      Above(path[..|path| - 1], level) + (if last.level < level then [last] else [])
  }

  lemma AboveOneMore(path: seq<Heading>, h: Heading, level: nat)
    ensures Above(path + [h], level) == Above(path, level) + (if h.level < level then [h] else [])
  {
    assert (path + [h])[..|path|] == path;
  }

  lemma OpenStep(d: Doc, i: nat, j: nat)
    requires j < i < |d.lines|
    ensures IsOpen(d, i + 1, j)
            <==> IsOpen(d, i, j)
                 && (KindAt(d, i).Head? ==> KindAt(d, j).heading.level < KindAt(d, i).heading.level)
    ensures IsOpen(d, i, j) ==> KindAt(d, j).Head?
  {
    hide KindAt;
  }

  lemma {:induction false} OpenAmongStep(d: Doc, i: nat, j: nat)
    requires j <= i < |d.lines|
    ensures OpenAmong(d, i + 1, j)
            == if KindAt(d, i).Head? then Above(OpenAmong(d, i, j), KindAt(d, i).heading.level) else OpenAmong(d, i, j)
  {
    hide IsOpen, KindAt;
    if j > 0 {
      OpenAmongStep(d, i, j - 1);
      OpenStep(d, i, j - 1);
      var before := OpenAmong(d, i, j - 1);
      assert before + [] == before;
      if KindAt(d, i).Head? {
        var level := KindAt(d, i).heading.level;
        assert Above(before, level) + [] == Above(before, level);
        if IsOpen(d, i, j - 1) { AboveOneMore(before, KindAt(d, j - 1).heading, level); }
      }
      hide Above;
    }
  }

  /** What one line does to the path: the code's stack step. */
  lemma PathStep(d: Doc, i: nat)
    requires i < |d.lines|
    ensures PathAt(d, i + 1)
            == if KindAt(d, i).Head? then Above(PathAt(d, i), KindAt(d, i).heading.level) + [KindAt(d, i).heading]
               else PathAt(d, i)
  {
    hide KindAt, Above;
    OpenAmongStep(d, i, i);
    assert IsOpen(d, i + 1, i) <==> KindAt(d, i).Head?;
  }

  ghost predicate Rises(path: seq<Heading>) {
    forall a, b | 0 <= a < b < |path| :: path[a].level < path[b].level
  }

  /** These are some of the path's headings, all above the level. */
  ghost predicate AllAbove(above: seq<Heading>, path: seq<Heading>, level: nat) {
    forall k | 0 <= k < |above| :: above[k].level < level && above[k] in path
  }

  lemma LastRises(above: seq<Heading>, front: seq<Heading>, last: Heading, level: nat)
    requires Rises(front + [last]) && Rises(above) && AllAbove(above, front, level) && last.level < level
    ensures Rises(above + [last]) && AllAbove(above + [last], front + [last], level)
  {
    var path := front + [last];
    forall k | 0 <= k < |above| ensures above[k].level < last.level {
      var a :| 0 <= a < |front| && front[a] == above[k];
      assert path[a] == front[a] && path[|front|] == last;
    }
  }

  lemma RisesBefore(front: seq<Heading>, last: Heading)
    requires Rises(front + [last])
    ensures Rises(front)
  {
    forall a, b | 0 <= a < b < |front| ensures front[a].level < front[b].level {
      assert (front + [last])[a] == front[a] && (front + [last])[b] == front[b];
    }
  }

  lemma {:induction false} AboveRises(path: seq<Heading>, level: nat)
    requires Rises(path)
    ensures Rises(Above(path, level)) && AllAbove(Above(path, level), path, level)
  {
    if path != [] {
      hide Above, Rises;
      var front, last := path[..|path| - 1], path[|path| - 1];
      assert path == front + [last];
      RisesBefore(front, last);
      AboveRises(front, level);
      AboveOneMore(front, last, level);
      if last.level < level {
        LastRises(Above(front, level), front, last, level);
      } else {
        assert Above(front, level) + [] == Above(front, level);
      }
    }
  }

  /** The levels of a path strictly increase. */
  lemma {:induction false} PathRises(d: Doc, i: nat)
    requires i <= |d.lines|
    ensures Rises(PathAt(d, i))
  {
    hide PathAt, KindAt, Above;
    if i == 0 {
      NoPathYet(d);
    } else {
      PathRises(d, i - 1);
      PathStep(d, i - 1);
      if KindAt(d, i - 1).Head? {
        AboveRises(PathAt(d, i - 1), KindAt(d, i - 1).heading.level);
        OneMoreRises(Above(PathAt(d, i - 1), KindAt(d, i - 1).heading.level), KindAt(d, i - 1).heading);
      }
    }
  }

  lemma NoPathYet(d: Doc)
    ensures PathAt(d, 0) == []
  {
  }

  lemma OneMoreRises(path: seq<Heading>, h: Heading)
    requires Rises(path) && forall k | 0 <= k < |path| :: path[k].level < h.level
    ensures Rises(path + [h])
  {
  }

  /** Until the next heading, every line has the same path. */
  lemma {:induction false} PathUntilHeading(d: Doc, j: nat, i: nat)
    requires j <= i <= |d.lines| && forall k | j <= k < i :: !KindAt(d, k).Head?
    ensures PathAt(d, j) == PathAt(d, i)
    decreases i - j
  {
    hide KindAt, PathAt;
    if j < i {
      PathUntilHeading(d, j, i - 1);
      PathStep(d, i - 1);
    }
  }

  // ---- The sections ----------------------------------------------------------------------

  function Texts(path: seq<Heading>): seq<string> {
    seq(|path|, i requires 0 <= i < |path| => path[i].text)
  }

  function HeadingText(title: string, path: seq<Heading>): string {
    Join([title] + Texts(path), " > ")
  }

  /** The title, then the text of each heading on the path after " > ". */
  function PathText(title: string, path: seq<Heading>): string {
    if path == [] then title else PathText(title, path[..|path| - 1]) + " > " + path[|path| - 1].text
  }

  /** A section's name is its document's title and the path to it. */
  lemma {:induction false} HeadingTextIs(title: string, path: seq<Heading>)
    ensures HeadingText(title, path) == PathText(title, path)
  {
    if path == [] {
      assert [title] + Texts(path) == [title];
    } else {
      var front, last := path[..|path| - 1], path[|path| - 1];
      HeadingTextIs(title, front);
      assert [title] + Texts(path) == ([title] + Texts(front)) + [last.text];
      JoinOneMore([title] + Texts(front), last.text, " > ");
    }
  }

  lemma {:induction false} JoinOneMore(parts: seq<string>, last: string, separator: string)
    requires |parts| > 0
    ensures Join(parts + [last], separator) == Join(parts, separator) + separator + last
  {
    if |parts| == 1 {
      assert (parts + [last])[1..] == [last];
    } else {
      assert (parts + [last])[1..] == parts[1..] + [last];
      JoinOneMore(parts[1..], last, separator);
      hide Join;
      Regrouped(parts[0], separator, Join(parts[1..], separator), last);
    }
  }

  lemma Regrouped(a: string, separator: string, b: string, c: string)
    ensures a + separator + (b + separator + c) == (a + separator + b) + separator + c
  {
  }

  /** The lines kept before line `i`: all but headings and repeated titles. */
  function BodyLines(d: Doc, i: nat): seq<string>
    requires i <= |d.lines|
  {
    if i == 0 then []
    else BodyLines(d, i - 1) + (if KindAt(d, i - 1).Body? then [d.lines[i - 1]] else [])
  }

  /** Those of them since the last heading. */
  function BodySince(d: Doc, i: nat): seq<string>
    requires i <= |d.lines|
  {
    if i == 0 || KindAt(d, i - 1).Head? then []
    else BodySince(d, i - 1) + (if KindAt(d, i - 1).Body? then [d.lines[i - 1]] else [])
  }

  function SectionsFrom(heading: string, lines: seq<string>, max: nat): seq<Section>
    requires max > 0
  {
    var content := Strip(Join(lines, "\n"));
    if |content| == 0 then [] else Limited(heading, content, max)
  }

  /** The sections of the lines that end before line `i`. */
  function SectionsAt(d: Doc, i: nat, max: nat): seq<Section>
    requires i <= |d.lines| && max > 0
  {
    SectionsFrom(HeadingText(d.title, PathAt(d, i)), BodySince(d, i), max)
  }

  /** The sections the headings before line `i` have ended. */
  function Ended(d: Doc, i: nat, max: nat): seq<Section>
    requires i <= |d.lines| && max > 0
  {
    if i == 0 then []
    else Ended(d, i - 1, max) + (if KindAt(d, i - 1).Head? then SectionsAt(d, i - 1, max) else [])
  }

  function AllSections(d: Doc, max: nat): seq<Section>
    requires max > 0
  {
    Ended(d, |d.lines|, max) + SectionsAt(d, |d.lines|, max)
  }

  // ---- Words are conserved, and no section is over max -----------------------------------

  lemma ContentsInTwo(a: seq<Section>, b: seq<Section>)
    ensures Contents(a + b) == Contents(a) + Contents(b)
  {
  }

  lemma SectionsKeepWords(heading: string, lines: seq<string>, max: nat)
    requires max > 0
    ensures WordsOfAll(Contents(SectionsFrom(heading, lines, max))) == WordsOfAll(lines)
    ensures AllWithin(Contents(SectionsFrom(heading, lines, max)), max)
  {
    assert Blank("\n") by { assert Space('\n'); }
    var joined := Join(lines, "\n");
    WordsOfJoin(lines, "\n");
    WordsOfStrip(joined);
    if |Strip(joined)| == 0 {
      assert Contents([]) == [] && WordsOfAll([]) == [];
    } else {
      LimitKeepsWords(heading, Strip(joined), max);
    }
    hide Words, WordsOfAll, Join, Strip, Limited, Space;
  }

  lemma JoinedWords(a: seq<Section>, b: seq<Section>, max: nat)
    requires AllWithin(Contents(a), max) && AllWithin(Contents(b), max)
    ensures WordsOfAll(Contents(a + b)) == WordsOfAll(Contents(a)) + WordsOfAll(Contents(b))
    ensures AllWithin(Contents(a + b), max)
  {
    ContentsInTwo(a, b);
    TextsInTwo(Contents(a), Contents(b));
    hide Words, WordsOfAll;
  }

  lemma {:induction false} WordsSoFar(d: Doc, i: nat, max: nat)
    requires i <= |d.lines| && max > 0
    ensures WordsOfAll(Contents(Ended(d, i, max))) + WordsOfAll(BodySince(d, i)) == WordsOfAll(BodyLines(d, i))
    ensures AllWithin(Contents(Ended(d, i, max)), max)
  {
    hide Words, WordsOfAll, SectionsAt, PathAt, KindAt, Contents, AllWithin;
    if i == 0 {
      NothingSoFar(max);
    } else {
      WordsSoFar(d, i - 1, max);
      var ended, since, kept := Ended(d, i - 1, max), BodySince(d, i - 1), BodyLines(d, i - 1);
      if KindAt(d, i - 1).Head? {
        SectionsAtKeepWords(d, i - 1, max);
        JoinedWords(ended, SectionsAt(d, i - 1, max), max);
        NothingAdded(WordsOfAll(Contents(Ended(d, i, max))));
      } else if KindAt(d, i - 1).Body? {
        LineAdded(WordsOfAll(Contents(ended)), since, kept, d.lines[i - 1]);
      }
      hide *;
      assert ended + [] == ended && since + [] == since && kept + [] == kept;
    }
  }

  lemma NothingSoFar(max: nat)
    ensures WordsOfAll(Contents([])) + WordsOfAll([]) == WordsOfAll([]) && AllWithin(Contents([]), max)
  {
  }

  lemma LineAdded(words: seq<string>, since: seq<string>, kept: seq<string>, line: string)
    requires words + WordsOfAll(since) == WordsOfAll(kept)
    ensures words + WordsOfAll(since + [line]) == WordsOfAll(kept + [line])
  {
    hide Words, WordsOfAll;
    OneMoreText(since, line);
    OneMoreText(kept, line);
    Grouped(words, WordsOfAll(since), Words(line));
  }

  lemma SectionsAtKeepWords(d: Doc, i: nat, max: nat)
    requires i <= |d.lines| && max > 0
    ensures WordsOfAll(Contents(SectionsAt(d, i, max))) == WordsOfAll(BodySince(d, i))
    ensures AllWithin(Contents(SectionsAt(d, i, max)), max)
  {
    hide PathAt, BodySince, SectionsFrom, WordsOfAll, Contents, AllWithin, HeadingText;
    SectionsKeepWords(HeadingText(d.title, PathAt(d, i)), BodySince(d, i), max);
  }

  lemma NothingAdded(words: seq<string>)
    ensures words + WordsOfAll([]) == words
  {
  }

  /** The words of all sections, in order, are those of the lines that are
      neither headings nor the repeated title; no section is over `max`. */
  lemma SplitKeepsWords(d: Doc, max: nat)
    requires max > 0
    ensures WordsOfAll(Contents(AllSections(d, max))) == WordsOfAll(BodyLines(d, |d.lines|))
    ensures AllWithin(Contents(AllSections(d, max)), max)
  {
    var n := |d.lines|;
    hide Words, WordsOfAll, SectionsAt, KindAt, Contents, Ended, BodySince, BodyLines, AllWithin;
    WordsSoFar(d, n, max);
    SectionsAtKeepWords(d, n, max);
    JoinedWords(Ended(d, n, max), SectionsAt(d, n, max), max);
  }

  // ---- What each section is called ----------------------------------------------------------

  lemma SectionsAtAreHeaded(d: Doc, i: nat, max: nat)
    requires i <= |d.lines| && max > 0
    ensures var sections := SectionsAt(d, i, max);
            var whole := HeadingText(d.title, PathAt(d, i));
            var words := |WordsOfAll(BodySince(d, i))|;
            && (words == 0 <==> sections == [])
            && (0 < words <= max ==> |sections| == 1 && sections[0].heading == whole)
            && (words > max ==>
                  |sections| >= 2
                  && forall k | 0 <= k < |sections| ::
                       sections[k].heading == NumberedHeading(whole, k + 1, |sections|))
  {
    hide PathAt, BodySince, Strip, Join, Parts, HeadingText, NumberedHeading, Words, WordsOfAll;
    var joined := Join(BodySince(d, i), "\n");
    assert Blank("\n") by { assert Space('\n'); }
    WordsOfJoin(BodySince(d, i), "\n");
    WordsOfStrip(joined);
    if |Words(Strip(joined))| > max { PartsAreMany(Strip(joined), max); }
  }

  /** The sections of the lines that end before line `i`: none without a word;
      one, under the title and the path there, if it fits; else two or more,
      numbered "(n/total)" in order. */
  lemma SectionsAtAreNamed(d: Doc, i: nat, max: nat)
    requires i <= |d.lines| && max > 0
    ensures var sections := SectionsAt(d, i, max);
            var whole := PathText(d.title, PathAt(d, i));
            var words := |WordsOfAll(BodySince(d, i))|;
            && (words == 0 <==> sections == [])
            && (0 < words <= max ==> |sections| == 1 && sections[0].heading == whole)
            && (words > max ==>
                  |sections| >= 2
                  && forall k | 0 <= k < |sections| ::
                       sections[k].heading
                       == whole + (" (" + (NatText(k + 1) + ("/" + (NatText(|sections|) + ")")))))
  {
    hide PathAt, BodySince, HeadingText, WordsOfAll, NatText, SectionsAt;
    SectionsAtAreHeaded(d, i, max);
    HeadingTextIs(d.title, PathAt(d, i));
    var sections, whole := SectionsAt(d, i, max), PathText(d.title, PathAt(d, i));
    forall k | 0 <= k < |sections| && |WordsOfAll(BodySince(d, i))| > max
      ensures sections[k].heading == whole + (" (" + (NatText(k + 1) + ("/" + (NatText(|sections|) + ")"))))
    {
      NumberedIs(whole, k + 1, |sections|);
    }
    hide NumberedHeading, PathText;
  }

  lemma NumberedIs(whole: string, n: nat, total: nat)
    ensures NumberedHeading(whole, n, total) == whole + (" (" + (NatText(n) + ("/" + (NatText(total) + ")"))))
  {
    hide NatText;
  }

  lemma {:induction false} EndedByHeadings(d: Doc, i: nat, max: nat)
    requires i <= |d.lines| && max > 0
    ensures forall s | s in Ended(d, i, max) ::
              exists k | 0 <= k < i && KindAt(d, k).Head? :: s in SectionsAt(d, k, max)
  {
    hide SectionsAt, KindAt;
    if i > 0 { EndedByHeadings(d, i - 1, max); }
  }

  /** Every section is made of the lines that end at a heading, or at the end
      of the text. */
  lemma EverySectionEnds(d: Doc, max: nat, s: Section)
    requires max > 0 && s in AllSections(d, max)
    ensures s in SectionsAt(d, |d.lines|, max)
            || exists k | 0 <= k < |d.lines| && KindAt(d, k).Head? :: s in SectionsAt(d, k, max)
  {
    hide SectionsAt, Ended, KindAt;
    EndedByHeadings(d, |d.lines|, max);
  }

  /** What line `i` does to each variable of the loop. */
  lemma LineStep(d: Doc, i: nat, max: nat)
    requires i < |d.lines| && max > 0
    ensures var heading := if InFence(d.lines, i + 1) then None else HeadingOf(d.lines[i]);
            if heading.None? then
              PathAt(d, i + 1) == PathAt(d, i) && Ended(d, i + 1, max) == Ended(d, i, max)
              && BodySince(d, i + 1) == BodySince(d, i) + [d.lines[i]]
            else if IsRepeat(d, heading.value) then
              PathAt(d, i + 1) == PathAt(d, i) && Ended(d, i + 1, max) == Ended(d, i, max)
              && BodySince(d, i + 1) == BodySince(d, i)
            else
              PathAt(d, i + 1) == Above(PathAt(d, i), heading.value.level) + [heading.value]
              && Ended(d, i + 1, max)
                 == Ended(d, i, max) + SectionsFrom(HeadingText(d.title, PathAt(d, i)), BodySince(d, i), max)
              && BodySince(d, i + 1) == []
  {
    hide PathAt, HeadingOf, InFence, SectionsFrom, HeadingText, Above, IsRepeat;
    PathStep(d, i);
    assert Ended(d, i, max) + [] == Ended(d, i, max);
  }

  lemma NothingYet(d: Doc, max: nat)
    requires max > 0
    ensures !InFence(d.lines, 0) && PathAt(d, 0) == [] && BodySince(d, 0) == [] && Ended(d, 0, max) == []
  {
  }

  // ---- The loop of split_sections ------------------------------------------------------------

  method SplitSections(title: string, markdown: string, max: nat, fold: string -> string)
    returns (sections: seq<Section>)
    requires max > 0
    ensures sections == AllSections(Doc(title, SplitLines(markdown), fold), max)
  {
    hide SplitLines, PathAt, HeadingOf, IsFence, Strip, SectionsFrom, HeadingText, Above, InFence, KindAt;
    hide BodySince, Ended;
    var all := SplitLines(markdown);
    ghost var d := Doc(title, all, fold);
    NothingYet(d, max);
    var path: seq<Heading>, lines: seq<string>, inFence := [], [], false;
    sections := [];
    for i := 0 to |all|
      invariant inFence == InFence(all, i)
      invariant path == PathAt(d, i)
      invariant lines == BodySince(d, i)
      invariant sections == Ended(d, i, max)
    {
      FenceToggles(all, i);
      LineStep(d, i, max);
      if IsFence(all[i]) { inFence := !inFence; }
      var heading := if inFence then None else HeadingOf(all[i]);
      if heading.Some? && heading.value.level == 1 && fold(Strip(heading.value.text)) == fold(title) {
        continue;
      }
      if heading.Some? {
        var more := Flush(title, path, lines, max);
        sections, lines := sections + more, [];
        path := Above(path, heading.value.level) + [heading.value];
      } else {
        lines := lines + [all[i]];
      }
    }
    var more := Flush(title, path, lines, max);
    sections := sections + more;
  }

  method Flush(title: string, path: seq<Heading>, lines: seq<string>, max: nat) returns (sections: seq<Section>)
    requires max > 0
    ensures sections == SectionsFrom(HeadingText(title, path), lines, max)
  {
    var content := Strip(Join(lines, "\n"));
    sections := [];
    if |content| > 0 {
      sections := Limit(HeadingText(title, path), content, max);
    }
  }
}
