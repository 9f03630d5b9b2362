/** `_limit` of app/runbooks.py: a text over `max` words is split at blank
    lines, then at word boundaries, and the pieces are packed greedily. */
module Packing {
  import opened Common
  import opened Decimal
  import opened Whitespace

  datatype Section = Section(heading: string, content: string)

  // ---- Splitting at blank lines: the pattern \n\s*\n -------------------------

  function LastNewline(s: string): (n: int)
    ensures -1 <= n < |s|
    ensures n >= 0 ==> s[n] == '\n'
    ensures forall i | n < i < |s| :: s[i] != '\n'
  {
    if |s| == 0 then -1
    else if s[|s| - 1] == '\n' then |s| - 1
    else LastNewline(s[..|s| - 1])
  }

  /** The length of the match at the start of `s`, or 0: a newline, all the
      white space after it, back to its last newline. */
  function Gap(s: string): (n: nat)
    requires |s| > 0
    ensures n <= |s|
  {
    if s[0] != '\n' then 0
    else
      var last := LastNewline(s[1..1 + SpaceRun(s[1..])]);
      if last < 0 then 0 else last + 2
  }

  /** Where the first match at or after `i` starts. */
  function GapFrom(s: string, i: nat): (j: nat)
    requires i <= |s|
    ensures i <= j <= |s|
    ensures j < |s| ==> Gap(s[j..]) > 0
    ensures forall k | i <= k < j :: Gap(s[k..]) == 0
    decreases |s| - i
  {
    if i == |s| || Gap(s[i..]) > 0 then i else GapFrom(s, i + 1)
  }

  /** `re.split(r"\n\s*\n", s)` */
  function Paragraphs(s: string): (paragraphs: seq<string>)
    decreases |s|
  {
    var i := GapFrom(s, 0);
    if i == |s| then [s] else [s[..i]] + Paragraphs(s[i..][Gap(s[i..])..])
  }

  /** A line of white space alone, between two line ends. */
  ghost predicate HasBlankLine(s: string) {
    exists i, j | 0 <= i < j < |s| :: s[i] == '\n' && s[j] == '\n' && Blank(s[i..j])
  }

  lemma GapIsBlank(s: string)
    requires |s| > 0 && Gap(s) > 0
    ensures Blank(s[..Gap(s)])
  {
    var run := SpaceRun(s[1..]);
    assert Blank(s[1..][..run]);
    forall i | 0 <= i < Gap(s) ensures Space(s[i]) {
      if i > 0 { assert s[i] == s[1..][..run][i - 1]; }
    }
    hide SpaceRun;
  }

  lemma {:induction false} RunAtLeast(s: string, n: nat)
    requires n <= |s| && Blank(s[..n])
    ensures SpaceRun(s) >= n
  {
    if n > 0 {
      assert Space(s[..n][0]);
      assert s[1..][..n - 1] == s[..n][1..];
      RunAtLeast(s[1..], n - 1);
    }
  }

  /** A blank line is a match. */
  lemma BlankLineIsGap(s: string, j: nat)
    requires 0 < j < |s| && s[0] == '\n' && s[j] == '\n' && Blank(s[..j])
    ensures Gap(s) > 0
  {
    assert Space('\n');
    forall i | 0 <= i < j ensures Space(s[1..][..j][i]) {
      if i < j - 1 { assert s[1..][..j][i] == s[..j][i + 1]; }
    }
    RunAtLeast(s[1..], j);
    assert s[1..1 + SpaceRun(s[1..])][j - 1] == '\n';
  }

  lemma {:induction false} ParagraphsHaveNoBlankLine(s: string)
    ensures forall i | 0 <= i < |Paragraphs(s)| :: !HasBlankLine(Paragraphs(s)[i])
    decreases |s|
  {
    var i := GapFrom(s, 0);
    FirstParagraph(s);
    assert i == |s| ==> s[..i] == s;
    hide HasBlankLine, Gap;
    if i < |s| { ParagraphsHaveNoBlankLine(s[i..][Gap(s[i..])..]); }
  }

  /** The paragraphs with what stands between them. */
  function Woven(paragraphs: seq<string>, gaps: seq<string>): string
    requires |paragraphs| == |gaps| + 1
  {
    if |gaps| == 0 then paragraphs[0] else paragraphs[0] + (gaps[0] + Woven(paragraphs[1..], gaps[1..]))
  }

  /** A blank line or more: a newline, white space and a newline. */
  ghost predicate IsGap(gap: string) {
    |gap| >= 2 && gap[0] == '\n' && gap[|gap| - 1] == '\n' && Blank(gap)
  }

  /** A text whose leading white space has no newline: none of a gap before it
      is left over. */
  ghost predicate StartsOnLine(s: string) {
    forall j | 0 <= j < |s| && s[j] == '\n' :: !Blank(s[..j])
  }

  lemma GapIsWhole(s: string)
    requires |s| > 0 && Gap(s) > 0
    ensures IsGap(s[..Gap(s)]) && StartsOnLine(s[Gap(s)..])
  {
    GapIsBlank(s);
    var run, gap := SpaceRun(s[1..]), Gap(s);
    assert s[1..1 + run][gap - 2] == s[gap - 1];
    var rest := s[gap..];
    forall j | 0 <= j < |rest| && rest[j] == '\n' ensures !Blank(rest[..j]) {
      if Blank(rest[..j]) { NoNewlineLeft(s, j); }
    }
    hide SpaceRun;
  }

  lemma LastReaches(t: string, run: nat, k: nat)
    requires k < run <= |t| && t[k] == '\n'
    ensures LastNewline(t[..run]) >= k
  {
    assert t[..run][k] == '\n';
    hide LastNewline;
  }

  /** White space after a gap is white space from the start. */
  lemma BlankSoFar(s: string, j: nat)
    requires |s| > 0 && Gap(s) > 0 && Gap(s) + j < |s| && Blank(s[Gap(s)..][..j])
    ensures SpaceRun(s[1..]) >= Gap(s) + j - 1
  {
    GapIsBlank(s);
    var gap, k, t := Gap(s), Gap(s) + j - 1, s[1..];
    forall i | 0 <= i < k ensures Space(t[..k][i]) {
      assert t[..k][i] == s[i + 1];
      if i + 1 < gap { assert s[i + 1] == s[..gap][i + 1]; }
      else { assert s[i + 1] == s[gap..][..j][i + 1 - gap]; }
    }
    hide Gap, SpaceRun;
    RunAtLeast(t, k);
  }

  lemma NoNewlineLeft(s: string, j: nat)
    requires |s| > 0 && Gap(s) > 0 && Gap(s) + j < |s| && Blank(s[Gap(s)..][..j])
    ensures s[Gap(s) + j] != '\n'
  {
    if s[Gap(s) + j] == '\n' {
      BlankSoFar(s, j);
      var run, k := SpaceRun(s[1..]), Gap(s) + j - 1;
      assert s[1..][k] == '\n' && Space('\n');
      assert run > k;
      assert s[1..][..run] == s[1..1 + run];
      LastReaches(s[1..], run, k);
    }
  }

  lemma StartsOnLinePrefix(s: string, n: nat)
    requires StartsOnLine(s) && n <= |s|
    ensures StartsOnLine(s[..n])
  {
    forall j | 0 <= j < n && s[..n][j] == '\n' ensures !Blank(s[..n][..j]) { assert s[..n][..j] == s[..j]; }
  }

  /** The paragraphs are the text cut at its blank lines, nothing else lost: put
      back between them, the gaps give the text, and each gap is as long as it
      can be. */
  lemma ParagraphsStep(s: string)
    ensures var i := GapFrom(s, 0);
            if i == |s| then Paragraphs(s) == [s]
            else Gap(s[i..]) > 0 && Paragraphs(s) == [s[..i]] + Paragraphs(s[i..][Gap(s[i..])..])
  {
    hide Gap, GapFrom;
  }

  lemma {:induction false} ParagraphsAreCut(s: string) returns (gaps: seq<string>)
    ensures |Paragraphs(s)| == |gaps| + 1 && Woven(Paragraphs(s), gaps) == s
    ensures forall i | 0 <= i < |gaps| :: IsGap(gaps[i])
    ensures forall i | 1 <= i < |Paragraphs(s)| :: StartsOnLine(Paragraphs(s)[i])
    ensures StartsOnLine(s) ==> StartsOnLine(Paragraphs(s)[0])
    decreases |s|
  {
    hide *;
    var i := GapFrom(s, 0);
    ParagraphsStep(s);
    if i == |s| {
      gaps := [];
      OneWoven(s);
    } else {
      var first, t := s[..i], s[i..];
      var gap, rest := t[..Gap(t)], t[Gap(t)..];
      GapIsWhole(t);
      var more := ParagraphsAreCut(rest);
      gaps := [gap] + more;
      CutAt(s, i);
      CutAt(t, Gap(t));
      WovenOneMore(first, gap, Paragraphs(rest), more);
      if StartsOnLine(s) { StartsOnLinePrefix(s, i); }
    }
  }

  lemma OneWoven(s: string)
    ensures Woven([s], []) == s
  {
  }

  lemma WovenOneMore(first: string, gap: string, paragraphs: seq<string>, gaps: seq<string>)
    requires |paragraphs| == |gaps| + 1
    ensures Woven([first] + paragraphs, [gap] + gaps) == first + (gap + Woven(paragraphs, gaps))
  {
    assert ([first] + paragraphs)[1..] == paragraphs && ([gap] + gaps)[1..] == gaps;
  }

  lemma FirstParagraph(s: string)
    ensures !HasBlankLine(s[..GapFrom(s, 0)])
  {
    hide Gap, Space;
    var n := GapFrom(s, 0);
    var p := s[..n];
    if HasBlankLine(p) {
      var i, j :| 0 <= i < j < |p| && p[i] == '\n' && p[j] == '\n' && Blank(p[i..j]);
      assert s[i..][..j - i] == p[i..j];
      BlankLineIsGap(s[i..], j - i);
    }
  }

  lemma {:induction false} ParagraphsKeepWords(s: string)
    ensures WordsOfAll(Paragraphs(s)) == Words(s)
    decreases |s|
  {
    var i := GapFrom(s, 0);
    if i == |s| {
      WordsOfOne(s);
    } else {
      var t := s[i..];
      var gap, rest := t[..Gap(t)], t[Gap(t)..];
      GapIsBlank(t);
      ParagraphsKeepWords(rest);
      assert Paragraphs(s) == [s[..i]] + Paragraphs(rest);
      hide *;
      CutAt(s, i);
      CutAt(t, |gap|);
      Grouped(s[..i], gap, rest);
      WordsAround(s[..i], gap, rest);
      TextsInTwo([s[..i]], Paragraphs(rest));
      WordsOfOne(s[..i]);
    }
  }

  // ---- Pieces ---------------------------------------------------------------

  /** The words in runs of `max`, the last one shorter. */
  function Chunks(words: seq<string>, max: nat): seq<seq<string>>
    requires max > 0
  {
    if words == [] then []
    else if |words| <= max then [words]
    else [words[..max]] + Chunks(words[max..], max)
  }

  function JoinAll(chunks: seq<seq<string>>): seq<string> {
    seq(|chunks|, i requires 0 <= i < |chunks| => Join(chunks[i], " "))
  }

  function PiecesOf(paragraph: string, max: nat): seq<string>
    requires max > 0
  {
    if |Words(paragraph)| <= max then [paragraph] else JoinAll(Chunks(Words(paragraph), max))
  }

  function Pieces(paragraphs: seq<string>, max: nat): seq<string>
    requires max > 0
  {
    if paragraphs == [] then []
    else Pieces(paragraphs[..|paragraphs| - 1], max) + PiecesOf(paragraphs[|paragraphs| - 1], max)
  }

  ghost predicate AllWithin(texts: seq<string>, max: nat) {
    forall i | 0 <= i < |texts| :: |Words(texts[i])| <= max
  }

  ghost predicate AllWords(words: seq<string>) {
    forall i | 0 <= i < |words| :: IsWord(words[i])
  }

  lemma ChunkReads(words: seq<string>)
    requires AllWords(words)
    ensures Words(Join(words, " ")) == words
  {
    assert Space(' ');
    hide *;
    WordsOfJoin(words, " ");
    WordsOfWords(words);
  }

  lemma ChunksFirst(words: seq<string>, max: nat)
    requires max > 0 && words != []
    ensures var n := if |words| <= max then |words| else max;
            Chunks(words, max) == [words[..n]] + Chunks(words[n..], max)
  {
    if |words| <= max {
      assert words[..|words|] == words && words[|words|..] == [];
      assert [words] + [] == [words];
    }
  }

  lemma JoinFirst(first: seq<string>, more: seq<seq<string>>)
    ensures JoinAll([first] + more) == [Join(first, " ")] + JoinAll(more)
  {
    hide Join;
  }

  lemma WordsInParts(words: seq<string>, n: nat)
    requires AllWords(words) && n <= |words|
    ensures AllWords(words[..n]) && AllWords(words[n..])
  {
    hide IsWord;
  }

  lemma FirstChunk(words: seq<string>, max: nat)
    requires max > 0 && words != [] && AllWords(words)
    ensures var n := if |words| <= max then |words| else max;
            JoinAll(Chunks(words, max)) == [Join(words[..n], " ")] + JoinAll(Chunks(words[n..], max))
            && AllWords(words[..n]) && AllWords(words[n..])
  {
    hide *;
    var n := if |words| <= max then |words| else max;
    ChunksFirst(words, max);
    JoinFirst(words[..n], Chunks(words[n..], max));
    WordsInParts(words, n);
  }

  lemma {:induction false} ChunksKeepWords(words: seq<string>, max: nat)
    requires max > 0 && AllWords(words)
    ensures WordsOfAll(JoinAll(Chunks(words, max))) == words
    ensures AllWithin(JoinAll(Chunks(words, max)), max)
  {
    hide Chunks, Join, Words, WordsOfAll, JoinAll, AllWords;
    if words == [] {
      NoChunks(max);
    } else {
      var n := if |words| <= max then |words| else max;
      FirstChunk(words, max);
      ChunksKeepWords(words[n..], max);
      TextsInTwo([Join(words[..n], " ")], JoinAll(Chunks(words[n..], max)));
      WordsOfOne(Join(words[..n], " "));
      ChunkReads(words[..n]);
      CutAt(words, n);
    }
  }

  lemma NoChunks(max: nat)
    requires max > 0
    ensures JoinAll(Chunks([], max)) == [] && WordsOfAll([]) == []
  {
  }

  lemma {:induction false} PiecesKeepWords(paragraphs: seq<string>, max: nat)
    requires max > 0
    ensures WordsOfAll(Pieces(paragraphs, max)) == WordsOfAll(paragraphs)
    ensures AllWithin(Pieces(paragraphs, max), max)
  {
    hide Words, Pieces, PiecesOf, WordsOfAll, AllWithin;
    if |paragraphs| == 0 {
      NoPieces(paragraphs, max);
    } else {
      var n := |paragraphs| - 1;
      var front, last := paragraphs[..n], paragraphs[n];
      PiecesKeepWords(front, max);
      PiecesOfKeepWords(last, max);
      LastPieces(paragraphs, max);
      TextsInTwo(Pieces(front, max), PiecesOf(last, max));
      OneMoreText(front, last);
      WithinInTwo(Pieces(front, max), PiecesOf(last, max), max);
    }
  }

  lemma LastPieces(paragraphs: seq<string>, max: nat)
    requires max > 0 && |paragraphs| > 0
    ensures var n := |paragraphs| - 1;
            paragraphs == paragraphs[..n] + [paragraphs[n]]
            && Pieces(paragraphs, max) == Pieces(paragraphs[..n], max) + PiecesOf(paragraphs[n], max)
  {
    hide PiecesOf;
  }

  lemma NoPieces(none: seq<string>, max: nat)
    requires max > 0 && |none| == 0
    ensures Pieces(none, max) == [] && AllWithin([], max) && WordsOfAll(none) == [] && WordsOfAll([]) == []
  {
  }

  lemma WithinInTwo(a: seq<string>, b: seq<string>, max: nat)
    requires AllWithin(a, max) && AllWithin(b, max)
    ensures AllWithin(a + b, max)
  {
    hide Words;
  }

  lemma PiecesOfKeepWords(paragraph: string, max: nat)
    requires max > 0
    ensures WordsOfAll(PiecesOf(paragraph, max)) == Words(paragraph)
    ensures AllWithin(PiecesOf(paragraph, max), max)
  {
    assert AllWords(Words(paragraph));
    hide Words, Chunks, JoinAll, WordsOfAll;
    ChunksKeepWords(Words(paragraph), max);
    WordsOfOne(paragraph);
  }

  // ---- Greedy packing -----------------------------------------------------------

  function Total(group: seq<string>): nat {
    |WordsOfAll(group)|
  }

  function Flatten(groups: seq<seq<string>>): seq<string> {
    if groups == [] then [] else groups[0] + Flatten(groups[1..])
  }

  /** The parts still to come, with `current` open and `rest` to place. */
  function Packed(current: seq<string>, rest: seq<string>, max: nat): seq<seq<string>>
    decreases |rest|
  {
    if rest == [] then if current == [] then [] else [current]
    else if current != [] && Total(current) + |Words(rest[0])| > max then
      [current] + Packed([rest[0]], rest[1..], max)
    else Packed(current + [rest[0]], rest[1..], max)
  }

  ghost predicate Within(groups: seq<seq<string>>, max: nat) {
    forall i | 0 <= i < |groups| :: Total(groups[i]) <= max
  }

  lemma TotalOneMore(group: seq<string>, text: string)
    ensures Total(group + [text]) == Total(group) + |Words(text)|
  {
    OneMoreText(group, text);
  }

  lemma TotalOfOne(text: string)
    ensures Total([text]) == |Words(text)|
  {
    WordsOfOne(text);
  }

  /** Nothing is lost, repeated or reordered, and no part is over `max`. */
  lemma {:induction false} PackedKeepsAll(current: seq<string>, rest: seq<string>, max: nat)
    requires Total(current) <= max && AllWithin(rest, max)
    ensures Flatten(Packed(current, rest, max)) == current + rest
    ensures Within(Packed(current, rest, max), max)
    decreases |rest|
  {
    hide Words, WordsOfAll, Total, Packed, Within, Flatten, AllWithin;
    if |rest| == 0 {
      LastPart(current, rest, max);
    } else {
      NextPiece(current, rest, max);
      if |current| > 0 && Total(current) + |Words(rest[0])| > max {
        PackedKeepsAll([rest[0]], rest[1..], max);
        GroupAhead(current, Packed([rest[0]], rest[1..], max), max);
      } else {
        PackedKeepsAll(current + [rest[0]], rest[1..], max);
        Grouped(current, [rest[0]], rest[1..]);
      }
    }
  }

  lemma LastPart(current: seq<string>, rest: seq<string>, max: nat)
    requires |rest| == 0 && Total(current) <= max
    ensures Flatten(Packed(current, rest, max)) == current + rest && Within(Packed(current, rest, max), max)
  {
    hide Total;
    if |current| > 0 { OneGroup([current]); }
  }

  /** How packing goes on with the first piece left. */
  lemma NextPiece(current: seq<string>, rest: seq<string>, max: nat)
    requires |rest| > 0 && AllWithin(rest, max)
    ensures rest == [rest[0]] + rest[1..] && AllWithin(rest[1..], max)
    ensures Packed(current, rest, max)
            == if |current| > 0 && Total(current) + |Words(rest[0])| > max
               then [current] + Packed([rest[0]], rest[1..], max)
               else Packed(current + [rest[0]], rest[1..], max)
    ensures Total([rest[0]]) <= max
    ensures |current| == 0 || Total(current) + |Words(rest[0])| <= max ==> Total(current + [rest[0]]) <= max
  {
    hide Words, WordsOfAll, Total;
    TotalOfOne(rest[0]);
    TotalOneMore(current, rest[0]);
    if |current| == 0 { assert current + [rest[0]] == [rest[0]]; }
  }

  lemma GroupAhead(group: seq<string>, groups: seq<seq<string>>, max: nat)
    requires Total(group) <= max && Within(groups, max)
    ensures Flatten([group] + groups) == group + Flatten(groups) && Within([group] + groups, max)
  {
    hide Total;
    assert ([group] + groups)[1..] == groups;
  }

  /** No part could also take the first piece of the next. */
  ghost predicate Full(parts: seq<seq<string>>, max: nat) {
    && (forall i | 0 <= i < |parts| :: parts[i] != [])
    && (forall i | 0 <= i < |parts| - 1 :: Total(parts[i]) + |Words(parts[i + 1][0])| > max)
  }

  lemma {:induction false} PackedIsFull(current: seq<string>, rest: seq<string>, max: nat)
    ensures Full(Packed(current, rest, max), max)
    ensures current + rest != [] ==>
              Packed(current, rest, max) != []
              && Packed(current, rest, max)[0] != [] && Packed(current, rest, max)[0][0] == (current + rest)[0]
    decreases |rest|
  {
    hide Words, Total;
    if rest == [] {
    } else if current != [] && Total(current) + |Words(rest[0])| > max {
      PackedIsFull([rest[0]], rest[1..], max);
      var tail := Packed([rest[0]], rest[1..], max);
      assert tail[0][0] == rest[0];
      forall i | 0 <= i < |[current] + tail| - 1
        ensures Total(([current] + tail)[i]) + |Words(([current] + tail)[i + 1][0])| > max
      {
        if i > 0 { assert ([current] + tail)[i] == tail[i - 1] && ([current] + tail)[i + 1] == tail[i]; }
      }
    } else {
      PackedIsFull(current + [rest[0]], rest[1..], max);
      assert (current + [rest[0]] + rest[1..])[0] == (current + rest)[0];
    }
  }

  lemma TotalOfPart(a: seq<string>, b: seq<string>, c: seq<string>)
    ensures Total(a + b + c) >= Total(b)
  {
    TextsInTwo(a + b, c);
    TextsInTwo(a, b);
    hide WordsOfAll;
  }

  /** However the same pieces, and any before them, are grouped in order with
      no group over `max`, there are at least as many groups. */
  lemma {:induction false} PackedIsFewest(before: seq<string>, current: seq<string>, rest: seq<string>, max: nat,
                                          groups: seq<seq<string>>)
    requires Within(groups, max) && Flatten(groups) == before + (current + rest)
    ensures |Packed(current, rest, max)| <= |groups|
    decreases |rest|
  {
    hide Words, WordsOfAll, Total;
    if rest == [] {
      assert groups == [] ==> Flatten(groups) == [];
    } else if current != [] && Total(current) + |Words(rest[0])| > max {
      var more := SkipGroup(before, current, rest, max, groups);
      assert [rest[0]] + rest[1..] == rest;
      PackedIsFewest(more, [rest[0]], rest[1..], max, groups[1..]);
    } else {
      assert current + [rest[0]] + rest[1..] == current + rest;
      PackedIsFewest(before, current + [rest[0]], rest[1..], max, groups);
    }
  }

  /** The first group ends before `rest`: it cannot hold `current` and more. */
  lemma SkipGroup(before: seq<string>, current: seq<string>, rest: seq<string>, max: nat, groups: seq<seq<string>>)
    returns (more: seq<string>)
    requires Within(groups, max) && Flatten(groups) == before + (current + rest)
    requires rest != [] && Total(current) + |Words(rest[0])| > max
    ensures groups != [] && Within(groups[1..], max) && Flatten(groups[1..]) == more + rest
  {
    assert groups != [];
    var first, others := groups[0], Flatten(groups[1..]);
    var all := before + current;
    assert first + others == all + rest;
    if |first| > |all| {
      var tail := first[|all| + 1..];
      assert first == before + (current + [rest[0]]) + tail by {
        assert (first + others)[..|first|] == first;
        assert first[|all|] == rest[0];
        assert first[..|all|] == all;
      }
      TotalOfPart(before, current + [rest[0]], tail);
      TotalOneMore(current, rest[0]);
      assert false;
    }
    more := all[|first|..];
    assert others == (first + others)[|first|..] == (all + rest)[|first|..] == more + rest;
  }

  // ---- _limit --------------------------------------------------------------------

  function NumberedHeading(heading: string, n: nat, count: nat): string {
    heading + " (" + NatText(n) + "/" + NatText(count) + ")"
  }

  function PartSections(heading: string, parts: seq<seq<string>>): seq<Section> {
    seq(|parts|, i requires 0 <= i < |parts| =>
      Section(NumberedHeading(heading, i + 1, |parts|), Join(parts[i], "\n\n")))
  }

  function Parts(content: string, max: nat): seq<seq<string>>
    requires max > 0
  {
    Packed([], Pieces(Paragraphs(content), max), max)
  }

  function Limited(heading: string, content: string, max: nat): seq<Section>
    requires max > 0
  {
    if |Words(content)| <= max then [Section(heading, content)]
    else PartSections(heading, Parts(content, max))
  }

  function Contents(sections: seq<Section>): seq<string> {
    seq(|sections|, i requires 0 <= i < |sections| => sections[i].content)
  }

  lemma {:induction false} PartsKeepWords(parts: seq<seq<string>>, joined: seq<string>)
    requires |joined| == |parts| && forall i | 0 <= i < |parts| :: joined[i] == Join(parts[i], "\n\n")
    ensures WordsOfAll(joined) == WordsOfAll(Flatten(parts))
  {
    if parts != [] {
      assert Space('\n') && Blank("\n\n");
      hide Words, WordsOfAll, Join, Space;
      WordsOfJoin(parts[0], "\n\n");
      PartsKeepWords(parts[1..], joined[1..]);
      WordsOfFirst(joined);
      TextsInTwo(parts[0], Flatten(parts[1..]));
    }
  }

  lemma PartsWithin(heading: string, parts: seq<seq<string>>, max: nat)
    requires Within(parts, max)
    ensures AllWithin(Contents(PartSections(heading, parts)), max)
  {
    assert Space('\n') && Blank("\n\n");
    var contents := Contents(PartSections(heading, parts));
    assert |contents| == |parts|;
    hide Words, WordsOfAll, Join, NumberedHeading, Space;
    forall i | 0 <= i < |contents| ensures |Words(contents[i])| <= max {
      assert contents[i] == Join(parts[i], "\n\n");
      WordsOfJoin(parts[i], "\n\n");
      assert Total(parts[i]) <= max;
    }
  }

  lemma AllParts(content: string, max: nat)
    requires max > 0
    ensures Within(Parts(content, max), max) && WordsOfAll(Flatten(Parts(content, max))) == Words(content)
  {
    var pieces := Pieces(Paragraphs(content), max);
    ParagraphsKeepWords(content);
    PiecesKeepWords(Paragraphs(content), max);
    assert [] + pieces == pieces && Total([]) == 0;
    hide Words, WordsOfAll, Pieces, Paragraphs, Packed;
    PackedKeepsAll([], pieces, max);
  }

  lemma PartContents(heading: string, parts: seq<seq<string>>)
    ensures var c := Contents(PartSections(heading, parts));
            |c| == |parts| && forall i | 0 <= i < |parts| :: c[i] == Join(parts[i], "\n\n")
  {
    hide NumberedHeading, Join;
  }

  /** The sections hold the content's words, in order, none over `max`. */
  lemma LimitKeepsWords(heading: string, content: string, max: nat)
    requires max > 0
    ensures WordsOfAll(Contents(Limited(heading, content, max))) == Words(content)
    ensures AllWithin(Contents(Limited(heading, content, max)), max)
  {
    if |Words(content)| <= max {
      assert Contents(Limited(heading, content, max)) == [content];
      WordsOfOne(content);
    } else {
      var parts := Parts(content, max);
      assert Limited(heading, content, max) == PartSections(heading, parts);
      hide *;
      AllParts(content, max);
      PartsWithin(heading, parts, max);
      PartContents(heading, parts);
      PartsKeepWords(parts, Contents(PartSections(heading, parts)));
    }
  }

  /** A text is split only into two parts or more. */
  lemma PartsAreMany(content: string, max: nat)
    requires max > 0 && |Words(content)| > max
    ensures |Parts(content, max)| >= 2
  {
    hide Words, WordsOfAll, Parts;
    AllParts(content, max);
    var parts := Parts(content, max);
    if |parts| == 1 {
      OneGroup(parts);
    } else if |parts| == 0 {
      NoneFlat();
    }
  }

  lemma OneGroup(groups: seq<seq<string>>)
    requires |groups| == 1
    ensures Flatten(groups) == groups[0]
  {
    assert groups[1..] == [] && groups[0] + [] == groups[0];
  }

  lemma NoneFlat()
    ensures WordsOfAll(Flatten([])) == []
  {
  }

  /** The packing is optimal: every way of grouping the pieces in order, no
      group over `max`, takes at least as many parts; and no part could also
      take the first piece of the next. */
  lemma PackingIsOptimal(content: string, max: nat, groups: seq<seq<string>>)
    requires max > 0 && Within(groups, max) && Flatten(groups) == Pieces(Paragraphs(content), max)
    ensures |Parts(content, max)| <= |groups|
    ensures Full(Parts(content, max), max)
    ensures Flatten(Parts(content, max)) == Flatten(groups) && Within(Parts(content, max), max)
  {
    var pieces := Pieces(Paragraphs(content), max);
    assert [] + ([] + pieces) == pieces && [] + pieces == pieces;
    PiecesKeepWords(Paragraphs(content), max);
    PackedKeepsAll([], pieces, max);
    PackedIsFull([], pieces, max);
    PackedIsFewest([], [], pieces, max, groups);
  }

  // ---- The loops of _limit ---------------------------------------------------------

  lemma NextChunk(words: seq<string>, i: nat, max: nat)
    requires max > 0 && i < |words|
    ensures var end := if i + max <= |words| then i + max else |words|;
            JoinAll(Chunks(words[i..], max)) == [Join(words[i..end], " ")] + JoinAll(Chunks(words[end..], max))
  {
    hide *;
    var rest := words[i..];
    var end := if i + max <= |words| then i + max else |words|;
    ChunksFirst(rest, max);
    assert rest[..end - i] == words[i..end] && rest[end - i..] == words[end..];
    JoinFirst(words[i..end], Chunks(words[end..], max));
  }

  lemma NextPieces(paragraphs: seq<string>, k: nat, max: nat)
    requires max > 0 && k < |paragraphs|
    ensures Pieces(paragraphs[..k + 1], max) == Pieces(paragraphs[..k], max) + PiecesOf(paragraphs[k], max)
  {
    assert paragraphs[..k + 1][..k] == paragraphs[..k];
    hide PiecesOf;
  }

  /** The words of a long paragraph, cut. */
  method CutWords(words: seq<string>, max: nat) returns (pieces: seq<string>)
    requires max > 0
    ensures pieces == JoinAll(Chunks(words, max))
  {
    hide Chunks, JoinAll, Join;
    pieces := [];
    var i := 0;
    assert words[0..] == words && [] + JoinAll(Chunks(words, max)) == JoinAll(Chunks(words, max));
    while i < |words|
      invariant pieces + JoinAll(Chunks(words[if i <= |words| then i else |words|..], max))
                == JoinAll(Chunks(words, max))
    {
      NextChunk(words, i, max);
      var end := if i + max <= |words| then i + max else |words|;
      Grouped(pieces, [Join(words[i..end], " ")], JoinAll(Chunks(words[end..], max)));
      pieces := pieces + [Join(words[i..end], " ")];
      i := i + max;
    }
    NothingCut(words[|words|..], max);
    assert pieces + [] == pieces;
  }

  lemma NothingCut(words: seq<string>, max: nat)
    requires max > 0 && |words| == 0
    ensures JoinAll(Chunks(words, max)) == []
  {
  }

  method CutPieces(content: string, max: nat) returns (pieces: seq<string>)
    requires max > 0
    ensures pieces == Pieces(Paragraphs(content), max)
  {
    var paragraphs := Paragraphs(content);
    pieces := [];
    for k := 0 to |paragraphs|
      invariant pieces == Pieces(paragraphs[..k], max)
    {
      hide Words, Chunks, JoinAll, Paragraphs, Pieces;
      var words := Words(paragraphs[k]);
      if |words| <= max {
        pieces := pieces + [paragraphs[k]];
      } else {
        var more := CutWords(words, max);
        pieces := pieces + more;
      }
      NextPieces(paragraphs, k, max);
    }
    assert paragraphs[..|paragraphs|] == paragraphs;
  }

  function PartTexts(groups: seq<seq<string>>): seq<string> {
    seq(|groups|, i requires 0 <= i < |groups| => Join(groups[i], "\n\n"))
  }

  lemma OneMorePart(groups: seq<seq<string>>, group: seq<string>)
    ensures PartTexts(groups + [group]) == PartTexts(groups) + [Join(group, "\n\n")]
  {
    hide Join;
  }

  lemma PlaceNext(current: seq<string>, pieces: seq<string>, k: nat, max: nat)
    requires k < |pieces|
    ensures Packed(current, pieces[k..], max)
            == if current != [] && Total(current) + |Words(pieces[k])| > max
               then [current] + Packed([pieces[k]], pieces[k + 1..], max)
               else Packed(current + [pieces[k]], pieces[k + 1..], max)
  {
    hide Words, Total;
    assert pieces[k..][1..] == pieces[k + 1..];
  }

  method Pack(pieces: seq<string>, max: nat) returns (parts: seq<string>)
    ensures parts == PartTexts(Packed([], pieces, max))
  {
    parts := [];
    var current: seq<string>, size := [], 0;
    ghost var groups: seq<seq<string>> := [];
    assert pieces[0..] == pieces;
    assert Total([]) == 0;
    for k := 0 to |pieces|
      invariant size == Total(current)
      invariant parts == PartTexts(groups)
      invariant groups + Packed(current, pieces[k..], max) == Packed([], pieces, max)
    {
      hide Words, Total, Packed, PartTexts, Join;
      var n := |Words(pieces[k])|;
      PlaceNext(current, pieces, k, max);
      if |current| > 0 && size + n > max {
        OneMorePart(groups, current);
        Grouped(groups, [current], Packed([pieces[k]], pieces[k + 1..], max));
        groups := groups + [current];
        parts := parts + [Join(current, "\n\n")];
        current, size := [], 0;
        assert [] + [pieces[k]] == [pieces[k]];
        TotalOfOne(pieces[k]);
      }
      TotalOneMore(current, pieces[k]);
      current := current + [pieces[k]];
      size := size + n;
    }
    if |current| > 0 {
      OneMorePart(groups, current);
      parts := parts + [Join(current, "\n\n")];
    }
  }

  method Limit(heading: string, content: string, max: nat) returns (sections: seq<Section>)
    requires max > 0
    ensures sections == Limited(heading, content, max)
  {
    if |Words(content)| <= max { return [Section(heading, content)]; }
    var pieces := CutPieces(content, max);
    var parts := Pack(pieces, max);
    hide Words, Packed, Pieces, Paragraphs, NumberedHeading, Join;
    sections := seq(|parts|, i requires 0 <= i < |parts| =>
                  Section(NumberedHeading(heading, i + 1, |parts|), parts[i]));
  }
}
