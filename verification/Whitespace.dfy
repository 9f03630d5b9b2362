/** White space and words as Python's `str.split`, `str.strip` and the
    pattern \s know them. */
module Whitespace {
  import opened Common

  predicate Space(c: char) {
    var n := c as int;
    9 <= n <= 13 || 28 <= n <= 32 || n == 0x85 || n == 0xA0 || n == 0x1680 || 0x2000 <= n <= 0x200A
    || n == 0x2028 || n == 0x2029 || n == 0x202F || n == 0x205F || n == 0x3000
  }

  /** The white space of `str.split`, `str.strip` and \s: 29 characters. */
  lemma SpacesAre(c: char)
    ensures Space(c) <==> c as int in {
              0x09, 0x0A, 0x0B, 0x0C, 0x0D, 0x1C, 0x1D, 0x1E, 0x1F, 0x20, 0x85, 0xA0, 0x1680,
              0x2000, 0x2001, 0x2002, 0x2003, 0x2004, 0x2005, 0x2006, 0x2007, 0x2008, 0x2009, 0x200A,
              0x2028, 0x2029, 0x202F, 0x205F, 0x3000}
  {
  }

  ghost predicate Blank(s: string) {
    forall i | 0 <= i < |s| :: Space(s[i])
  }

  ghost predicate IsWord(s: string) {
    |s| > 0 && forall i | 0 <= i < |s| :: !Space(s[i])
  }

  /** How much white space `s` starts with. */
  function SpaceRun(s: string): (n: nat)
    ensures n <= |s| && Blank(s[..n])
    ensures n < |s| ==> !Space(s[n])
  {
    if |s| > 0 && Space(s[0]) then
      assert s[1..][..SpaceRun(s[1..])] == s[1..1 + SpaceRun(s[1..])];
      1 + SpaceRun(s[1..])
    else 0
  }

  function WordRun(s: string): (n: nat)
    ensures n <= |s|
    ensures forall i | 0 <= i < n :: !Space(s[i])
    ensures n < |s| ==> Space(s[n])
  {
    if |s| > 0 && !Space(s[0]) then 1 + WordRun(s[1..]) else 0
  }

  /** `s.split()` */
  function Words(s: string): (words: seq<string>)
    ensures forall i | 0 <= i < |words| :: IsWord(words[i])
    decreases |s|
  {
    if |s| == 0 then []
    else if Space(s[0]) then Words(s[1..])
    else [s[..WordRun(s)]] + Words(s[WordRun(s)..])
  }

  /** How much white space `s` ends with. */
  function SpaceTail(s: string): (n: nat)
    ensures n <= |s| && Blank(s[|s| - n..])
    ensures n < |s| ==> !Space(s[|s| - n - 1])
  {
    if |s| > 0 && Space(s[|s| - 1]) then 1 + SpaceTail(s[..|s| - 1]) else 0
  }

  /** `s.strip()` */
  function Strip(s: string): (r: string)
    ensures |r| > 0 ==> !Space(r[0]) && !Space(r[|r| - 1])
  {
    var t := s[SpaceRun(s)..];
    t[..|t| - SpaceTail(t)]
  }

  /** The words of several texts, in order. */
  function WordsOfAll(texts: seq<string>): seq<string> {
    if texts == [] then [] else WordsOfAll(texts[..|texts| - 1]) + Words(texts[|texts| - 1])
  }

  // ---- Words of texts put together -------------------------------------------

  lemma WordRunIs(s: string, n: nat)
    requires n <= |s| && (forall i | 0 <= i < n :: !Space(s[i])) && (n < |s| ==> Space(s[n]))
    ensures WordRun(s) == n
  {
    hide Space;
  }

  lemma WordFirst(w: string, rest: string)
    requires IsWord(w) && (|rest| > 0 ==> Space(rest[0]))
    ensures Words(w + rest) == [w] + Words(rest)
  {
    hide Space;
    var s := w + rest;
    assert s[0] == w[0];
    WordRunIs(s, |w|);
    assert s[..|w|] == w && s[|w|..] == rest;
  }

  lemma SpaceFirst(c: char, rest: string)
    requires Space(c)
    ensures Words([c] + rest) == Words(rest)
  {
    hide Space;
    assert ([c] + rest)[1..] == rest;
  }

  /** No word runs from `a` into `b`. */
  ghost predicate Apart(a: string, b: string) {
    |a| == 0 || |b| == 0 || Space(a[|a| - 1]) || Space(b[0])
  }

  /** The first word of a text that starts with one. */
  lemma FirstWord(s: string)
    requires |s| > 0 && !Space(s[0])
    ensures var w, t := s[..WordRun(s)], s[WordRun(s)..];
            s == w + t && |t| < |s| && IsWord(w) && (|t| > 0 ==> Space(t[0])) && Words(s) == [w] + Words(t)
  {
    hide Space;
    CutAt(s, WordRun(s));
  }

  lemma {:induction false} WordsInTwo(a: string, b: string)
    requires Apart(a, b)
    ensures Words(a + b) == Words(a) + Words(b)
    decreases |a|
  {
    hide Space, Words, WordRun;
    if |a| == 0 {
      assert a + b == b && Words(a) == [] by { NoWords(); assert a == ""; }
    } else if Space(a[0]) {
      var t := a[1..];
      CutAt(a, 1);
      WordsInTwo(t, b);
      Grouped([a[0]], t, b);
      SpaceFirst(a[0], t);
      SpaceFirst(a[0], t + b);
      assert a[..1] == [a[0]];
    } else {
      FirstWord(a);
      var w, t := a[..WordRun(a)], a[WordRun(a)..];
      WordsInTwo(t, b);
      Grouped(w, t, b);
      Grouped([w], Words(t), Words(b));
      if |t| > 0 { assert (t + b)[0] == t[0]; } else { assert t + b == b; assert a == w; }
      WordFirst(w, t + b);
    }
  }

  lemma NoWords()
    ensures Words("") == []
  {
  }

  lemma {:induction false} BlankHasNoWords(s: string)
    requires Blank(s)
    ensures Words(s) == []
  {
    hide Space;
    if |s| > 0 { BlankHasNoWords(s[1..]); }
  }

  lemma {:induction false} NoWordsIsBlank(s: string)
    requires Words(s) == []
    ensures Blank(s)
  {
    hide Space;
    if |s| > 0 {
      assert Space(s[0]);
      NoWordsIsBlank(s[1..]);
      assert forall i | 1 <= i < |s| :: s[i] == s[1..][i - 1];
    }
  }

  lemma WordsOfWord(w: string)
    requires IsWord(w)
    ensures Words(w) == [w]
  {
    hide Space;
    WordFirst(w, "");
    assert w + "" == w;
  }

  /** White space between two texts keeps their words apart. */
  lemma WordsAround(a: string, gap: string, b: string)
    requires Blank(gap) && |gap| > 0
    ensures Words(a + gap + b) == Words(a) + Words(b)
  {
    assert Space(gap[0]) && Space(gap[|gap| - 1]);
    assert (a + gap)[|a + gap| - 1] == gap[|gap| - 1];
    assert Apart(a, gap) && Apart(a + gap, b);
    hide *;
    WordsInTwo(a + gap, b);
    WordsInTwo(a, gap);
    BlankHasNoWords(gap);
  }

  /** Stripping cuts white space off both ends. */
  lemma StripParts(s: string) returns (front: string, core: string, back: string)
    ensures s == front + (core + back) && core == Strip(s) && Blank(front) && Blank(back)
    ensures |core| > 0 ==> !Space(core[0])
  {
    hide Space;
    var k := SpaceRun(s);
    var t := s[k..];
    var n := |t| - SpaceTail(t);
    front, core, back := s[..k], t[..n], t[n..];
    CutAt(s, k);
    CutAt(t, n);
  }

  lemma BlankApart(gap: string, t: string)
    requires Blank(gap)
    ensures Apart(gap, t) && Apart(t, gap)
  {
    if |gap| > 0 { assert Space(gap[0]) && Space(gap[|gap| - 1]); }
  }

  lemma HasWord(s: string)
    requires |s| > 0 && !Space(s[0])
    ensures |Words(s)| > 0
  {
    FirstWord(s);
    hide *;
  }

  lemma WordsOfStrip(s: string)
    ensures Words(Strip(s)) == Words(s)
    ensures |Strip(s)| == 0 <==> Words(s) == []
  {
    hide *;
    var front, core, back := StripParts(s);
    BlankApart(front, core + back);
    BlankApart(back, core);
    WordsInTwo(front, core + back);
    WordsInTwo(core, back);
    BlankHasNoWords(front);
    BlankHasNoWords(back);
    assert [] + Words(core + back) == Words(core + back) && Words(core) + [] == Words(core);
    if |core| > 0 { HasWord(core); } else { NoWords(); assert core == ""; }
  }

  lemma OneMoreText(texts: seq<string>, text: string)
    ensures WordsOfAll(texts + [text]) == WordsOfAll(texts) + Words(text)
  {
    hide Space;
    assert (texts + [text])[..|texts|] == texts;
    hide Words;
  }

  lemma WordsOfOne(text: string)
    ensures WordsOfAll([text]) == Words(text)
  {
    hide Space;
    assert [] + [text] == [text];
    OneMoreText([], text);
    hide Words;
  }

  lemma {:induction false} TextsInTwo(a: seq<string>, b: seq<string>)
    ensures WordsOfAll(a + b) == WordsOfAll(a) + WordsOfAll(b)
  {
    if |b| == 0 {
      assert a + b == a && WordsOfAll(a) + WordsOfAll(b) == WordsOfAll(a);
    } else {
      var n := |b| - 1;
      hide *;
      TextsInTwo(a, b[..n]);
      CutAt(b, n);
      assert b[n..] == [b[n]];
      Grouped(a, b[..n], [b[n]]);
      OneMoreText(a + b[..n], b[n]);
      OneMoreText(b[..n], b[n]);
      Grouped(WordsOfAll(a), WordsOfAll(b[..n]), Words(b[n]));
    }
  }

  lemma WordsOfFirst(texts: seq<string>)
    requires texts != []
    ensures WordsOfAll(texts) == Words(texts[0]) + WordsOfAll(texts[1..])
  {
    hide Space;
    assert texts == [texts[0]] + texts[1..];
    TextsInTwo([texts[0]], texts[1..]);
    WordsOfOne(texts[0]);
  }

  /** Joining with white space changes no word. */
  lemma {:induction false} WordsOfJoin(texts: seq<string>, gap: string)
    requires Blank(gap) && |gap| > 0
    ensures Words(Join(texts, gap)) == WordsOfAll(texts)
  {
    hide Space;
    if |texts| > 0 {
      WordsOfFirst(texts);
      if |texts| == 1 {
        assert texts[1..] == [];
      } else {
        WordsOfJoin(texts[1..], gap);
        WordsAround(texts[0], gap, Join(texts[1..], gap));
        hide Words, WordsOfAll;
      }
    }
  }

  lemma {:induction false} WordsOfWords(words: seq<string>)
    requires forall i | 0 <= i < |words| :: IsWord(words[i])
    ensures WordsOfAll(words) == words
  {
    hide Space;
    if words != [] {
      var front, last := words[..|words| - 1], words[|words| - 1];
      assert words == front + [last];
      WordsOfWords(front);
      WordsOfWord(last);
    }
  }
}
