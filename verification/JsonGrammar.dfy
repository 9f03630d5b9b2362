/** Which texts load, and as what: the grammar of RFC 8259, said without the
    reader; and what `json.dumps` writes, said without tokens. */
module JsonGrammar {
  import opened Decimal
  import opened Json

  // ---- Numbers: section 6 -------------------------------------------------------

  predicate Digits(s: string) {
    s != "" && forall i | 0 <= i < |s| :: s[i] in "0123456789"
  }

  /** A number's sign, whole part, fraction and exponent. */
  datatype Number = Number(minus: string, whole: string, fraction: string, exponent: string)

  predicate IsMinus(s: string) {
    s == "" || s == "-"
  }

  predicate IsWhole(s: string) {
    Digits(s) && (s[0] == '0' ==> s == "0")
  }

  predicate IsPoint(s: string) {
    s == "" || (s[0] == '.' && Digits(s[1..]))
  }

  predicate IsPower(s: string) {
    s == "" ||
    ((s[0] == 'e' || s[0] == 'E') &&
     (Digits(s[1..]) || (|s| > 1 && (s[1] == '+' || s[1] == '-') && Digits(s[2..]))))
  }

  predicate WellFormed(n: Number) {
    IsMinus(n.minus) && IsWhole(n.whole) && IsPoint(n.fraction) && IsPower(n.exponent)
  }

  function NumberText(n: Number): string {
    n.minus + (n.whole + (n.fraction + n.exponent))
  }

  lemma DigitsAre(s: string)
    ensures Digits(s) <==> s != "" && AllDigits(s)
  {
    forall i | 0 <= i < |s| ensures s[i] in "0123456789" <==> IsDigit(s[i]) { DigitIs(s[i]); }
  }

  lemma DigitIs(c: char)
    ensures c in "0123456789" <==> IsDigit(c)
  {
    if IsDigit(c) { assert "0123456789"[c as int - '0' as int] == c; }
  }

  lemma PowerIs(s: string)
    ensures IsPower(s) <==> IsExponent(s)
  {
    if s != "" {
      DigitsAre(s[1..]);
      if |s| > 1 {
        DigitsAre(s[2..]);
        assert s[1..][0] == s[1];
        assert !IsDigit('+') && !IsDigit('-');
      }
    }
  }

  lemma {:induction false} DigitSpanStops(s: string, rest: string)
    requires AllDigits(s) && (rest != "" ==> !IsDigit(rest[0]))
    ensures DigitSpan(s + rest) == |s|
  {
    if s == "" {
      assert s + rest == rest;
    } else {
      assert (s + rest)[1..] == s[1..] + rest;
      DigitSpanStops(s[1..], rest);
    }
  }

  lemma PointSplits(s: string) returns (fraction: string, exponent: string)
    requires s != "" && s[0] == '.' && DigitSpan(s[1..]) > 0
    ensures IsPoint(fraction) && s == fraction + exponent && exponent == s[1 + DigitSpan(s[1..])..]
  {
    var d := DigitSpan(s[1..]);
    fraction, exponent := s[..1 + d], s[1 + d..];
    hide DigitSpan, Digits;
    assert fraction[1..] == s[1..][..d];
    DigitsAre(fraction[1..]);
  }

  /** The reader's fraction is a point part and a power part. */
  lemma FractionSplits(s: string) returns (fraction: string, exponent: string)
    requires IsFraction(s)
    ensures IsPoint(fraction) && IsPower(exponent) && s == fraction + exponent
  {
    hide IsExponent, IsPower, Digits, DigitSpan;
    if s != "" && s[0] == '.' {
      fraction, exponent := PointSplits(s);
    } else {
      fraction, exponent := "", s;
    }
    PowerIs(exponent);
  }

  lemma PointJoins(fraction: string, exponent: string)
    requires fraction != "" && IsPoint(fraction) && IsExponent(exponent) && (exponent != "" ==> !IsDigit(exponent[0]))
    ensures IsFraction(fraction + exponent)
  {
    hide IsExponent, Digits, DigitSpan;
    var s := fraction + exponent;
    DigitsAre(fraction[1..]);
    DigitSpanStops(fraction[1..], exponent);
    assert s[1..] == fraction[1..] + exponent;
    assert s[|fraction|..] == exponent;
  }

  lemma PowerStarts(s: string)
    requires IsPower(s) && s != ""
    ensures s[0] != '.' && !IsDigit(s[0])
  {
    hide Digits;
  }

  lemma FractionJoins(fraction: string, exponent: string)
    requires IsPoint(fraction) && IsPower(exponent)
    ensures IsFraction(fraction + exponent)
    ensures var s := fraction + exponent; s != "" ==> !IsDigit(s[0])
  {
    PowerIs(exponent);
    if exponent != "" { PowerStarts(exponent); }
    hide IsExponent, IsPower, Digits, DigitSpan;
    if fraction == "" {
      assert fraction + exponent == exponent;
    } else {
      PointJoins(fraction, exponent);
      assert (fraction + exponent)[0] == '.';
    }
  }

  lemma WholeSplits(s: string) returns (whole: string, rest: string)
    requires var d := DigitSpan(s); d > 0 && (s[0] == '0' ==> d == 1)
    ensures IsWhole(whole) && s == whole + rest && rest == s[DigitSpan(s)..]
  {
    var d := DigitSpan(s);
    whole, rest := s[..d], s[d..];
    hide DigitSpan, Digits;
    DigitsAre(whole);
    assert whole[0] == s[0];
  }

  lemma NumberSplits(s: string) returns (n: Number)
    requires IsNumber(s)
    ensures WellFormed(n) && NumberText(n) == s
  {
    hide IsFraction, DigitSpan, IsWhole, IsPoint, IsPower, Digits;
    var minus := if s != "" && s[0] == '-' then "-" else "";
    var t := s[|minus|..];
    assert s == minus + t;
    var whole, rest := WholeSplits(t);
    var fraction, exponent := FractionSplits(rest);
    n := Number(minus, whole, fraction, exponent);
  }

  lemma NumberJoins(n: Number)
    requires WellFormed(n)
    ensures IsNumber(NumberText(n))
  {
    var after := n.fraction + n.exponent;
    FractionJoins(n.fraction, n.exponent);
    DigitsAre(n.whole);
    DigitSpanStops(n.whole, after);
    var t := n.whole + after;
    assert t[|n.whole|..] == after && t[0] == n.whole[0];
    var s := NumberText(n);
    if n.minus == "" {
      assert s == t && IsDigit(t[0]);
    } else {
      assert s[1..] == t && s[0] == '-';
    }
    hide IsFraction, IsPoint, IsPower, Digits, DigitSpan;
  }

  /** The reader's numbers are those of the grammar. */
  lemma NumbersAre(s: string)
    ensures IsNumber(s) <==> exists n :: WellFormed(n) && NumberText(n) == s
  {
    hide IsNumber, WellFormed, NumberText;
    if IsNumber(s) { var n := NumberSplits(s); }
    if exists n :: WellFormed(n) && NumberText(n) == s {
      var n :| WellFormed(n) && NumberText(n) == s;
      NumberJoins(n);
    }
  }

  // ---- Strings: section 7 ---------------------------------------------------------

  lemma ShortWritten(s: string) returns (e: string)
    requires |s| >= 2 && s[0] == '\\' && s[1] != 'u' && Unescape(s).Ok?
    ensures var r := Unescape(s); SpellsChar(e, r.value) && e != "" && s == e + r.rest
  {
    e := s[..2];
    hide ReadHex4;
    assert Short(e[1], Unescape(s).value);
    assert s == e + s[2..];
    hide EscapesUnit;
  }

  lemma UnitWritten(s: string, at: nat, code: nat)
    requires at + 6 <= |s| && s[at] == '\\' && s[at + 1] == 'u' && ReadHex4(s[at + 2..]) == code
    ensures EscapesUnit(s[at..at + 6], code)
  {
    var e := s[at..at + 6];
    assert s[at + 2..] == e[2..] + s[at + 6..];
    FirstFour(e[2..], s[at + 6..]);
    UnitIs(e, code);
    hide ReadHex4, EscapesUnit;
  }

  lemma HexIsLong(s: string)
    requires ReadHex4(s) >= 0
    ensures |s| >= 4
  {
  }

  lemma CodeWritten(s: string) returns (e: string)
    requires |s| >= 2 && s[0] == '\\' && s[1] == 'u' && Unescape(s).Ok?
    ensures var r := Unescape(s); SpellsChar(e, r.value) && e != "" && s == e + r.rest
  {
    hide ReadHex4, EscapesUnit, High, Low;
    var high := ReadHex4(s[2..]);
    HexIsLong(s[2..]);
    UnitWritten(s, 0, high);
    if 0xD800 <= high < 0xDC00 {
      var low := ReadHex4(s[8..]);
      HexIsLong(s[8..]);
      UnitWritten(s, 6, low);
      e := s[..12];
      var n := 0x1_0000 + (high - 0xD800) * 1024 + (low - 0xDC00);
      PairOf(high, low);
      assert e[..6] == s[0..6] && e[6..] == s[6..12];
      assert Unescape(s).value == n as char;
      assert s == e + s[12..];
    } else {
      e := s[..6];
      assert e == s[0..6];
      assert s == e + s[6..];
    }
  }

  lemma PairOf(high: int, low: int)
    requires 0xD800 <= high < 0xDC00 && 0xDC00 <= low < 0xE000
    ensures var n := 0x1_0000 + (high - 0xD800) * 1024 + (low - 0xDC00);
            0x1_0000 <= n < 0x11_0000 && High(n) == high && Low(n) == low
  {
  }

  lemma {:induction false} CharsWritten(s: string) returns (body: string)
    requires ParseChars(s).Ok?
    ensures SpellsChars(body, ParseChars(s).value) && s == body + ("\"" + ParseChars(s).rest)
    decreases |s|
  {
    hide *;
    if |s| > 0 && s[0] == '\"' {
      body := NoneWritten(s);
    } else {
      var e, c, rest := FirstWritten(s);
      var more := CharsWritten(rest);
      MoreSpelled(e, c, more, ParseChars(rest).value);
      body := e + more;
      Grouping(e, more, "\"" + ParseChars(s).rest);
    }
  }

  lemma NoneWritten(s: string) returns (body: string)
    requires |s| > 0 && s[0] == '\"'
    ensures ParseChars(s) == Ok("", s[1..]) && SpellsChars(body, "") && s == body + ("\"" + s[1..])
  {
    body := "";
  }

  lemma Grouping(a: string, b: string, c: string)
    ensures a + (b + c) == a + b + c
  {
  }

  lemma FirstWritten(s: string) returns (e: string, c: char, rest: string)
    requires ParseChars(s).Ok? && !(|s| > 0 && s[0] == '\"')
    ensures SpellsChar(e, c) && e != "" && s == e + rest && |rest| < |s|
    ensures ParseChars(rest).Ok? && ParseChars(s) == Ok([c] + ParseChars(rest).value, ParseChars(rest).rest)
  {
    if s[0] == '\\' {
      if |s| >= 2 && s[1] == 'u' { e := CodeWritten(s); } else { e := ShortWritten(s); }
      c, rest := Unescape(s).value, Unescape(s).rest;
    } else {
      e, c, rest := [s[0]], s[0], s[1..];
    }
    hide Unescape, EscapesUnit;
  }

  lemma MoreSpelled(e: string, c: char, body: string, cs: string)
    requires SpellsChar(e, c) && e != "" && SpellsChars(body, cs)
    ensures SpellsChars(e + body, [c] + cs)
  {
    hide SpellsChar;
    var all := e + body;
    assert all[..|e|] == e && all[|e|..] == body && ([c] + cs)[1..] == cs;
  }

  // ---- Values: sections 2 to 5 --------------------------------------------------

  /** The tokens, each after its white space. */
  function Spaced(tokens: seq<string>, gaps: seq<string>): string
    requires |tokens| == |gaps|
  {
    if |tokens| == 0 then "" else gaps[0] + tokens[0] + Spaced(tokens[1..], gaps[1..])
  }

  /** White space for each token. */
  predicate Laid(tokens: seq<string>, gaps: seq<string>) {
    |tokens| == |gaps| && forall i | 0 <= i < |gaps| :: Blank(gaps[i])
  }

  /** `s` is a text of `v`: its tokens, white space before each and after the
      last. */
  ghost predicate Written(s: string, v: Json) {
    exists t: Text, gaps: seq<string>, end: string ::
      Spells(t, v) && Laid(Tokens(t), gaps) && Blank(end) && s == Spaced(Tokens(t), gaps) + end
  }

  lemma {:induction false} SpacedSplits(a: seq<string>, ga: seq<string>, b: seq<string>, gb: seq<string>)
    requires |a| == |ga| && |b| == |gb|
    ensures Spaced(a + b, ga + gb) == Spaced(a, ga) + Spaced(b, gb)
  {
    if |a| == 0 {
      assert a + b == b && ga + gb == gb;
    } else {
      assert (a + b)[1..] == a[1..] + b && (ga + gb)[1..] == ga[1..] + gb;
      SpacedSplits(a[1..], ga[1..], b, gb);
    }
  }

  lemma SpacedOne(token: string, gap: string)
    ensures Spaced([token], [gap]) == gap + token
  {
    assert Spaced([token][1..], [gap][1..]) == "";
  }

  /** Tokens put together around one of them. */
  lemma SpacedAround(a: seq<string>, ga: seq<string>, token: string, gap: string, b: seq<string>, gb: seq<string>)
    requires Laid(a, ga) && Blank(gap) && Laid(b, gb)
    ensures Laid(a + [token] + b, ga + [gap] + gb)
    ensures Spaced(a + [token] + b, ga + [gap] + gb) == Spaced(a, ga) + (gap + token) + Spaced(b, gb)
  {
    SpacedSplits(a + [token], ga + [gap], b, gb);
    SpacedSplits(a, ga, [token], [gap]);
    SpacedOne(token, gap);
    hide Spaced, Blank;
  }

  lemma {:induction false} SpaceSplits(s: string) returns (gap: string)
    ensures Blank(gap) && s == gap + SkipSpace(s)
  {
    if s != "" && Space(s[0]) {
      gap := SpaceSplits(s[1..]);
      assert s == [s[0]] + s[1..];
      gap := [s[0]] + gap;
    } else {
      gap := "";
    }
  }

  /** White space, one token and what follows it. */
  lemma TokenSplits(s: string, t: string, token: string, rest: string) returns (gap: string)
    requires SkipSpace(s) == t && t == token + rest
    ensures Laid([token], [gap]) && Blank(gap) && s == gap + token + rest && s == Spaced([token], [gap]) + rest
  {
    gap := SpaceSplits(s);
    SpacedOne(token, gap);
    hide Spaced, SkipSpace, Blank;
  }

  lemma ScalarWritten(s: string) returns (t: Text, gaps: seq<string>)
    requires ParseValue(s).Ok? && !ParseValue(s).value.Arr? && !ParseValue(s).value.Obj?
    ensures Spells(t, ParseValue(s).value) && Laid(Tokens(t), gaps)
    ensures s == Spaced(Tokens(t), gaps) + ParseValue(s).rest
  {
    var u := SkipSpace(s);
    var v, rest := ParseValue(s).value, ParseValue(s).rest;
    if u[0] == '\"' {
      var body := CharsWritten(u[1..]);
      StringWritten(u, body, rest);
      t := Literal(body);
    } else {
      t := WordWritten(s);
    }
    hide ParseValue, SkipSpace, SpellsChars, Quoted, IsNumber, Blank;
    var gap := TokenSplits(s, u, Tokens(t)[0], rest);
    gaps := [gap];
  }

  lemma StringWritten(u: string, body: string, rest: string)
    requires u != "" && u[0] == '\"' && u[1..] == body + ("\"" + rest)
    ensures Tokens(Literal(body)) == [Quoted(body)] && u == Quoted(body) + rest
  {
    assert u == "\"" + u[1..];
  }

  lemma WordWritten(s: string) returns (t: Text)
    requires ParseValue(s).Ok? && !ParseValue(s).value.Arr? && !ParseValue(s).value.Obj?
    requires SkipSpace(s) != "" && SkipSpace(s)[0] != '\"'
    ensures t.Word? && Spells(t, ParseValue(s).value) && Tokens(t) == [t.word]
    ensures SkipSpace(s) == t.word + ParseValue(s).rest
  {
    hide SkipSpace, IsNumber, ParseItems, ParseFields, ParseChars;
    var u := SkipSpace(s);
    var k := if "true" <= u || "null" <= u then 4 else if "false" <= u then 5 else NumberSpan(u);
    t := Word(u[..k]);
    assert u == u[..k] + u[k..];
    assert ParseValue(s).rest == u[k..];
  }

  /** `s` starts with the tokens and goes on with `rest`. */
  ghost predicate Starts(s: string, tokens: seq<string>, gaps: seq<string>, rest: string) {
    Laid(tokens, gaps) && s == Spaced(tokens, gaps) + rest
  }

  /** One list of tokens, then one more, then another. */
  lemma StartsAround(s: string, a: seq<string>, ga: seq<string>, between: string, token: string, after: string,
                     b: seq<string>, gb: seq<string>, rest: string) returns (gaps: seq<string>)
    requires Starts(s, a, ga, between) && SkipSpace(between) == token + after && Starts(after, b, gb, rest)
    ensures Starts(s, a + [token] + b, gaps, rest)
  {
    var gap := TokenSplits(between, token + after, token, after);
    SpacedAround(a, ga, token, gap, b, gb);
    gaps := ga + [gap] + gb;
    hide Laid, Spaced, SkipSpace, Blank;
    Regrouping(Spaced(a, ga), gap + token, Spaced(b, gb), rest);
    Grouping(gap + token, Spaced(b, gb), rest);
  }

  lemma Regrouping(a: string, b: string, c: string, d: string)
    ensures a + (b + (c + d)) == a + b + c + d
  {
  }

  lemma StartsNothing(s: string)
    ensures Starts(s, [], [], s)
  {
    assert s == "" + s;
  }

  lemma FirstAndRest(u: string)
    requires u != ""
    ensures u == [u[0]] + u[1..]
  {
  }

  /** A list of one token and what follows. */
  lemma StartsToken(s: string, token: string, after: string) returns (gaps: seq<string>)
    requires SkipSpace(s) == token + after
    ensures Starts(s, [token], gaps, after)
  {
    var gap := TokenSplits(s, token + after, token, after);
    gaps := [gap];
  }

  lemma {:induction false} ValueWritten(s: string) returns (t: Text, gaps: seq<string>)
    requires ParseValue(s).Ok?
    ensures Spells(t, ParseValue(s).value) && Starts(s, Tokens(t), gaps, ParseValue(s).rest)
    decreases |s|, 2
  {
    hide *;
    if ParseValue(s).value.Arr? {
      t, gaps := ArrayWritten(s);
    } else if ParseValue(s).value.Obj? {
      t, gaps := ObjectWritten(s);
    } else {
      t, gaps := ScalarWritten(s);
      StartsFrom(s, Tokens(t), gaps, ParseValue(s).rest);
    }
  }

  lemma StartsFrom(s: string, tokens: seq<string>, gaps: seq<string>, rest: string)
    requires Laid(tokens, gaps) && s == Spaced(tokens, gaps) + rest
    ensures Starts(s, tokens, gaps, rest)
  {
  }

  /** What the reader saw when it read an array. */
  lemma ArrayRead(s: string)
    requires ParseValue(s).Ok? && ParseValue(s).value.Arr?
    ensures var t := SkipSpace(s);
            && t != "" && t[0] == '[' && |t[1..]| < |s|
            && (|ParseValue(s).value.items| == 0 ==>
                  var u := SkipSpace(t[1..]); u != "" && u[0] == ']' && u[1..] == ParseValue(s).rest)
            && (|ParseValue(s).value.items| > 0 ==>
                  ParseItems(t[1..]) == Ok(ParseValue(s).value.items, ParseValue(s).rest))
  {
    hide ParseChars, ParseFields, ParseItems, IsNumber, SkipSpace;
    if SkipSpace(s) != "" { ItemsAreSome(SkipSpace(s)[1..]); }
  }

  lemma ItemsAreSome(s: string)
    ensures ParseItems(s).Ok? ==> |ParseItems(s).value| > 0
  {
    hide ParseValue, SkipSpace;
  }

  lemma {:induction false} ArrayWritten(s: string) returns (t: Text, gaps: seq<string>)
    requires ParseValue(s).Ok? && ParseValue(s).value.Arr?
    ensures Spells(t, ParseValue(s).value) && Starts(s, Tokens(t), gaps, ParseValue(s).rest)
    decreases |s|, 1
  {
    hide *;
    ArrayRead(s);
    var u, rest := SkipSpace(s), ParseValue(s).rest;
    FirstAndRest(u);
    StartsNothing(s);
    if |ParseValue(s).value.items| == 0 {
      FirstAndRest(SkipSpace(u[1..]));
      var end := StartsToken(u[1..], "]", rest);
      gaps := StartsAround(s, [], [], s, "[", u[1..], ["]"], end, rest);
      t := NoItems(ParseValue(s).value);
    } else {
      var texts, inner := ItemsWritten(u[1..]);
      gaps := StartsAround(s, [], [], s, "[", u[1..], ItemTokens(texts) + ["]"], inner, rest);
      t := List(texts);
      ListTokens(texts);
    }
  }

  lemma NoItems(v: Json) returns (t: Text)
    requires v.Arr? && |v.items| == 0
    ensures Spells(t, v) && Tokens(t) == [] + ["["] + ["]"]
  {
    t := List([]);
  }

  lemma ListTokens(texts: seq<Text>)
    ensures Tokens(List(texts)) == [] + ["["] + (ItemTokens(texts) + ["]"])
  {
  }

  /** What the reader saw when it read the items of an array. */
  lemma ItemsRead(s: string)
    requires ParseItems(s).Ok?
    ensures ParseValue(s).Ok?
    ensures var u := SkipSpace(ParseValue(s).rest);
            && u != "" && |u[1..]| < |s|
            && (u[0] == ']' ==> ParseItems(s) == Ok([ParseValue(s).value], u[1..]))
            && (u[0] != ']' ==>
                  u[0] == ',' && ParseItems(u[1..]).Ok?
                  && ParseItems(s) == Ok([ParseValue(s).value] + ParseItems(u[1..]).value, ParseItems(u[1..]).rest))
  {
    hide ParseValue, SkipSpace;
  }

  lemma {:induction false} ItemsWritten(s: string) returns (texts: seq<Text>, gaps: seq<string>)
    requires ParseItems(s).Ok?
    ensures Spells(List(texts), Arr(ParseItems(s).value))
    ensures Starts(s, ItemTokens(texts) + ["]"], gaps, ParseItems(s).rest)
    decreases |s|, 3
  {
    hide *;
    ItemsRead(s);
    var item, between := ParseValue(s).value, ParseValue(s).rest;
    var t, g := ValueWritten(s);
    var u := SkipSpace(between);
    FirstAndRest(u);
    if u[0] == ']' {
      StartsNothing(u[1..]);
      gaps := StartsAround(s, Tokens(t), g, between, "]", u[1..], [], [], u[1..]);
      texts := [t];
      OneItemSpelled(t, item);
    } else {
      var more, inner := ItemsWritten(u[1..]);
      gaps := StartsAround(s, Tokens(t), g, between, ",", u[1..], ItemTokens(more) + ["]"], inner, ParseItems(s).rest);
      texts := [t] + more;
      ItemsAreSome(u[1..]);
      MoreItemsSpelled(t, item, more, ParseItems(u[1..]).value);
    }
  }

  lemma OneItemSpelled(t: Text, item: Json)
    requires Spells(t, item)
    ensures Spells(List([t]), Arr([item])) && ItemTokens([t]) + ["]"] == Tokens(t) + ["]"] + []
  {
    hide Tokens;
  }

  lemma MoreItemsSpelled(t: Text, item: Json, texts: seq<Text>, items: seq<Json>)
    requires Spells(t, item) && Spells(List(texts), Arr(items)) && |items| > 0
    ensures Spells(List([t] + texts), Arr([item] + items))
    ensures ItemTokens([t] + texts) + ["]"] == Tokens(t) + [","] + (ItemTokens(texts) + ["]"])
  {
    ItemsPut(t, item, texts, items);
    hide Spells;
    assert ([t] + texts)[1..] == texts;
    hide Tokens;
  }

  lemma ItemsPut(t: Text, item: Json, texts: seq<Text>, items: seq<Json>)
    requires Spells(t, item) && Spells(List(texts), Arr(items))
    ensures |texts| == |items| && Spells(List([t] + texts), Arr([item] + items))
  {
    var ts, vs := [t] + texts, [item] + items;
    assert List(texts).items == texts;
    forall i | 0 <= i < |vs| ensures Spells(ts[i], vs[i]) {
      if i > 0 { assert ts[i] == texts[i - 1] && vs[i] == items[i - 1]; }
    }
  }

  /** What the reader saw when it read an object. */
  lemma ObjectRead(s: string)
    requires ParseValue(s).Ok? && ParseValue(s).value.Obj?
    ensures var t := SkipSpace(s);
            && t != "" && t[0] == '{' && |t[1..]| < |s|
            && (|ParseValue(s).value.fields| == 0 ==>
                  var u := SkipSpace(t[1..]); u != "" && u[0] == '}' && u[1..] == ParseValue(s).rest)
            && (|ParseValue(s).value.fields| > 0 ==>
                  ParseFields(t[1..]) == Ok(ParseValue(s).value.fields, ParseValue(s).rest))
  {
    hide ParseChars, ParseItems, ParseFields, IsNumber, SkipSpace;
    if SkipSpace(s) != "" { FieldsAreSome(SkipSpace(s)[1..]); }
  }

  lemma FieldsAreSome(s: string)
    ensures ParseFields(s).Ok? ==> |ParseFields(s).value| > 0
  {
    hide ParseValue, ParseChars, SkipSpace;
  }

  lemma {:induction false} ObjectWritten(s: string) returns (t: Text, gaps: seq<string>)
    requires ParseValue(s).Ok? && ParseValue(s).value.Obj?
    ensures Spells(t, ParseValue(s).value) && Starts(s, Tokens(t), gaps, ParseValue(s).rest)
    decreases |s|, 1
  {
    hide *;
    ObjectRead(s);
    var u, rest := SkipSpace(s), ParseValue(s).rest;
    FirstAndRest(u);
    StartsNothing(s);
    if |ParseValue(s).value.fields| == 0 {
      FirstAndRest(SkipSpace(u[1..]));
      var end := StartsToken(u[1..], "}", rest);
      gaps := StartsAround(s, [], [], s, "{", u[1..], ["}"], end, rest);
      t := NoFields(ParseValue(s).value);
    } else {
      var members, inner := FieldsWritten(u[1..]);
      gaps := StartsAround(s, [], [], s, "{", u[1..], MemberTokens(members) + ["}"], inner, rest);
      t := Record(members);
      RecordTokens(members);
    }
  }

  lemma NoFields(v: Json) returns (t: Text)
    requires v.Obj? && |v.fields| == 0
    ensures Spells(t, v) && Tokens(t) == [] + ["{"] + ["}"]
  {
    t := Record([]);
  }

  lemma RecordTokens(members: seq<Member>)
    ensures Tokens(Record(members)) == [] + ["{"] + (MemberTokens(members) + ["}"])
  {
  }

  /** What the reader saw when it read the fields of an object: a key, a colon
      and a value, ... */
  lemma FieldRead(s: string)
    requires ParseFields(s).Ok?
    ensures var q := SkipSpace(s);
            && q != "" && q[0] == '\"' && |q[1..]| < |s| && ParseChars(q[1..]).Ok?
            && var c := SkipSpace(ParseChars(q[1..]).rest);
               && c != "" && c[0] == ':' && |c[1..]| < |s| && ParseValue(c[1..]).Ok?
               && |ParseValue(c[1..]).rest| < |s|
  {
    hide ParseValue, ParseChars, SkipSpace;
  }

  /** ... and then the end or a comma and more fields. */
  lemma FieldsRead(s: string, field: Field, between: string)
    requires ParseFields(s).Ok? && FieldAt(s, field, between)
    ensures var u := SkipSpace(between);
            && u != "" && |u[1..]| < |s|
            && (u[0] == '}' ==> ParseFields(s) == Ok([field], u[1..]))
            && (u[0] != '}' ==>
                  u[0] == ',' && ParseFields(u[1..]).Ok?
                  && ParseFields(s) == Ok([field] + ParseFields(u[1..]).value, ParseFields(u[1..]).rest))
  {
    hide ParseValue, ParseChars, SkipSpace;
  }

  ghost predicate FieldAt(s: string, field: Field, between: string) {
    var q := SkipSpace(s);
    q != "" && q[0] == '\"' && ParseChars(q[1..]).Ok? && ParseChars(q[1..]).value == field.key &&
    var c := SkipSpace(ParseChars(q[1..]).rest);
    c != "" && c[0] == ':' && ParseValue(c[1..]) == Ok(field.value, between) && |between| < |s|
  }

  lemma {:induction false} FieldWritten(s: string)
    returns (field: Field, between: string, member: Member, gaps: seq<string>)
    requires ParseFields(s).Ok?
    ensures FieldAt(s, field, between)
    ensures SpellsChars(member.key, field.key) && Spells(member.value, field.value)
    ensures Starts(s, OneMemberTokens(member), gaps, between)
    decreases |s|, 0
  {
    FieldRead(s);
    hide ParseValue, ParseChars, ParseFields, SkipSpace, Spells, Tokens, SpellsChars, Starts, Quoted;
    var q := SkipSpace(s);
    var body := CharsWritten(q[1..]);
    var c := SkipSpace(ParseChars(q[1..]).rest);
    var t, inner := ValueWritten(c[1..]);
    field := Field(ParseChars(q[1..]).value, ParseValue(c[1..]).value);
    between, member := ParseValue(c[1..]).rest, Member(body, t);
    StringWritten(q, body, ParseChars(q[1..]).rest);
    var first := StartsToken(s, Quoted(body), ParseChars(q[1..]).rest);
    FirstAndRest(c);
    gaps := StartsAround(s, [Quoted(body)], first, ParseChars(q[1..]).rest, ":", c[1..], Tokens(t), inner, between);
    assert OneMemberTokens(member) == [Quoted(body)] + [":"] + Tokens(t);
  }

  lemma {:induction false} FieldsWritten(s: string) returns (members: seq<Member>, gaps: seq<string>)
    requires ParseFields(s).Ok?
    ensures Spells(Record(members), Obj(ParseFields(s).value))
    ensures Starts(s, MemberTokens(members) + ["}"], gaps, ParseFields(s).rest)
    decreases |s|, 3
  {
    hide *;
    var field, between, member, g := FieldWritten(s);
    FieldsRead(s, field, between);
    var u := SkipSpace(between);
    FirstAndRest(u);
    if u[0] == '}' {
      StartsNothing(u[1..]);
      gaps := StartsAround(s, OneMemberTokens(member), g, between, "}", u[1..], [], [], u[1..]);
      members := [member];
      OneFieldSpelled(member, field);
      OneFieldTokens(member);
    } else {
      var more, inner := FieldsWritten(u[1..]);
      gaps := StartsAround(s, OneMemberTokens(member), g, between, ",", u[1..], MemberTokens(more) + ["}"], inner,
                           ParseFields(s).rest);
      members := [member] + more;
      FieldsAreSome(u[1..]);
      MoreFieldsSpelled(member, field, more, ParseFields(u[1..]).value);
    }
  }

  lemma OneFieldSpelled(member: Member, field: Field)
    requires SpellsChars(member.key, field.key) && Spells(member.value, field.value)
    ensures Spells(Record([member]), Obj([field]))
  {
  }

  lemma OneFieldTokens(member: Member)
    ensures MemberTokens([member]) + ["}"] == OneMemberTokens(member) + ["}"] + []
  {
    hide OneMemberTokens;
  }

  lemma MoreFieldsSpelled(member: Member, field: Field, members: seq<Member>, fields: seq<Field>)
    requires SpellsChars(member.key, field.key) && Spells(member.value, field.value)
    requires Spells(Record(members), Obj(fields)) && |fields| > 0
    ensures Spells(Record([member] + members), Obj([field] + fields))
    ensures MemberTokens([member] + members) + ["}"]
            == OneMemberTokens(member) + [","] + (MemberTokens(members) + ["}"])
  {
    FieldsPut(member, field, members, fields);
    hide Spells, SpellsChars, OneMemberTokens;
    assert ([member] + members)[1..] == members;
  }

  lemma FieldsPut(member: Member, field: Field, members: seq<Member>, fields: seq<Field>)
    requires SpellsChars(member.key, field.key) && Spells(member.value, field.value)
    requires Spells(Record(members), Obj(fields))
    ensures |members| == |fields| && Spells(Record([member] + members), Obj([field] + fields))
  {
    hide SpellsChars;
    var ms, fs := [member] + members, [field] + fields;
    assert Record(members).members == members;
    forall i | 0 <= i < |fs|
      ensures SpellsChars(ms[i].key, fs[i].key) && Spells(ms[i].value, fs[i].value)
    {
      if i > 0 { assert ms[i] == members[i - 1] && fs[i] == fields[i - 1]; }
    }
  }

  // ---- What loads -----------------------------------------------------------------

  /** The white space of `gaps`, for the printer's own form. */
  function Each(gaps: seq<string>): nat -> string {
    (i: nat) => if i < |gaps| then gaps[i] else ""
  }

  lemma {:induction false} SpacedWeaves(tokens: seq<string>, gaps: seq<string>, at: nat, end: string)
    requires at + |tokens| == |gaps|
    ensures Weave(tokens, Each(gaps), at, end) == Spaced(tokens, gaps[at..]) + end
    decreases |tokens|
  {
    if |tokens| > 0 {
      SpacedWeaves(tokens[1..], gaps, at + 1, end);
      assert gaps[at..][1..] == gaps[at + 1..];
    } else {
      assert "" + end == end;
    }
  }

  /** A text loads exactly when it is a text of some value, and then as that
      value: the reader accepts the grammar of RFC 8259 and nothing else. */
  lemma LoadsExactly(s: string, v: Json)
    ensures Loads(s) == Value(v) <==> Written(s, v)
  {
    hide ParseValue, Spells, Tokens, Spaced, SkipSpace, Weave;
    if Loads(s) == Value(v) {
      var t, gaps := ValueWritten(s);
      var end := SpaceSplits(ParseValue(s).rest);
      assert end + "" == end;
    }
    if Written(s, v) {
      var t: Text, gaps: seq<string>, end: string :|
        Spells(t, v) && Laid(Tokens(t), gaps) && Blank(end) && s == Spaced(Tokens(t), gaps) + end;
      SpacedWeaves(Tokens(t), gaps, 0, end);
      assert gaps[0..] == gaps;
      LoadsAnySpelling(t, v, Each(gaps), end);
    }
  }

  /** No text is a text of two values. */
  lemma WrittenOnce(s: string, v: Json, w: Json)
    requires Written(s, v) && Written(s, w)
    ensures v == w
  {
    LoadsExactly(s, v);
    LoadsExactly(s, w);
    hide Written;
  }
}
