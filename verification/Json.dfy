/** JSON text (RFC 8259) as Python's `json.dumps` prints it and as
    `json.loads` and `JSON.parse` read it.

    A printed value is a list of tokens with white space before each of them:
    the compact form of app/sse.py, the default form of `json.dumps` and any
    other text of the value differ only in that white space and in how the
    characters of its strings are written. */
module Json {
  import opened Decimal

  datatype Json =
    | Null
    | Bool(b: bool)
    | Num(literal: string)   // a number is kept as its literal
    | Str(s: string)
    | Arr(items: seq<Json>)
    | Obj(fields: seq<Field>)

  datatype Field = Field(key: string, value: Json)

  datatype Parsed<+T> = Fail | Ok(value: T, rest: string)

  // ---- Number literals -------------------------------------------------

  function DigitSpan(s: string): (n: nat)
    ensures n <= |s|
    ensures AllDigits(s[..n])
    ensures n < |s| ==> !IsDigit(s[n])
  {
    if s != "" && IsDigit(s[0]) then 1 + DigitSpan(s[1..]) else 0
  }

  predicate IsExponent(s: string) {
    s == "" ||
    ((s[0] == 'e' || s[0] == 'E') &&
     var t := if |s| > 1 && (s[1] == '+' || s[1] == '-') then s[2..] else s[1..];
     t != "" && AllDigits(t))
  }

  predicate IsFraction(s: string) {
    if s != "" && s[0] == '.' then
      var d := DigitSpan(s[1..]);
      d > 0 && IsExponent(s[1 + d..])
    else
      IsExponent(s)
  }

  /** The number grammar of section 6 of RFC 8259. */
  predicate IsNumber(s: string) {
    var t := if s != "" && s[0] == '-' then s[1..] else s;
    var d := DigitSpan(t);
    d > 0 && (t[0] == '0' ==> d == 1) && IsFraction(t[d..])
  }

  predicate NumberChar(c: char) {
    IsDigit(c) || c == '-' || c == '+' || c == '.' || c == 'e' || c == 'E'
  }

  function NumberSpan(s: string): (n: nat)
    ensures n <= |s|
    ensures forall i | 0 <= i < n :: NumberChar(s[i])
    ensures n < |s| ==> !NumberChar(s[n])
  {
    if s != "" && NumberChar(s[0]) then 1 + NumberSpan(s[1..]) else 0
  }

  // ---- String literals: section 7 of RFC 8259 ---------------------------

  function HexDigit(n: nat): char
    requires n < 16
  {
    if n < 10 then '0' + n as char else 'a' + (n - 10) as char
  }

  function HexValue(c: char): int {
    if '0' <= c <= '9' then c as int - '0' as int
    else if 'a' <= c <= 'f' then c as int - 'a' as int + 10
    else if 'A' <= c <= 'F' then c as int - 'A' as int + 10
    else -1
  }

  function Hex4(n: nat): (s: string)
    requires n < 0x1_0000
    ensures |s| == 4
  {
    [HexDigit(n / 4096), HexDigit(n / 256 % 16), HexDigit(n / 16 % 16), HexDigit(n % 16)]
  }

  /** Four hexadecimal digits, or -1. */
  function ReadHex4(s: string): (n: int)
    ensures n < 0x1_0000
  {
    if |s| < 4 then -1 else
    var a, b, c, d := HexValue(s[0]), HexValue(s[1]), HexValue(s[2]), HexValue(s[3]);
    if a < 0 || b < 0 || c < 0 || d < 0 then -1 else ((a * 16 + b) * 16 + c) * 16 + d
  }

  lemma HexDigitReadsBack(n: nat)
    requires n < 16
    ensures HexValue(HexDigit(n)) == n
  {
  }

  lemma HexPlaces(n: nat)
    ensures ((n / 4096 * 16 + n / 256 % 16) * 16 + n / 16 % 16) * 16 + n % 16 == n
  {
    assert n / 16 / 16 == n / 256 && n / 256 / 16 == n / 4096;
  }

  lemma Hex4ReadsBack(n: nat)
    requires n < 0x1_0000
    ensures ReadHex4(Hex4(n)) == n
  {
    var a, b, c, d := n / 4096, n / 256 % 16, n / 16 % 16, n % 16;
    HexDigitReadsBack(a);
    HexDigitReadsBack(b);
    HexDigitReadsBack(c);
    HexDigitReadsBack(d);
    assert Hex4(n) == [HexDigit(a), HexDigit(b), HexDigit(c), HexDigit(d)];
    HexPlaces(n);
  }

  function UnicodeEscape(code: nat): string
    requires code < 0x1_0000
  {
    ['\\', 'u'] + Hex4(code)
  }

  /** The two escapes of a character outside the Basic Multilingual Plane. */
  function SurrogatePair(n: int): (s: string)
    requires 0x1_0000 <= n < 0x11_0000
    ensures |s| == 12 && s[0] == '\\' && forall i | 0 <= i < |s| :: s[i] as int >= 32
  {
    UnicodeEscape(High(n)) + UnicodeEscape(Low(n))
  }

  function High(n: int): (h: nat)
    requires 0x1_0000 <= n < 0x11_0000
    ensures 0xD800 <= h < 0xDC00
  {
    0xD800 + (n - 0x1_0000) / 1024
  }

  function Low(n: int): (l: nat)
    requires 0x1_0000 <= n < 0x11_0000
    ensures 0xDC00 <= l < 0xE000
  {
    0xDC00 + (n - 0x1_0000) % 1024
  }

  /** One character inside a string literal. `ascii` is `ensure_ascii`. */
  function EscapeChar(c: char, ascii: bool): (s: string)
    ensures s != ""
    ensures s[0] != '\"' && (s[0] == '\\' || s == [c])
    ensures forall i | 0 <= i < |s| :: s[i] as int >= 32
  {
    var n := c as int;
    if c == '\"' then "\\\""
    else if c == '\\' then "\\\\"
    else if c == '\n' then "\\n"
    else if c == '\r' then "\\r"
    else if c == '\t' then "\\t"
    else if n == 8 then "\\b"
    else if n == 12 then "\\f"
    else if n < 32 || (ascii && 126 < n < 0x1_0000) then UnicodeEscape(n)
    else if ascii && n >= 0x1_0000 then
      SurrogatePair(n)
    else [c]
  }

  function Escape(s: string, ascii: bool): (r: string)
    ensures forall i | 0 <= i < |r| :: r[i] as int >= 32
  {
    if s == "" then "" else EscapeChar(s[0], ascii) + Escape(s[1..], ascii)
  }

  /** The character an escape at the start of `s` stands for. An escape for
      half of a surrogate pair alone fails: see "Left out". */
  function Unescape(s: string): (r: Parsed<char>)
    requires s != "" && s[0] == '\\'
    ensures r.Ok? ==> |r.rest| < |s|
  {
    if |s| < 2 then Fail
    else if s[1] == '\"' then Ok('\"', s[2..])
    else if s[1] == '\\' then Ok('\\', s[2..])
    else if s[1] == '/' then Ok('/', s[2..])
    else if s[1] == 'b' then Ok(8 as char, s[2..])
    else if s[1] == 'f' then Ok(12 as char, s[2..])
    else if s[1] == 'n' then Ok('\n', s[2..])
    else if s[1] == 'r' then Ok('\r', s[2..])
    else if s[1] == 't' then Ok('\t', s[2..])
    else if s[1] == 'u' then
      var high := ReadHex4(s[2..]);
      if high < 0 then Fail
      else if 0xD800 <= high < 0xDC00 then
        if |s| >= 12 && s[6] == '\\' && s[7] == 'u' then
          var low := ReadHex4(s[8..]);
          if 0xDC00 <= low < 0xE000 then
            Ok((0x1_0000 + (high - 0xD800) * 1024 + (low - 0xDC00)) as char, s[12..])
          else Fail
        else Fail
      else if 0xDC00 <= high < 0xE000 then Fail
      else Ok(high as char, s[6..])
    else Fail
  }

  /** The rest of a string literal whose opening quote has been read. */
  function ParseChars(s: string): (r: Parsed<string>)
    ensures r.Ok? ==> |r.rest| < |s|
    decreases |s|
  {
    if s == "" || (s[0] as int) < 32 then Fail
    else if s[0] == '\"' then Ok("", s[1..])
    else
      var one := if s[0] == '\\' then Unescape(s) else Ok(s[0], s[1..]);
      match one
      case Fail => Fail
      case Ok(c, rest) =>
        match ParseChars(rest)
        case Fail => Fail
        case Ok(cs, rest') => Ok([c] + cs, rest')
  }

  // ---- Every way of writing a string ------------------------------------

  /** The letter after a backslash, and the character the two stand for. */
  predicate Short(e: char, c: char) {
    || (e == c && (c == '\"' || c == '\\' || c == '/'))
    || (e == 'b' && c as int == 8) || (e == 'f' && c as int == 12)
    || (e == 'n' && c == '\n') || (e == 'r' && c == '\r') || (e == 't' && c == '\t')
  }

  /** `e` is the escape of a code unit; its digits may be of either case. */
  ghost predicate EscapesUnit(e: string, code: nat) {
    && |e| == 6 && e[0] == '\\' && e[1] == 'u'
    && exists a, b, c, d | 0 <= a < 16 && 0 <= b < 16 && 0 <= c < 16 && 0 <= d < 16 ::
         HexIs(e[2], a) && HexIs(e[3], b) && HexIs(e[4], c) && HexIs(e[5], d)
         && code == a * 4096 + b * 256 + c * 16 + d
  }

  /** `c` is the hexadecimal digit, in either case. */
  predicate HexIs(c: char, digit: nat)
    requires digit < 16
  {
    c == "0123456789abcdef"[digit] || c == "0123456789ABCDEF"[digit]
  }

  lemma HexReads(c: char, digit: nat)
    requires digit < 16
    ensures HexIs(c, digit) <==> HexValue(c) == digit
  {
  }

  lemma HexIsHex(c: char)
    ensures -1 <= HexValue(c) < 16
    ensures HexValue(c) >= 0 ==> HexIs(c, HexValue(c))
  {
  }

  lemma UnitIs(e: string, code: nat)
    requires |e| == 6 && e[0] == '\\' && e[1] == 'u'
    ensures EscapesUnit(e, code) <==> ReadHex4(e[2..]) == code
  {
    var h := e[2..];
    assert h[0] == e[2] && h[1] == e[3] && h[2] == e[4] && h[3] == e[5];
    if ReadHex4(h) == code { UnitOf(e, code); }
    if EscapesUnit(e, code) {
      var a, b, c, d :| 0 <= a < 16 && 0 <= b < 16 && 0 <= c < 16 && 0 <= d < 16
                        && HexIs(e[2], a) && HexIs(e[3], b) && HexIs(e[4], c) && HexIs(e[5], d)
                        && code == a * 4096 + b * 256 + c * 16 + d;
      HexReads(e[2], a);
      HexReads(e[3], b);
      HexReads(e[4], c);
      HexReads(e[5], d);
    }
    hide HexValue, HexIs;
  }

  lemma UnitOf(e: string, code: nat)
    requires |e| == 6 && e[0] == '\\' && e[1] == 'u' && ReadHex4(e[2..]) == code
    ensures EscapesUnit(e, code)
  {
    HexIsHex(e[2]);
    HexIsHex(e[3]);
    HexIsHex(e[4]);
    HexIsHex(e[5]);
    hide HexValue, HexIs;
    var a, b, c, d := HexValue(e[2]), HexValue(e[3]), HexValue(e[4]), HexValue(e[5]);
    assert a >= 0 && b >= 0 && c >= 0 && d >= 0;
    assert code == a * 4096 + b * 256 + c * 16 + d;
    assert HexIs(e[2], a) && HexIs(e[3], b) && HexIs(e[4], c) && HexIs(e[5], d);
  }

  /** `e` is one of the ways of writing `c` inside a string literal: as it is,
      with a letter, or by its code, which takes a pair of escapes outside the
      Basic Multilingual Plane. */
  ghost predicate SpellsChar(e: string, c: char) {
    var n := c as int;
    || (e == [c] && n >= 32 && c != '\"' && c != '\\')
    || (|e| == 2 && e[0] == '\\' && Short(e[1], c))
    || (n < 0x1_0000 && EscapesUnit(e, n))
    || (n >= 0x1_0000 && |e| == 12 && EscapesUnit(e[..6], High(n)) && EscapesUnit(e[6..], Low(n)))
  }

  /** `body` writes the characters of `s` one after another, each in any of
      its ways. */
  ghost predicate SpellsChars(body: string, s: string) {
    if |s| == 0 then |body| == 0
    else exists n | 0 < n <= |body| :: SpellsChar(body[..n], s[0]) && SpellsChars(body[n..], s[1..])
  }

  lemma FirstFour(a: string, rest: string)
    requires |a| == 4
    ensures ReadHex4(a + rest) == ReadHex4(a)
  {
    hide HexValue;
  }

  /** Where the four digits of a \u escape stand, and what follows them. */
  lemma UnitReads(e: string, code: nat, rest: string)
    requires EscapesUnit(e, code)
    ensures var s := e + rest;
            |s| == 6 + |rest| && s[0] == '\\' && s[1] == 'u' && ReadHex4(s[2..]) == code && s[6..] == rest
  {
    UnitIs(e, code);
    hide ReadHex4, EscapesUnit;
    assert (e + rest)[2..] == e[2..] + rest;
    FirstFour(e[2..], rest);
  }

  lemma ShortReads(e: string, c: char, rest: string)
    requires |e| == 2 && e[0] == '\\' && Short(e[1], c)
    ensures Unescape(e + rest) == Ok(c, rest)
  {
    var s := e + rest;
    assert s[0] == '\\' && s[1] == e[1] && s[2..] == rest;
    hide ReadHex4;
  }

  lemma CodeReads(e: string, c: char, rest: string)
    requires (c as int) < 0x1_0000 && EscapesUnit(e, c as int)
    ensures Unescape(e + rest) == Ok(c, rest)
  {
    UnitReads(e, c as int, rest);
    hide ReadHex4, EscapesUnit;
  }

  lemma PairReads(e: string, c: char, rest: string)
    requires var n := c as int;
             n >= 0x1_0000 && |e| == 12 && EscapesUnit(e[..6], High(n)) && EscapesUnit(e[6..], Low(n))
    ensures Unescape(e + rest) == Ok(c, rest)
  {
    var n := c as int;
    PairIs(n);
    var t := e[6..] + rest;
    var s := e[..6] + t;
    assert e + rest == s;
    UnitReads(e[..6], High(n), t);
    UnitReads(e[6..], Low(n), rest);
    hide EscapesUnit, ReadHex4, High, Low;
    assert s[6..] == t;
    SliceOfSlice(s, 6);
  }

  lemma PairIs(n: int)
    requires 0x1_0000 <= n < 0x11_0000
    ensures 0x1_0000 + (High(n) - 0xD800) * 1024 + (Low(n) - 0xDC00) == n
  {
  }

  lemma SliceOfSlice(s: string, k: nat)
    requires k + 6 <= |s|
    ensures s[k..][2..] == s[k + 2..] && s[k..][6..] == s[k + 6..] && s[k] == s[k..][0] && s[k + 1] == s[k..][1]
  {
  }

  lemma EscapeReads(e: string, c: char, rest: string)
    requires SpellsChar(e, c) && e != [c]
    ensures e[0] == '\\' && Unescape(e + rest) == Ok(c, rest)
  {
    hide Unescape, Short, ReadHex4, High, Low;
    if |e| == 2 {
      ShortReads(e, c, rest);
    } else if |e| == 6 {
      CodeReads(e, c, rest);
    } else {
      PairReads(e, c, rest);
    }
  }

  lemma CharReads(e: string, c: char, tail: string, cs: string, rest: string)
    requires SpellsChar(e, c) && ParseChars(tail) == Ok(cs, rest)
    ensures ParseChars(e + tail) == Ok([c] + cs, rest)
  {
    var all := e + tail;
    if e == [c] {
      assert all[0] == c && all[1..] == tail;
    } else {
      EscapeReads(e, c, tail);
      assert all[0] == e[0];
    }
    hide Unescape, EscapesUnit, Short;
  }

  lemma FirstSpelled(body: string, s: string) returns (n: nat)
    requires SpellsChars(body, s) && |s| > 0
    ensures 0 < n <= |body| && SpellsChar(body[..n], s[0]) && SpellsChars(body[n..], s[1..])
  {
    hide SpellsChar;
    n :| 0 < n <= |body| && SpellsChar(body[..n], s[0]) && SpellsChars(body[n..], s[1..]);
  }

  lemma NoneSpelled(body: string, s: string)
    requires SpellsChars(body, s) && |s| == 0
    ensures |body| == 0 && s == ""
  {
  }

  lemma {:induction false} CharsRead(body: string, s: string, rest: string)
    requires SpellsChars(body, s)
    ensures ParseChars(body + ("\"" + rest)) == Ok(s, rest)
  {
    hide *;
    if |s| == 0 {
      NoneSpelled(body, s);
      NoCharsRead(body, rest);
    } else {
      var n := FirstSpelled(body, s);
      CharsRead(body[n..], s[1..], rest);
      CharReads(body[..n], s[0], body[n..] + ("\"" + rest), s[1..], rest);
      BodyCut(body, n, "\"" + rest);
      assert [s[0]] + s[1..] == s;
    }
  }

  lemma BodyCut(body: string, n: nat, rest: string)
    requires n <= |body|
    ensures body + rest == body[..n] + (body[n..] + rest)
  {
  }

  lemma NoCharsRead(body: string, rest: string)
    requires |body| == 0
    ensures ParseChars(body + ("\"" + rest)) == Ok("", rest)
  {
    assert body + ("\"" + rest) == "\"" + rest;
    assert ("\"" + rest)[1..] == rest;
  }

  // ---- ... and Python's ---------------------------------------------------

  lemma UnicodeEscapes(code: nat)
    requires code < 0x1_0000
    ensures EscapesUnit(UnicodeEscape(code), code)
  {
    assert UnicodeEscape(code)[2..] == Hex4(code);
    Hex4ReadsBack(code);
    UnitIs(UnicodeEscape(code), code);
    hide Hex4, ReadHex4, EscapesUnit;
  }

  lemma EscapeCharSpells(c: char, ascii: bool)
    ensures SpellsChar(EscapeChar(c, ascii), c)
  {
    var n := c as int;
    if n < 0x1_0000 {
      UnicodeEscapes(n);
    } else {
      UnicodeEscapes(High(n));
      UnicodeEscapes(Low(n));
      PairParts(n);
    }
    hide UnicodeEscape, EscapesUnit, SurrogatePair, High, Low;
  }

  lemma PairParts(n: int)
    requires 0x1_0000 <= n < 0x11_0000
    ensures SurrogatePair(n)[..6] == UnicodeEscape(High(n)) && SurrogatePair(n)[6..] == UnicodeEscape(Low(n))
  {
    hide Hex4, High, Low;
  }

  lemma {:induction false} EscapeSpells(s: string, ascii: bool)
    ensures SpellsChars(Escape(s, ascii), s)
  {
    if |s| > 0 {
      EscapeSpells(s[1..], ascii);
      EscapeCharSpells(s[0], ascii);
      var e, body := EscapeChar(s[0], ascii), Escape(s, ascii);
      hide EscapeChar, SpellsChar;
      assert body[..|e|] == e && body[|e|..] == Escape(s[1..], ascii);
    }
  }

  // ---- Reading values ----------------------------------------------------

  /** Every number in it is a number literal. */
  predicate Printable(v: Json) {
    match v
    case Num(literal) => IsNumber(literal)
    case Arr(items) => forall i | 0 <= i < |items| :: Printable(items[i])
    case Obj(fields) => forall i | 0 <= i < |fields| :: Printable(fields[i].value)
    case _ => true
  }

  predicate Space(c: char) {
    c == ' ' || c == '\t' || c == '\n' || c == '\r'
  }

  predicate Blank(s: string) {
    forall i | 0 <= i < |s| :: s[i] == ' ' || s[i] == '\t' || s[i] == '\n' || s[i] == '\r'
  }

  lemma BlankSpace(gap: string)
    requires Blank(gap)
    ensures forall i | 0 <= i < |gap| :: Space(gap[i])
  {
  }

  function SkipSpace(s: string): (r: string)
    ensures |r| <= |s|
    ensures r != "" ==> !Space(r[0])
  {
    if s != "" && Space(s[0]) then SkipSpace(s[1..]) else s
  }

  function ParseValue(s: string): (r: Parsed<Json>)
    ensures r.Ok? ==> |r.rest| < |s| && Printable(r.value)
    decreases |s|, 0
  {
    var t := SkipSpace(s);
    if t == "" then Fail
    else if t[0] == '{' then
      var u := SkipSpace(t[1..]);
      if u != "" && u[0] == '}' then Ok(Obj([]), u[1..])
      else match ParseFields(t[1..])
        case Fail => Fail
        case Ok(fields, rest) => Ok(Obj(fields), rest)
    else if t[0] == '[' then
      var u := SkipSpace(t[1..]);
      if u != "" && u[0] == ']' then Ok(Arr([]), u[1..])
      else match ParseItems(t[1..])
        case Fail => Fail
        case Ok(items, rest) => Ok(Arr(items), rest)
    else if t[0] == '\"' then
      match ParseChars(t[1..])
      case Fail => Fail
      case Ok(chars, rest) => Ok(Str(chars), rest)
    else if "true" <= t then Ok(Bool(true), t[4..])
    else if "false" <= t then Ok(Bool(false), t[5..])
    else if "null" <= t then Ok(Null, t[4..])
    else
      var n := NumberSpan(t);
      if IsNumber(t[..n]) then Ok(Num(t[..n]), t[n..]) else Fail
  }

  /** The items of an array after its "[", up to and with its "]". */
  function ParseItems(s: string): (r: Parsed<seq<Json>>)
    ensures r.Ok? ==> |r.rest| < |s| && Printable(Arr(r.value))
    decreases |s|, 1
  {
    match ParseValue(s)
    case Fail => Fail
    case Ok(item, rest) =>
      var t := SkipSpace(rest);
      if t == "" then Fail
      else if t[0] == ']' then Ok([item], t[1..])
      else if t[0] == ',' then
        match ParseItems(t[1..])
        case Fail => Fail
        case Ok(items, rest') => Ok([item] + items, rest')
      else Fail
  }

  /** The fields of an object after its "{", up to and with its "}". */
  function ParseFields(s: string): (r: Parsed<seq<Field>>)
    ensures r.Ok? ==> |r.rest| < |s| && Printable(Obj(r.value))
    decreases |s|, 1
  {
    var q := SkipSpace(s);
    if q == "" || q[0] != '\"' then Fail else
    match ParseChars(q[1..])
    case Fail => Fail
    case Ok(key, afterKey) =>
      var c := SkipSpace(afterKey);
      if c == "" || c[0] != ':' then Fail else
      match ParseValue(c[1..])
      case Fail => Fail
      case Ok(value, rest) =>
        var t := SkipSpace(rest);
        if t == "" then Fail
        else if t[0] == '}' then Ok([Field(key, value)], t[1..])
        else if t[0] == ',' then
          match ParseFields(t[1..])
          case Fail => Fail
          case Ok(fields, rest') => Ok([Field(key, value)] + fields, rest')
        else Fail
  }

  datatype Loaded = Value(value: Json) | Malformed

  /** `json.loads` and `JSON.parse`: one value and nothing after it. */
  function Loads(s: string): Loaded {
    match ParseValue(s)
    case Fail => Malformed
    case Ok(v, rest) => if SkipSpace(rest) == "" then Value(v) else Malformed
  }

  // ---- Objects as dictionaries -----------------------------------------------

  /** Where a key's value stands: the last field of that name wins, as in the
      dictionary or object built from the text. -1: no such key. */
  function LastIndex(fields: seq<Field>, key: string): (i: int)
    ensures -1 <= i < |fields|
    ensures i >= 0 ==> fields[i].key == key
    ensures forall j | i < j < |fields| :: fields[j].key != key
  {
    if fields == [] then -1
    else if fields[|fields| - 1].key == key then |fields| - 1
    else LastIndex(fields[..|fields| - 1], key)
  }

  lemma LastIndexIs(fields: seq<Field>, key: string, i: nat)
    requires i < |fields| && fields[i].key == key
    requires forall j | i < j < |fields| :: fields[j].key != key
    ensures LastIndex(fields, key) == i
  {
  }

  // ---- Printing values -----------------------------------------------------

  /** A value as it is written, but for white space: words and numbers, string
      literals by what stands between their quotes, lists and objects. */
  datatype Text =
    | Word(word: string)
    | Literal(body: string)
    | List(items: seq<Text>)
    | Record(members: seq<Member>)

  datatype Member = Member(key: string, value: Text)

  /** `t` writes `v`. */
  ghost predicate Spells(t: Text, v: Json)
    decreases v
  {
    match v
    case Null => t == Word("null")
    case Bool(b) => t == Word(if b then "true" else "false")
    case Num(literal) => t == Word(literal) && IsNumber(literal)
    case Str(s) => t.Literal? && SpellsChars(t.body, s)
    case Arr(items) =>
      t.List? && |t.items| == |items| && forall i | 0 <= i < |items| :: Spells(t.items[i], items[i])
    case Obj(fields) =>
      t.Record? && |t.members| == |fields| &&
      forall i | 0 <= i < |fields| ::
        SpellsChars(t.members[i].key, fields[i].key) && Spells(t.members[i].value, fields[i].value)
  }

  function Tokens(t: Text): seq<string>
    decreases t, 0
  {
    match t
    case Word(word) => [word]
    case Literal(body) => [Quoted(body)]
    case List(items) => ["["] + ItemTokens(items) + ["]"]
    case Record(members) => ["{"] + MemberTokens(members) + ["}"]
  }

  function Quoted(body: string): string {
    ['\"'] + (body + ['\"'])
  }

  function ItemTokens(items: seq<Text>): seq<string>
    decreases items, 1
  {
    if items == [] then []
    else if |items| == 1 then Tokens(items[0])
    else Tokens(items[0]) + [","] + ItemTokens(items[1..])
  }

  function OneMemberTokens(member: Member): seq<string>
    decreases member, 1
  {
    [Quoted(member.key), ":"] + Tokens(member.value)
  }

  function MemberTokens(members: seq<Member>): seq<string>
    decreases members, 1
  {
    if members == [] then []
    else if |members| == 1 then OneMemberTokens(members[0])
    else OneMemberTokens(members[0]) + [","] + MemberTokens(members[1..])
  }

  /** `tokens` followed by `rest`, with the white space `gaps(at)`,
      `gaps(at + 1)`, ... before each token. */
  function Weave(tokens: seq<string>, gaps: nat -> string, at: nat, rest: string): string {
    if tokens == [] then rest
    else gaps(at) + (tokens[0] + Weave(tokens[1..], gaps, at + 1, rest))
  }

  ghost predicate Spacing(gaps: nat -> string) {
    forall i: nat :: Blank(gaps(i))
  }

  /** The white space `json.dumps` puts before each token: `afterSeparator`
      after a comma or a colon. */
  function Gaps(tokens: seq<string>, afterSeparator: string): nat -> string {
    (i: nat) =>
      if 0 < i < |tokens| && (tokens[i - 1] == "," || tokens[i - 1] == ":") then afterSeparator
      else ""
  }

  /** What `json.dumps` writes for `v`. */
  function Printed(v: Json, ascii: bool): Text {
    match v
    case Null => Word("null")
    case Bool(b) => Word(if b then "true" else "false")
    case Num(literal) => Word(literal)
    case Str(s) => Literal(Escape(s, ascii))
    case Arr(items) => List(seq(|items|, i requires 0 <= i < |items| => Printed(items[i], ascii)))
    case Obj(fields) =>
      Record(seq(|fields|, i requires 0 <= i < |fields| =>
               Member(Escape(fields[i].key, ascii), Printed(fields[i].value, ascii))))
  }

  /** `json.dumps(v, ensure_ascii=False, separators=(",", ":"))` (app/sse.py). */
  function DumpsCompact(v: Json): string {
    var tokens := Tokens(Printed(v, false));
    Weave(tokens, Gaps(tokens, ""), 0, "")
  }

  /** `json.dumps(v)` with its defaults. */
  function Dumps(v: Json): string {
    var tokens := Tokens(Printed(v, true));
    Weave(tokens, Gaps(tokens, " "), 0, "")
  }

  lemma {:induction false} PrintedSpells(v: Json, ascii: bool)
    requires Printable(v)
    ensures Spells(Printed(v, ascii), v)
  {
    match v
    case Str(s) => EscapeSpells(s, ascii);
    case Arr(items) =>
      forall i | 0 <= i < |items| ensures Spells(Printed(items[i], ascii), items[i]) {
        PrintedSpells(items[i], ascii);
      }
    case Obj(fields) =>
      forall i | 0 <= i < |fields|
        ensures SpellsChars(Escape(fields[i].key, ascii), fields[i].key)
                && Spells(Printed(fields[i].value, ascii), fields[i].value)
      {
        EscapeSpells(fields[i].key, ascii);
        PrintedSpells(fields[i].value, ascii);
      }
    case _ =>
  }

  // ---- Printing and reading are inverse ------------------------------------

  lemma {:induction false} SkipSpaceSkips(gap: string, s: string)
    requires Blank(gap) && (s != "" ==> !Space(s[0]))
    ensures SkipSpace(gap + s) == s
  {
    if gap == "" {
      assert gap + s == s;
    } else {
      assert (gap + s)[1..] == gap[1..] + s;
      SkipSpaceSkips(gap[1..], s);
    }
  }

  lemma {:induction false} NumberSpanStops(s: string, rest: string)
    requires forall i | 0 <= i < |s| :: NumberChar(s[i])
    requires rest != "" ==> !NumberChar(rest[0])
    ensures NumberSpan(s + rest) == |s|
  {
    if s == "" {
      assert s + rest == rest;
    } else {
      assert (s + rest)[1..] == s[1..] + rest;
      NumberSpanStops(s[1..], rest);
    }
  }

  lemma NumberCharsOfExponent(s: string)
    requires IsExponent(s)
    ensures forall i | 0 <= i < |s| :: NumberChar(s[i])
  {
    if s != "" {
      var t := if |s| > 1 && (s[1] == '+' || s[1] == '-') then s[2..] else s[1..];
      forall i | 0 <= i < |s| ensures NumberChar(s[i]) {
        if i >= |s| - |t| { assert s[i] == t[i - (|s| - |t|)]; }
      }
    }
  }

  lemma NumberCharsOfFraction(s: string)
    requires IsFraction(s)
    ensures forall i | 0 <= i < |s| :: NumberChar(s[i])
  {
    hide IsExponent, NumberChar;
    if |s| > 0 && s[0] == '.' {
      var d := DigitSpan(s[1..]);
      NumberCharsOfExponent(s[1 + d..]);
      assert s[1..][d..] == s[1 + d..];
      hide *;
      DotChar();
      CharsInTwo(s[1..], d);
      FirstChar(s);
    } else {
      NumberCharsOfExponent(s);
    }
  }

  lemma DotChar()
    ensures NumberChar('.')
  {
  }

  lemma FirstChar(s: string)
    requires |s| > 0 && NumberChar(s[0]) && forall i | 0 <= i < |s| - 1 :: NumberChar(s[1..][i])
    ensures forall i | 0 <= i < |s| :: NumberChar(s[i])
  {
    hide NumberChar;
    forall i | 0 <= i < |s| ensures NumberChar(s[i]) {
      if i > 0 { assert s[i] == s[1..][i - 1]; }
    }
  }

  lemma NumberChars(s: string)
    requires IsNumber(s)
    ensures s != "" && (IsDigit(s[0]) || s[0] == '-')
    ensures forall i | 0 <= i < |s| :: NumberChar(s[i])
  {
    var t := if |s| > 0 && s[0] == '-' then s[1..] else s;
    UnsignedNumberChars(t);
    hide IsFraction, DigitSpan;
    forall i | 0 <= i < |s| ensures NumberChar(s[i]) {
      if |t| < |s| && i > 0 { assert s[i] == t[i - 1]; }
    }
  }

  lemma UnsignedNumberChars(t: string)
    requires var d := DigitSpan(t); d > 0 && IsFraction(t[d..])
    ensures t != "" && IsDigit(t[0])
    ensures forall i | 0 <= i < |t| :: NumberChar(t[i])
  {
    var d := DigitSpan(t);
    NumberCharsOfFraction(t[d..]);
    assert t[..d][0] == t[0];
    hide *;
    CharsInTwo(t, d);
  }

  lemma CharsInTwo(t: string, d: nat)
    requires d <= |t| && AllDigits(t[..d]) && forall i | 0 <= i < |t| - d :: NumberChar(t[d..][i])
    ensures forall i | 0 <= i < |t| :: NumberChar(t[i])
  {
    forall i | 0 <= i < |t| ensures NumberChar(t[i]) {
      if i < d { assert t[i] == t[..d][i]; } else { assert t[i] == t[d..][i - d]; }
    }
  }

  lemma {:induction false} WeaveSplits(a: seq<string>, b: seq<string>, gaps: nat -> string, at: nat, rest: string)
    ensures Weave(a + b, gaps, at, rest) == Weave(a, gaps, at, Weave(b, gaps, at + |a|, rest))
  {
    if a == [] {
      assert a + b == b;
    } else {
      assert (a + b)[1..] == a[1..] + b;
      WeaveSplits(a[1..], b, gaps, at + 1, rest);
    }
  }

  lemma WeaveNothing(gaps: nat -> string, at: nat, rest: string)
    ensures Weave([], gaps, at, rest) == rest
  {
  }

  /** The text of a token list cut at one of its tokens. */
  lemma WeaveCut(head: seq<string>, token: string, more: seq<string>, gaps: nat -> string, at: nat, rest: string)
    ensures Weave(head + [token] + more, gaps, at, rest)
            == Weave(head, gaps, at,
                     gaps(at + |head|) + (token + Weave(more, gaps, at + |head| + 1, rest)))
  {
    assert head + [token] + more == head + ([token] + more);
    WeaveSplits(head, [token] + more, gaps, at, rest);
    assert ([token] + more)[1..] == more;
  }

  /** The first token of a value never starts with white space or closes a
      list, so a reader that skips white space meets it. */
  lemma FirstToken(t: Text, v: Json)
    requires Spells(t, v)
    ensures Tokens(t) != [] && Tokens(t)[0] != ""
    ensures var c := Tokens(t)[0][0]; !Space(c) && c != ']' && c != '}'
  {
    if v.Num? { NumberChars(v.literal); }
  }

  ghost predicate EndsNumber(rest: string) {
    rest != "" ==> !NumberChar(rest[0])
  }

  lemma BlankThenEndsNumber(gap: string, close: char, after: string)
    requires Blank(gap) && (close == ',' || close == ']' || close == '}' || close == ':')
    ensures EndsNumber(gap + ([close] + after))
  {
    var s := gap + ([close] + after);
    assert s[0] == if gap != "" then gap[0] else close;
  }

  /** Reading a written value gives the value back, whatever the spacing and
      whatever follows it. */
  lemma {:induction false} ValueReadsBack(t: Text, v: Json, gaps: nat -> string, at: nat, rest: string)
    requires Spells(t, v) && Spacing(gaps)
    requires v.Num? ==> EndsNumber(rest)
    ensures ParseValue(Weave(Tokens(t), gaps, at, rest)) == Ok(v, rest)
    decreases v, 0
  {
    match v
    case Arr(items) => ArrayReadsBack(t.items, items, gaps, at, rest);
    case Obj(fields) => ObjectReadsBack(t.members, fields, gaps, at, rest);
    case _ =>
      OneToken(t, v, gaps, at, rest);
      ScalarReads(t, v, rest);
      hide *;
      SkipsToValue(gaps(at), Tokens(t)[0] + rest);
  }

  lemma OneToken(t: Text, v: Json, gaps: nat -> string, at: nat, rest: string)
    requires Spells(t, v) && !v.Arr? && !v.Obj?
    ensures |Tokens(t)| == 1 && Weave(Tokens(t), gaps, at, rest) == gaps(at) + (Tokens(t)[0] + rest)
  {
    hide SpellsChars, IsNumber;
  }

  lemma SkipsToValue(gap: string, t: string)
    requires Blank(gap) && t != "" && !Space(t[0])
    ensures ParseValue(gap + t) == ParseValue(t)
  {
    SkipSpaceSkips(gap, t);
    SkipSpaceSkips("", t);
    assert "" + t == t;
  }

  lemma ScalarReads(t: Text, v: Json, rest: string)
    requires !v.Arr? && !v.Obj? && Spells(t, v)
    requires v.Num? ==> EndsNumber(rest)
    ensures ReadsAs(Tokens(t)[0] + rest, v, rest)
  {
    match v
    case Str(s) => StringReads(t.body, s, rest);
    case Num(literal) => NumberReads(literal, rest);
    case Bool(b) => WordReads(if b then "true" else "false", v, rest);
    case Null => WordReads("null", v, rest);
  }

  /** `t` starts with a value: no white space first. */
  ghost predicate ReadsAs(t: string, v: Json, rest: string) {
    t != "" && !Space(t[0]) && ParseValue(t) == Ok(v, rest)
  }

  lemma StringReads(body: string, s: string, rest: string)
    requires SpellsChars(body, s)
    ensures ReadsAs(Quoted(body) + rest, Str(s), rest)
  {
    QuotedThen(body, rest);
    CharsRead(body, s, rest);
    hide SpellsChars, ParseChars, Quoted;
  }

  lemma QuotedThen(body: string, rest: string)
    ensures var t := Quoted(body) + rest; t != "" && t[0] == '\"' && t[1..] == body + ("\"" + rest)
  {
  }

  lemma WordReads(word: string, v: Json, rest: string)
    requires || (word == "true" && v == Bool(true)) || (word == "false" && v == Bool(false))
             || (word == "null" && v == Null)
    ensures ReadsAs(word + rest, v, rest)
  {
    var t := word + rest;
    assert t[..|word|] == word && t[|word|..] == rest;
    assert t[0] == word[0] && word <= t;
  }

  lemma NumberReads(literal: string, rest: string)
    requires IsNumber(literal) && EndsNumber(rest)
    ensures ReadsAs(literal + rest, Num(literal), rest)
  {
    NumberChars(literal);
    NumberSpanStops(literal, rest);
    var t := literal + rest;
    assert t[0] == literal[0];
    assert t[..|literal|] == literal && t[|literal|..] == rest;
  }

  /** How a bracket opens a list: what the reader sees before and after it. */
  lemma OpenList(open: char, inner: seq<string>, gaps: nat -> string, at: nat, rest: string)
    requires (open == '[' || open == '{') && inner != [] && inner[0] != "" && !Space(inner[0][0]) && Spacing(gaps)
    ensures var t := SkipSpace(Weave([[open]] + inner, gaps, at, rest));
            t != "" && t[0] == open && t[1..] == Weave(inner, gaps, at + 1, rest)
            && SkipSpace(t[1..]) == inner[0] + Weave(inner[1..], gaps, at + 2, rest)
  {
    var after := Weave(inner, gaps, at + 1, rest);
    assert ([[open]] + inner)[1..] == inner;
    SkipSpaceSkips(gaps(at), [open] + after);
    assert ([open] + after)[1..] == after;
    var first := inner[0] + Weave(inner[1..], gaps, at + 2, rest);
    assert first[0] == inner[0][0];
    SkipSpaceSkips(gaps(at + 1), first);
  }

  lemma BracketStep(s: string, t: string)
    requires SkipSpace(s) == t && t != ""
    ensures t[0] == '[' ==>
              var u := SkipSpace(t[1..]);
              (u != "" && u[0] == ']' ==> ParseValue(s) == Ok(Arr([]), u[1..])) &&
              (u != "" && u[0] != ']' && ParseItems(t[1..]).Ok? ==>
                 ParseValue(s) == Ok(Arr(ParseItems(t[1..]).value), ParseItems(t[1..]).rest))
    ensures t[0] == '{' ==>
              var u := SkipSpace(t[1..]);
              (u != "" && u[0] == '}' ==> ParseValue(s) == Ok(Obj([]), u[1..])) &&
              (u != "" && u[0] != '}' && ParseFields(t[1..]).Ok? ==>
                 ParseValue(s) == Ok(Obj(ParseFields(t[1..]).value), ParseFields(t[1..]).rest))
  {
  }

  lemma FirstItemToken(texts: seq<Text>, items: seq<Json>)
    requires Spells(List(texts), Arr(items))
    ensures var inner := ItemTokens(texts) + ["]"];
            && Tokens(List(texts)) == ["["] + inner
            && (|items| == 0 ==> inner == ["]"])
            && inner[0] != "" && !Space(inner[0][0]) && (|items| > 0 ==> inner[0][0] != ']')
  {
    if items != [] { FirstToken(texts[0], items[0]); }
    hide Spells;
  }

  lemma ArrayOpens(texts: seq<Text>, items: seq<Json>, gaps: nat -> string, at: nat, rest: string)
    requires Spells(List(texts), Arr(items)) && Spacing(gaps)
    ensures var t := SkipSpace(Weave(Tokens(List(texts)), gaps, at, rest));
            && t != "" && t[0] == '[' && t[1..] == Weave(ItemTokens(texts) + ["]"], gaps, at + 1, rest)
            && var u := SkipSpace(t[1..]);
               u != "" && if |items| == 0 then u[0] == ']' && u[1..] == rest else u[0] != ']'
  {
    hide *;
    var inner := ItemTokens(texts) + ["]"];
    FirstItemToken(texts, items);
    OpenList('[', inner, gaps, at, rest);
    if |items| == 0 { EmptyListReads("]", inner, gaps, at + 2, rest); }
  }

  lemma ArrayReadsBack(texts: seq<Text>, items: seq<Json>, gaps: nat -> string, at: nat, rest: string)
    requires Spells(List(texts), Arr(items)) && Spacing(gaps)
    ensures ParseValue(Weave(Tokens(List(texts)), gaps, at, rest)) == Ok(Arr(items), rest)
    decreases items, 2
  {
    hide *;
    var s := Weave(Tokens(List(texts)), gaps, at, rest);
    ArrayOpens(texts, items, gaps, at, rest);
    BracketStep(s, SkipSpace(s));
    if |items| == 0 { assert items == []; } else { ItemsReadBack(texts, items, gaps, at + 1, rest); }
  }

  lemma EmptyListReads(close: string, inner: seq<string>, gaps: nat -> string, at: nat, rest: string)
    requires |close| == 1 && inner == [close]
    ensures var u := inner[0] + Weave(inner[1..], gaps, at, rest); u != "" && u[0] == close[0] && u[1..] == rest
  {
  }

  lemma HeadAndTail<T>(s: seq<T>)
    requires s != []
    ensures s == if |s| == 1 then [s[0]] else [s[0]] + s[1..]
  {
  }

  lemma TailMoves<T>(a: seq<T>, b: seq<T>, c: seq<T>)
    ensures (a + b) + c == a + (b + c)
  {
  }

  lemma LastItemText(texts: seq<Text>, gaps: nat -> string, at: nat, rest: string) returns (next: nat)
    requires |texts| == 1
    ensures Weave(ItemTokens(texts) + ["]"], gaps, at, rest)
            == Weave(Tokens(texts[0]), gaps, at, gaps(next) + ([']'] + rest))
  {
    var head := Tokens(texts[0]);
    next := at + |head|;
    assert ItemTokens(texts) == head;
    hide *;
    assert head + ["]"] == head + ["]"] + [];
    WeaveCut(head, [']'], [], gaps, at, rest);
    WeaveNothing(gaps, next + 1, rest);
  }

  lemma MoreItemsText(texts: seq<Text>, gaps: nat -> string, at: nat, rest: string) returns (next: nat)
    requires |texts| > 1
    ensures Weave(ItemTokens(texts) + ["]"], gaps, at, rest)
            == Weave(Tokens(texts[0]), gaps, at,
                     gaps(next) + ([','] + Weave(ItemTokens(texts[1..]) + ["]"], gaps, next + 1, rest)))
  {
    var head, more := Tokens(texts[0]), ItemTokens(texts[1..]);
    next := at + |head|;
    assert ItemTokens(texts) == head + [","] + more;
    hide *;
    TailMoves(head + [","], more, ["]"]);
    WeaveCut(head, [','], more + ["]"], gaps, at, rest);
  }

  lemma SpelledItems(texts: seq<Text>, items: seq<Json>)
    requires items != [] && Spells(List(texts), Arr(items))
    ensures |texts| == |items| && Spells(texts[0], items[0])
    ensures |items| > 1 ==> Spells(List(texts[1..]), Arr(items[1..]))
  {
  }

  lemma LastItem(s: string, item: Json, gap: string, rest: string)
    requires ParseValue(s) == Ok(item, gap + ([']'] + rest)) && Blank(gap)
    ensures ParseItems(s) == Ok([item], rest)
  {
    CloseReads(gap, ']', rest);
    hide ParseValue, SkipSpace;
  }

  lemma OneMoreItem(s: string, item: Json, gap: string, after: string, items: seq<Json>, rest: string)
    requires ParseValue(s) == Ok(item, gap + ([','] + after)) && Blank(gap)
    requires ParseItems(after) == Ok(items, rest)
    ensures ParseItems(s) == Ok([item] + items, rest)
  {
    CloseReads(gap, ',', after);
    hide ParseValue, SkipSpace;
  }

  lemma {:induction false} ItemsReadBack(texts: seq<Text>, items: seq<Json>, gaps: nat -> string, at: nat, rest: string)
    requires items != [] && Spells(List(texts), Arr(items)) && Spacing(gaps)
    ensures ParseItems(Weave(ItemTokens(texts) + ["]"], gaps, at, rest)) == Ok(items, rest)
    decreases items, 1
  {
    hide *;
    SpelledItems(texts, items);
    var s := Weave(ItemTokens(texts) + ["]"], gaps, at, rest);
    HeadAndTail(items);
    if |texts| == 1 {
      var next := LastItemText(texts, gaps, at, rest);
      BlankGap(gaps, next);
      BlankThenEndsNumber(gaps(next), ']', rest);
      ValueReadsBack(texts[0], items[0], gaps, at, gaps(next) + ([']'] + rest));
      LastItem(s, items[0], gaps(next), rest);
    } else {
      var next := MoreItemsText(texts, gaps, at, rest);
      var after := Weave(ItemTokens(texts[1..]) + ["]"], gaps, next + 1, rest);
      BlankGap(gaps, next);
      BlankThenEndsNumber(gaps(next), ',', after);
      ValueReadsBack(texts[0], items[0], gaps, at, gaps(next) + ([','] + after));
      ItemsReadBack(texts[1..], items[1..], gaps, next + 1, rest);
      OneMoreItem(s, items[0], gaps(next), after, items[1..], rest);
    }
  }

  lemma CloseReads(gap: string, close: char, after: string)
    requires Blank(gap) && (close == ',' || close == ']' || close == '}' || close == ':')
    ensures var t := SkipSpace(gap + ([close] + after)); t != "" && t[0] == close && t[1..] == after
  {
    SkipSpaceSkips(gap, [close] + after);
    assert ([close] + after)[1..] == after;
  }

  lemma QuotedStarts(body: string)
    ensures Quoted(body) != "" && Quoted(body)[0] == '\"' && !Space('\"') && !Space('}')
  {
  }

  lemma FirstOfMembers(members: seq<Member>)
    requires |members| > 0
    ensures |MemberTokens(members)| > 0 && MemberTokens(members)[0] == Quoted(members[0].key)
  {
    hide Tokens, Quoted;
    assert OneMemberTokens(members[0])[0] == Quoted(members[0].key);
  }

  lemma NoMembers(members: seq<Member>)
    requires |members| == 0
    ensures MemberTokens(members) + ["}"] == ["}"]
  {
  }

  lemma FirstMemberToken(members: seq<Member>)
    ensures var inner := MemberTokens(members) + ["}"];
            && Tokens(Record(members)) == ["{"] + inner
            && (|members| == 0 ==> inner == ["}"])
            && inner[0] != "" && !Space(inner[0][0]) && inner[0][0] == (if |members| == 0 then '}' else '\"')
  {
    assert Tokens(Record(members)) == ["{"] + MemberTokens(members) + ["}"];
    hide *;
    TailMoves(["{"], MemberTokens(members), ["}"]);
    if |members| > 0 {
      FirstOfMembers(members);
      QuotedStarts(members[0].key);
    } else {
      NoMembers(members);
      QuotedStarts("");
    }
  }

  lemma ObjectOpens(members: seq<Member>, gaps: nat -> string, at: nat, rest: string)
    requires Spacing(gaps)
    ensures var t := SkipSpace(Weave(Tokens(Record(members)), gaps, at, rest));
            && t != "" && t[0] == '{' && t[1..] == Weave(MemberTokens(members) + ["}"], gaps, at + 1, rest)
            && var u := SkipSpace(t[1..]);
               u != "" && if |members| == 0 then u[0] == '}' && u[1..] == rest else u[0] != '}'
  {
    hide *;
    var inner := MemberTokens(members) + ["}"];
    FirstMemberToken(members);
    OpenList('{', inner, gaps, at, rest);
    if |members| == 0 { EmptyListReads("}", inner, gaps, at + 2, rest); }
  }

  lemma ObjectReadsBack(members: seq<Member>, fields: seq<Field>, gaps: nat -> string, at: nat, rest: string)
    requires Spells(Record(members), Obj(fields)) && Spacing(gaps)
    ensures ParseValue(Weave(Tokens(Record(members)), gaps, at, rest)) == Ok(Obj(fields), rest)
    decreases fields, 2
  {
    hide *;
    var s := Weave(Tokens(Record(members)), gaps, at, rest);
    AsManyMembers(members, fields);
    ObjectOpens(members, gaps, at, rest);
    BracketStep(s, SkipSpace(s));
    if |fields| == 0 { assert fields == []; } else { FieldsReadBack(members, fields, gaps, at + 1, rest); }
  }

  lemma AsManyMembers(members: seq<Member>, fields: seq<Field>)
    requires Spells(Record(members), Obj(fields))
    ensures |members| == |fields|
  {
  }

  /** What reading a key, a colon and a value at the start of `s` finds. */
  ghost predicate ReadsField(s: string, field: Field, tail: string) {
    var q := SkipSpace(s);
    q != "" && q[0] == '\"' &&
    var key := ParseChars(q[1..]);
    key.Ok? && key.value == field.key &&
    var c := SkipSpace(key.rest);
    c != "" && c[0] == ':' && ParseValue(c[1..]) == Ok(field.value, tail)
  }

  lemma FieldReadsBack(member: Member, field: Field, gaps: nat -> string, at: nat, tail: string)
    requires SpellsChars(member.key, field.key) && Spells(member.value, field.value)
    requires Spacing(gaps) && EndsNumber(tail)
    ensures ReadsField(Weave(OneMemberTokens(member), gaps, at, tail), field, tail)
    decreases field, 1
  {
    hide *;
    var afterColon := Weave(Tokens(member.value), gaps, at + 2, tail);
    MemberText(member, gaps, at, tail);
    BlankGap(gaps, at);
    BlankGap(gaps, at + 1);
    KeyReads(member.key, field.key, gaps(at), gaps(at + 1) + (":" + afterColon));
    ColonReads(gaps(at + 1), afterColon);
    ValueReadsBack(member.value, field.value, gaps, at + 2, tail);
    FieldIsRead(gaps(at) + (Quoted(member.key) + (gaps(at + 1) + (":" + afterColon))), field,
                gaps(at + 1) + (":" + afterColon), tail);
  }

  lemma BlankGap(gaps: nat -> string, at: nat)
    requires Spacing(gaps)
    ensures Blank(gaps(at))
  {
  }

  lemma ColonReads(gap: string, after: string)
    requires Blank(gap)
    ensures var c := SkipSpace(gap + (":" + after)); c != "" && c[0] == ':' && c[1..] == after
  {
    CloseReads(gap, ':', after);
  }

  lemma MemberText(member: Member, gaps: nat -> string, at: nat, tail: string)
    ensures Weave(OneMemberTokens(member), gaps, at, tail)
            == gaps(at) + (Quoted(member.key)
                           + (gaps(at + 1) + (":" + Weave(Tokens(member.value), gaps, at + 2, tail))))
  {
    var tokens := OneMemberTokens(member);
    assert tokens[1..] == [":"] + Tokens(member.value);
    assert tokens[1..][1..] == Tokens(member.value);
    hide Tokens, Quoted;
  }

  lemma FieldIsRead(s: string, field: Field, afterKey: string, tail: string)
    requires var q := SkipSpace(s); q != "" && q[0] == '\"' && ParseChars(q[1..]) == Ok(field.key, afterKey)
    requires var c := SkipSpace(afterKey); c != "" && c[0] == ':' && ParseValue(c[1..]) == Ok(field.value, tail)
    ensures ReadsField(s, field, tail)
  {
    hide SkipSpace, ParseChars, ParseValue;
  }

  lemma KeyReads(body: string, key: string, gap: string, after: string)
    requires Blank(gap) && SpellsChars(body, key)
    ensures var q := SkipSpace(gap + (Quoted(body) + after));
            q != "" && q[0] == '\"' && ParseChars(q[1..]) == Ok(key, after)
  {
    QuotedThen(body, after);
    SkipSpaceSkips(gap, Quoted(body) + after);
    CharsRead(body, key, after);
    hide SpellsChars, ParseChars, Quoted, SkipSpace;
  }

  lemma LastMemberText(members: seq<Member>, gaps: nat -> string, at: nat, rest: string) returns (next: nat)
    requires |members| == 1
    ensures Weave(MemberTokens(members) + ["}"], gaps, at, rest)
            == Weave(OneMemberTokens(members[0]), gaps, at, gaps(next) + (['}'] + rest))
  {
    var head := OneMemberTokens(members[0]);
    next := at + |head|;
    assert MemberTokens(members) == head;
    hide *;
    assert head + ["}"] == head + ["}"] + [];
    WeaveCut(head, ['}'], [], gaps, at, rest);
    WeaveNothing(gaps, next + 1, rest);
  }

  lemma MoreMembersText(members: seq<Member>, gaps: nat -> string, at: nat, rest: string) returns (next: nat)
    requires |members| > 1
    ensures Weave(MemberTokens(members) + ["}"], gaps, at, rest)
            == Weave(OneMemberTokens(members[0]), gaps, at,
                     gaps(next) + ([','] + Weave(MemberTokens(members[1..]) + ["}"], gaps, next + 1, rest)))
  {
    var head, more := OneMemberTokens(members[0]), MemberTokens(members[1..]);
    next := at + |head|;
    assert MemberTokens(members) == head + [","] + more;
    hide *;
    TailMoves(head + [","], more, ["}"]);
    WeaveCut(head, [','], more + ["}"], gaps, at, rest);
  }

  lemma SpelledFields(members: seq<Member>, fields: seq<Field>)
    requires fields != [] && Spells(Record(members), Obj(fields))
    ensures |members| == |fields|
    ensures SpellsChars(members[0].key, fields[0].key) && Spells(members[0].value, fields[0].value)
    ensures |fields| > 1 ==> Spells(Record(members[1..]), Obj(fields[1..]))
  {
    hide SpellsChars;
  }

  lemma LastField(s: string, field: Field, gap: string, rest: string)
    requires ReadsField(s, field, gap + (['}'] + rest)) && Blank(gap)
    ensures ParseFields(s) == Ok([field], rest)
  {
    CloseReads(gap, '}', rest);
    hide ParseValue, ParseChars, SkipSpace;
  }

  lemma OneMoreField(s: string, field: Field, gap: string, after: string, fields: seq<Field>, rest: string)
    requires ReadsField(s, field, gap + ([','] + after)) && Blank(gap)
    requires ParseFields(after) == Ok(fields, rest)
    ensures ParseFields(s) == Ok([field] + fields, rest)
  {
    CloseReads(gap, ',', after);
    hide ParseValue, ParseChars, SkipSpace;
  }

  lemma {:induction false} FieldsReadBack(members: seq<Member>, fields: seq<Field>, gaps: nat -> string, at: nat,
                                          rest: string)
    requires fields != [] && Spells(Record(members), Obj(fields)) && Spacing(gaps)
    ensures ParseFields(Weave(MemberTokens(members) + ["}"], gaps, at, rest)) == Ok(fields, rest)
    decreases fields, 1
  {
    hide *;
    SpelledFields(members, fields);
    var s := Weave(MemberTokens(members) + ["}"], gaps, at, rest);
    HeadAndTail(fields);
    if |members| == 1 {
      var next := LastMemberText(members, gaps, at, rest);
      BlankGap(gaps, next);
      BlankThenEndsNumber(gaps(next), '}', rest);
      FieldReadsBack(members[0], fields[0], gaps, at, gaps(next) + (['}'] + rest));
      LastField(s, fields[0], gaps(next), rest);
    } else {
      var next := MoreMembersText(members, gaps, at, rest);
      var after := Weave(MemberTokens(members[1..]) + ["}"], gaps, next + 1, rest);
      BlankGap(gaps, next);
      BlankThenEndsNumber(gaps(next), ',', after);
      FieldReadsBack(members[0], fields[0], gaps, at, gaps(next) + ([','] + after));
      FieldsReadBack(members[1..], fields[1..], gaps, next + 1, rest);
      OneMoreField(s, fields[0], gaps(next), after, fields[1..], rest);
    }
  }

  /** Any text of a value - any white space between its tokens and at the end,
      each character of its strings written in any of its ways - loads as that
      value. */
  lemma LoadsAnySpelling(t: Text, v: Json, gaps: nat -> string, end: string)
    requires Spells(t, v) && Spacing(gaps) && Blank(end)
    ensures Loads(Weave(Tokens(t), gaps, 0, end)) == Value(v)
  {
    hide Spells, Tokens, Weave, ParseValue;
    if end != "" { assert Space(end[0]); }
    ValueReadsBack(t, v, gaps, 0, end);
    SkipSpaceSkips(end, "");
    assert end + "" == end;
  }

  lemma LoadsDumpsCompact(v: Json)
    requires Printable(v)
    ensures Loads(DumpsCompact(v)) == Value(v)
  {
    hide Spells, Tokens, Weave, Loads, Printed;
    PrintedSpells(v, false);
    LoadsAnySpelling(Printed(v, false), v, Gaps(Tokens(Printed(v, false)), ""), "");
  }

  lemma LoadsDumps(v: Json)
    requires Printable(v)
    ensures Loads(Dumps(v)) == Value(v)
  {
    hide Spells, Tokens, Weave, Loads, Printed;
    PrintedSpells(v, true);
    LoadsAnySpelling(Printed(v, true), v, Gaps(Tokens(Printed(v, true)), " "), "");
  }

  // ---- A text that is never JSON ------------------------------------------------

  /** Ends with U+0001, which is neither white space nor part of any token. */
  ghost predicate EndsRaw(s: string) {
    |s| > 0 && s[|s| - 1] as int == 1
  }

  lemma DropKeepsEnd(s: string, k: nat)
    requires EndsRaw(s) && k < |s|
    ensures EndsRaw(s[k..])
  {
  }

  lemma {:induction false} SkipSpaceKeepsEnd(s: string)
    requires EndsRaw(s)
    ensures EndsRaw(SkipSpace(s))
  {
    if Space(s[0]) {
      DropKeepsEnd(s, 1);
      SkipSpaceKeepsEnd(s[1..]);
    }
  }

  lemma HexKeepsEnd(s: string)
    requires EndsRaw(s) && ReadHex4(s) >= 0
    ensures |s| > 4
  {
  }

  lemma UnescapeKeepsEnd(s: string)
    requires EndsRaw(s) && s[0] == '\\' && Unescape(s).Ok?
    ensures EndsRaw(Unescape(s).rest)
  {
    hide ReadHex4;
    if |s| > 2 {
      DropKeepsEnd(s, 2);
      if s[1] == 'u' {
        HexKeepsEnd(s[2..]);
        DropKeepsEnd(s, 6);
        if |s| >= 12 && s[6] == '\\' && s[7] == 'u' {
          DropKeepsEnd(s, 8);
          if ReadHex4(s[8..]) >= 0 {
            HexKeepsEnd(s[8..]);
            DropKeepsEnd(s, 12);
          }
        }
      }
    }
  }

  lemma {:induction false} CharsKeepEnd(s: string)
    requires EndsRaw(s) && ParseChars(s).Ok?
    ensures EndsRaw(ParseChars(s).rest)
    decreases |s|
  {
    hide Unescape;
    if s[0] == '\"' {
      DropKeepsEnd(s, 1);
    } else if s[0] == '\\' {
      UnescapeKeepsEnd(s);
      CharsKeepEnd(Unescape(s).rest);
    } else {
      DropKeepsEnd(s, 1);
      CharsKeepEnd(s[1..]);
    }
  }

  lemma AfterToken(t: string, k: nat)
    requires EndsRaw(t) && k <= |t| && forall i | 0 <= i < k :: t[i] as int != 1
    ensures k < |t| && EndsRaw(t[k..])
  {
  }

  /** Any other value is a word or a number. */
  lemma WordOrNumber(s: string) returns (k: nat)
    requires var t := SkipSpace(s); t != "" && t[0] != '{' && t[0] != '[' && t[0] != '\"' && ParseValue(s).Ok?
    ensures var t := SkipSpace(s);
            k <= |t| && ParseValue(s).rest == t[k..] && forall i | 0 <= i < k :: t[i] as int != 1
  {
    hide SkipSpace, IsNumber, ParseItems, ParseFields, ParseChars;
    var t := SkipSpace(s);
    k := if "true" <= t || "null" <= t then 4 else if "false" <= t then 5 else NumberSpan(t);
  }

  lemma {:induction false} ValueKeepsEnd(s: string)
    requires EndsRaw(s) && ParseValue(s).Ok?
    ensures EndsRaw(ParseValue(s).rest)
    decreases |s|, 0
  {
    hide ParseChars, IsNumber, ParseItems, ParseFields, SkipSpace;
    var t := SkipSpace(s);
    SkipSpaceKeepsEnd(s);
    if t[0] == '{' || t[0] == '[' || t[0] == '\"' {
      AfterToken(t, 1);
      var u := SkipSpace(t[1..]);
      SkipSpaceKeepsEnd(t[1..]);
      if t[0] == '\"' {
        CharsKeepEnd(t[1..]);
      } else if t[0] == '{' {
        if u[0] == '}' { AfterToken(u, 1); } else { FieldsKeepEnd(t[1..]); }
      } else {
        if u[0] == ']' { AfterToken(u, 1); } else { ItemsKeepEnd(t[1..]); }
      }
    } else {
      var k := WordOrNumber(s);
      AfterToken(t, k);
    }
  }

  lemma {:induction false} ItemsKeepEnd(s: string)
    requires EndsRaw(s) && ParseItems(s).Ok?
    ensures EndsRaw(ParseItems(s).rest)
    decreases |s|, 1
  {
    hide ParseValue, SkipSpace;
    ValueKeepsEnd(s);
    var rest := ParseValue(s).rest;
    var t := SkipSpace(rest);
    SkipSpaceKeepsEnd(rest);
    AfterToken(t, 1);
    if t[0] == ',' { ItemsKeepEnd(t[1..]); }
  }

  lemma {:induction false} FieldsKeepEnd(s: string)
    requires EndsRaw(s) && ParseFields(s).Ok?
    ensures EndsRaw(ParseFields(s).rest)
    decreases |s|, 1
  {
    hide ParseValue, ParseChars, SkipSpace;
    var q := SkipSpace(s);
    SkipSpaceKeepsEnd(s);
    AfterToken(q, 1);
    CharsKeepEnd(q[1..]);
    var afterKey := ParseChars(q[1..]).rest;
    var c := SkipSpace(afterKey);
    SkipSpaceKeepsEnd(afterKey);
    AfterToken(c, 1);
    ValueKeepsEnd(c[1..]);
    var rest := ParseValue(c[1..]).rest;
    var t := SkipSpace(rest);
    SkipSpaceKeepsEnd(rest);
    AfterToken(t, 1);
    if t[0] == ',' { FieldsKeepEnd(t[1..]); }
  }

  lemma RawEndIsMalformed(s: string)
    requires EndsRaw(s)
    ensures Loads(s) == Malformed
  {
    hide ParseValue, SkipSpace;
    if ParseValue(s).Ok? {
      ValueKeepsEnd(s);
      SkipSpaceKeepsEnd(ParseValue(s).rest);
    }
  }
}
