/** What `json.dumps` writes, said without tokens: in either of the forms the
    repository uses, and in ASCII with its defaults. */
module JsonPrint {
  import opened Common
  import opened Json

  // ---- Characters ---------------------------------------------------------------

  /** Plain text: what every form of a string literal may show as it is. */
  predicate Plain(c: char) {
    ' ' <= c <= '~'
  }

  predicate Lower(c: char) {
    '0' <= c <= '9' || 'a' <= c <= 'f'
  }

  /** The characters with a letter of their own. */
  predicate HasLetter(c: char) {
    c == '\"' || c == '\\' || c == '\n' || c == '\r' || c == '\t' || c as int == 8 || c as int == 12
  }

  /** An escape by code, its digits in lower case. */
  ghost predicate LowerUnit(e: string, code: nat) {
    EscapesUnit(e, code) && forall i | 2 <= i < 6 :: Lower(e[i])
  }

  lemma HexDigitIsLower(n: nat)
    requires n < 16
    ensures Lower(HexDigit(n))
  {
  }

  lemma UnicodeEscapeIsLower(code: nat)
    requires code < 0x1_0000
    ensures LowerUnit(UnicodeEscape(code), code)
  {
    hide EscapesUnit, HexDigit, Lower;
    UnicodeEscapes(code);
    HexDigitIsLower(code / 4096);
    HexDigitIsLower(code / 256 % 16);
    HexDigitIsLower(code / 16 % 16);
    HexDigitIsLower(code % 16);
  }

  /** How one character is written: with its letter; as it is, if it is plain,
      or no control character where the text need not be ASCII; else by code. */
  lemma EscapeCharIs(c: char, ascii: bool)
    ensures var e, n := EscapeChar(c, ascii), c as int;
            if HasLetter(c) then |e| == 2 && e[0] == '\\' && e[1] != '/' && Short(e[1], c)
            else if Plain(c) || (!ascii && n > 31) then e == [c]
            else if n < 0x1_0000 then LowerUnit(e, n)
            else |e| == 12 && LowerUnit(e[..6], High(n)) && LowerUnit(e[6..], Low(n))
  {
    var n := c as int;
    if n < 0x1_0000 {
      UnicodeEscapeIsLower(n);
    } else {
      UnicodeEscapeIsLower(High(n));
      UnicodeEscapeIsLower(Low(n));
      PairParts(n);
    }
    hide UnicodeEscape, SurrogatePair, LowerUnit, High, Low;
  }

  lemma {:induction false} EscapeIsPlain(s: string)
    ensures forall i | 0 <= i < |Escape(s, true)| :: Plain(Escape(s, true)[i])
  {
    if s != "" {
      EscapeCharIsPlain(s[0]);
      EscapeIsPlain(s[1..]);
    }
    hide EscapeChar;
  }

  lemma EscapeCharIsPlain(c: char)
    ensures forall i | 0 <= i < |EscapeChar(c, true)| :: Plain(EscapeChar(c, true)[i])
  {
    EscapeCharIs(c, true);
    hide EscapeChar, High, Low;
    var e := EscapeChar(c, true);
    if |e| == 12 {
      assert forall i | 0 <= i < 6 :: e[i] == e[..6][i] && e[i + 6] == e[6..][i];
    }
  }

  // ---- Values -------------------------------------------------------------------

  /** A value as it is printed, with these texts between items and after keys. */
  function Print(v: Json, ascii: bool, comma: string, colon: string): string
    decreases v, 0
  {
    match v
    case Null => "null"
    case Bool(b) => if b then "true" else "false"
    case Num(literal) => literal
    case Str(s) => "\"" + Escape(s, ascii) + "\""
    case Arr(items) => "[" + PrintItems(items, ascii, comma, colon) + "]"
    case Obj(fields) => "{" + PrintFields(fields, ascii, comma, colon) + "}"
  }

  function PrintItems(items: seq<Json>, ascii: bool, comma: string, colon: string): string
    decreases items, 1
  {
    if |items| == 0 then ""
    else Print(items[0], ascii, comma, colon)
         + (if |items| == 1 then "" else comma + PrintItems(items[1..], ascii, comma, colon))
  }

  function PrintField(field: Field, ascii: bool, comma: string, colon: string): string
    decreases field, 1
  {
    "\"" + Escape(field.key, ascii) + "\"" + colon + Print(field.value, ascii, comma, colon)
  }

  function PrintFields(fields: seq<Field>, ascii: bool, comma: string, colon: string): string
    decreases fields, 1
  {
    if |fields| == 0 then ""
    else PrintField(fields[0], ascii, comma, colon)
         + (if |fields| == 1 then "" else comma + PrintFields(fields[1..], ascii, comma, colon))
  }

  predicate Separates(token: string) {
    token == "," || token == ":"
  }

  /** Tokens in a row, `sep` after each comma and colon; `after`: one came just
      before. */
  function Row(tokens: seq<string>, after: bool, sep: string): string {
    if |tokens| == 0 then "" else Gap(after, sep) + tokens[0] + Row(tokens[1..], Separates(tokens[0]), sep)
  }

  function Gap(after: bool, sep: string): string {
    if after then sep else ""
  }

  lemma {:induction false} WeaveRow(tokens: seq<string>, at: nat, sep: string)
    requires at <= |tokens|
    ensures Weave(tokens[at..], Gaps(tokens, sep), at, "")
            == Row(tokens[at..], at > 0 && Separates(tokens[at - 1]), sep)
    decreases |tokens| - at
  {
    if at < |tokens| {
      WeaveRow(tokens, at + 1, sep);
      assert tokens[at..][1..] == tokens[at + 1..];
      assert tokens[at..][0] == tokens[at];
    }
  }

  lemma {:induction false} RowSplits(a: seq<string>, b: seq<string>, after: bool, sep: string)
    requires |a| > 0
    ensures Row(a + b, after, sep) == Row(a, after, sep) + Row(b, Separates(a[|a| - 1]), sep)
  {
    hide Separates, Gap;
    assert (a + b)[1..] == a[1..] + b;
    if |a| > 1 {
      RowSplits(a[1..], b, Separates(a[0]), sep);
    } else {
      assert a[1..] + b == b;
    }
  }

  lemma RowOne(token: string, after: bool, sep: string)
    ensures Row([token], after, sep) == Gap(after, sep) + token
  {
  }

  /** `tokens`, which do not end with a separator, print `text`. */
  ghost predicate Prints(tokens: seq<string>, text: string, sep: string) {
    && |tokens| > 0 && !Separates(tokens[|tokens| - 1])
    && forall after :: Row(tokens, after, sep) == Gap(after, sep) + text
  }

  lemma TokenPrints(token: string, sep: string)
    requires !Separates(token)
    ensures Prints([token], token, sep)
  {
    forall after ensures Row([token], after, sep) == Gap(after, sep) + token { RowOne(token, after, sep); }
  }

  lemma RowBoth(a: seq<string>, s: string, b: seq<string>, t: string, after: bool, sep: string)
    requires |a| > 0 && !Separates(a[|a| - 1]) && Row(a, after, sep) == s && Row(b, false, sep) == t
    ensures Row(a + b, after, sep) == s + t
  {
    hide Row, Separates;
    RowSplits(a, b, after, sep);
  }

  lemma RowOf(tokens: seq<string>, text: string, after: bool, sep: string)
    requires Prints(tokens, text, sep)
    ensures |tokens| > 0 && !Separates(tokens[|tokens| - 1]) && Row(tokens, after, sep) == Gap(after, sep) + text
    ensures Gap(false, sep) + text == text
  {
    hide Row, Separates;
  }

  /** One after the other, with no separator between them: no gap. */
  lemma PrintsBoth(a: seq<string>, s: string, b: seq<string>, t: string, sep: string)
    requires Prints(a, s, sep) && Prints(b, t, sep)
    ensures Prints(a + b, s + t, sep)
  {
    hide Separates, Row, Gap;
    forall after ensures Row(a + b, after, sep) == Gap(after, sep) + (s + t) {
      RowOf(a, s, after, sep);
      RowOf(b, t, false, sep);
      RowBoth(a, Gap(after, sep) + s, b, t, after, sep);
      Grouped(Gap(after, sep), s, t);
    }
    RowOf(a, s, false, sep);
    RowOf(b, t, false, sep);
    assert (a + b)[|a + b| - 1] == b[|b| - 1];
  }

  lemma RowAround(a: seq<string>, s: string, token: string, b: seq<string>, t: string, after: bool, sep: string)
    requires |a| > 0 && !Separates(a[|a| - 1]) && Separates(token)
    requires Row(a, after, sep) == s && Row(b, true, sep) == t
    ensures Row(a + [token] + b, after, sep) == s + token + t
  {
    hide Row, Separates;
    RowSplits(a + [token], b, after, sep);
    RowSplits(a, [token], after, sep);
    RowOne(token, false, sep);
    assert Gap(false, sep) + token == token;
  }

  lemma Regroup(a: string, b: string, c: string, d: string, e: string)
    ensures a + b + c + (d + e) == a + (b + (c + d + e))
  {
  }

  /** A separator between them: its gap. */
  lemma PrintsAround(a: seq<string>, s: string, token: string, b: seq<string>, t: string, sep: string)
    requires Prints(a, s, sep) && Prints(b, t, sep) && Separates(token)
    ensures Prints(a + [token] + b, s + (token + sep + t), sep)
  {
    hide Row, Separates, Gap;
    forall after ensures Row(a + [token] + b, after, sep) == Gap(after, sep) + (s + (token + sep + t)) {
      RowOf(a, s, after, sep);
      RowOf(b, t, true, sep);
      GapIs(sep);
      RowAround(a, Gap(after, sep) + s, token, b, sep + t, after, sep);
      Regroup(Gap(after, sep), s, token, sep, t);
    }
    RowOf(b, t, false, sep);
    assert (a + [token] + b)[|a + [token] + b| - 1] == b[|b| - 1];
  }

  lemma GapIs(sep: string)
    ensures Gap(true, sep) == sep && Gap(false, sep) == ""
  {
  }

  lemma ScalarPrints(v: Json, ascii: bool, sep: string)
    requires Printable(v) && !v.Arr? && !v.Obj?
    ensures Prints(Tokens(Printed(v, ascii)), Print(v, ascii, "," + sep, ":" + sep), sep)
  {
    var tokens := Tokens(Printed(v, ascii));
    if v.Num? { NumberChars(v.literal); }
    hide Row, Escape, IsNumber, Prints;
    assert !Separates(tokens[0]);
    TokenPrints(tokens[0], sep);
    assert tokens == [tokens[0]];
    if v.Str? { assert tokens[0] == "\"" + Escape(v.s, ascii) + "\""; }
  }

  lemma {:induction false} ValuePrints(v: Json, ascii: bool, sep: string)
    requires Printable(v)
    ensures Prints(Tokens(Printed(v, ascii)), Print(v, ascii, "," + sep, ":" + sep), sep)
    decreases v, 0
  {
    hide Prints, Escape, Quoted, IsNumber;
    match v
    case Arr(items) =>
      if |items| > 0 { ItemsPrint(items, ascii, sep); }
      BracketsPrint("[", ItemTokens(PrintedItems(items, ascii)), PrintItems(items, ascii, "," + sep, ":" + sep),
                    "]", sep);
    case Obj(fields) =>
      if |fields| > 0 { FieldsPrint(fields, ascii, sep); }
      BracketsPrint("{", MemberTokens(PrintedMembers(fields, ascii)), PrintFields(fields, ascii, "," + sep, ":" + sep),
                    "}", sep);
    case _ => ScalarPrints(v, ascii, sep);
  }

  lemma BracketsPrint(open: string, tokens: seq<string>, text: string, close: string, sep: string)
    requires !Separates(open) && !Separates(close)
    requires if |tokens| == 0 then text == "" else Prints(tokens, text, sep)
    ensures Prints([open] + tokens + [close], open + text + close, sep)
  {
    hide Prints, Separates;
    TokenPrints(open, sep);
    TokenPrints(close, sep);
    if |tokens| == 0 {
      PrintsBoth([open], open, [close], close, sep);
      assert [open] + tokens == [open] && open + text == open;
    } else {
      PrintsBoth([open], open, tokens, text, sep);
      PrintsBoth([open] + tokens, open + text, [close], close, sep);
    }
  }

  function PrintedItems(items: seq<Json>, ascii: bool): seq<Text> {
    Printed(Arr(items), ascii).items
  }

  function PrintedMembers(fields: seq<Field>, ascii: bool): seq<Member> {
    Printed(Obj(fields), ascii).members
  }

  lemma {:induction false} ItemsPrint(items: seq<Json>, ascii: bool, sep: string)
    requires Printable(Arr(items)) && |items| > 0
    ensures Prints(ItemTokens(PrintedItems(items, ascii)), PrintItems(items, ascii, "," + sep, ":" + sep), sep)
    decreases items, 1
  {
    hide Prints, Print, Printed, PrintedItems, Tokens, IsNumber;
    var comma, colon := "," + sep, ":" + sep;
    FirstItemPrints(items, ascii);
    ValuePrints(items[0], ascii, sep);
    if |items| == 1 {
      var text := Print(items[0], ascii, comma, colon);
      assert text + "" == text;
    } else {
      ItemsPrint(items[1..], ascii, sep);
      PrintsAround(Tokens(Printed(items[0], ascii)), Print(items[0], ascii, comma, colon), ",",
                   ItemTokens(PrintedItems(items[1..], ascii)), PrintItems(items[1..], ascii, comma, colon), sep);
    }
  }

  lemma FirstItemPrints(items: seq<Json>, ascii: bool)
    requires Printable(Arr(items)) && |items| > 0
    ensures Printable(items[0]) && (|items| > 1 ==> Printable(Arr(items[1..])))
    ensures var texts := PrintedItems(items, ascii);
            && |texts| == |items| && texts[0] == Printed(items[0], ascii)
            && texts[1..] == PrintedItems(items[1..], ascii)
  {
    hide IsNumber;
  }

  lemma FieldPrints(field: Field, ascii: bool, sep: string)
    requires Printable(field.value)
    ensures Prints(OneMemberTokens(Member(Escape(field.key, ascii), Printed(field.value, ascii))),
                   PrintField(field, ascii, "," + sep, ":" + sep), sep)
    decreases field, 1
  {
    ValuePrints(field.value, ascii, sep);
    hide Prints, Print, Printed, Tokens, Escape, IsNumber;
    var key, value := Quoted(Escape(field.key, ascii)), Print(field.value, ascii, "," + sep, ":" + sep);
    var tokens := Tokens(Printed(field.value, ascii));
    assert key[0] == '\"';
    TokenPrints(key, sep);
    PrintsAround([key], key, ":", tokens, value, sep);
    assert [key] + [":"] + tokens == [key, ":"] + tokens;
    assert key == "\"" + Escape(field.key, ascii) + "\"";
    assert key + (":" + sep + value) == key + (":" + sep) + value;
  }

  lemma {:induction false} FieldsPrint(fields: seq<Field>, ascii: bool, sep: string)
    requires Printable(Obj(fields)) && |fields| > 0
    ensures Prints(MemberTokens(PrintedMembers(fields, ascii)),
                   PrintFields(fields, ascii, "," + sep, ":" + sep), sep)
    decreases fields, 1
  {
    hide Prints, PrintField, Printed, PrintedMembers, OneMemberTokens, Escape, IsNumber;
    var comma, colon := "," + sep, ":" + sep;
    FirstFieldPrints(fields, ascii);
    FieldPrints(fields[0], ascii, sep);
    if |fields| == 1 {
      var text := PrintField(fields[0], ascii, comma, colon);
      assert text + "" == text;
    } else {
      FieldsPrint(fields[1..], ascii, sep);
      PrintsAround(OneMemberTokens(Member(Escape(fields[0].key, ascii), Printed(fields[0].value, ascii))),
                   PrintField(fields[0], ascii, comma, colon), ",",
                   MemberTokens(PrintedMembers(fields[1..], ascii)),
                   PrintFields(fields[1..], ascii, comma, colon), sep);
    }
  }

  lemma FirstFieldPrints(fields: seq<Field>, ascii: bool)
    requires Printable(Obj(fields)) && |fields| > 0
    ensures Printable(fields[0].value) && (|fields| > 1 ==> Printable(Obj(fields[1..])))
    ensures var members := PrintedMembers(fields, ascii);
            && |members| == |fields|
            && members[0] == Member(Escape(fields[0].key, ascii), Printed(fields[0].value, ascii))
            && members[1..] == PrintedMembers(fields[1..], ascii)
  {
    hide IsNumber, Escape;
  }

  /** The compact form: a comma between members, a colon after each key,
      nothing else; and characters outside ASCII as they are. */
  lemma DumpsCompactIs(v: Json)
    requires Printable(v)
    ensures DumpsCompact(v) == Print(v, false, ",", ":")
  {
    hide Prints, Print, Printed, Tokens, Weave, Row;
    var tokens := Tokens(Printed(v, false));
    assert "," + "" == "," && ":" + "" == ":";
    ValuePrints(v, false, "");
    WeaveRow(tokens, 0, "");
    assert tokens[0..] == tokens;
    Whole(tokens, Print(v, false, ",", ":"), "");
  }

  lemma Whole(tokens: seq<string>, text: string, sep: string)
    requires Prints(tokens, text, sep)
    ensures Row(tokens, false, sep) == text
  {
    hide Row;
    assert "" + text == text;
  }

  /** The default form: a space after each comma and colon, and ASCII only. */
  lemma DumpsIs(v: Json)
    requires Printable(v)
    ensures Dumps(v) == Print(v, true, ", ", ": ")
  {
    hide Prints, Print, Printed, Tokens, Weave, Row;
    var tokens := Tokens(Printed(v, true));
    assert "," + " " == ", " && ":" + " " == ": ";
    ValuePrints(v, true, " ");
    WeaveRow(tokens, 0, " ");
    assert tokens[0..] == tokens;
    Whole(tokens, Print(v, true, ", ", ": "), " ");
  }

  // ---- ASCII only -----------------------------------------------------------------

  predicate AllPlain(s: string) {
    forall i | 0 <= i < |s| :: Plain(s[i])
  }

  lemma {:induction false} PrintIsPlain(v: Json)
    requires Printable(v)
    ensures AllPlain(Print(v, true, ", ", ": "))
    decreases v, 0
  {
    hide Escape, IsNumber, Plain;
    match v
    case Num(literal) => LiteralIsPlain(literal);
    case Str(s) => QuotedIsPlain(s);
    case Arr(items) =>
      ItemsArePlain(items);
      BothPlain("[", PrintItems(items, true, ", ", ": "));
      BothPlain("[" + PrintItems(items, true, ", ", ": "), "]");
    case Obj(fields) =>
      FieldsArePlain(fields);
      BothPlain("{", PrintFields(fields, true, ", ", ": "));
      BothPlain("{" + PrintFields(fields, true, ", ", ": "), "}");
    case _ => WordsArePlain();
  }

  lemma WordsArePlain()
    ensures AllPlain("null") && AllPlain("true") && AllPlain("false") && AllPlain(", ") && AllPlain(": ")
    ensures AllPlain("[") && AllPlain("]") && AllPlain("{") && AllPlain("}") && AllPlain("\"") && AllPlain("")
  {
  }

  lemma LiteralIsPlain(s: string)
    requires IsNumber(s)
    ensures AllPlain(s)
  {
    NumberChars(s);
  }

  lemma BothPlain(a: string, b: string)
    ensures AllPlain(a) && AllPlain(b) ==> AllPlain(a + b)
    ensures AllPlain("[") && AllPlain("]") && AllPlain("{") && AllPlain("}")
  {
    WordsArePlain();
    hide Plain;
  }

  lemma QuotedIsPlain(s: string)
    ensures AllPlain("\"" + Escape(s, true) + "\"")
  {
    EscapeIsPlain(s);
  }

  lemma {:induction false} ItemsArePlain(items: seq<Json>)
    requires forall i | 0 <= i < |items| :: Printable(items[i])
    ensures AllPlain(PrintItems(items, true, ", ", ": "))
    decreases items, 1
  {
    if |items| > 0 {
      PrintIsPlain(items[0]);
      ItemsArePlain(items[1..]);
    }
    hide Plain, Print, AllPlain;
    WordsArePlain();
    if |items| > 1 {
      var more := PrintItems(items[1..], true, ", ", ": ");
      BothPlain(", ", more);
      BothPlain(Print(items[0], true, ", ", ": "), ", " + more);
    } else if |items| == 1 {
      BothPlain(Print(items[0], true, ", ", ": "), "");
    }
  }

  lemma FieldIsPlain(field: Field)
    requires Printable(field.value)
    ensures AllPlain(PrintField(field, true, ", ", ": "))
    decreases field, 1
  {
    PrintIsPlain(field.value);
    QuotedIsPlain(field.key);
    WordsArePlain();
    hide Plain, Print, AllPlain, Escape;
    var key := "\"" + Escape(field.key, true) + "\"";
    BothPlain(key, ": ");
    BothPlain(key + ": ", Print(field.value, true, ", ", ": "));
  }

  lemma {:induction false} FieldsArePlain(fields: seq<Field>)
    requires forall i | 0 <= i < |fields| :: Printable(fields[i].value)
    ensures AllPlain(PrintFields(fields, true, ", ", ": "))
    decreases fields, 1
  {
    if |fields| > 0 {
      FieldIsPlain(fields[0]);
      FieldsArePlain(fields[1..]);
    }
    hide Plain, PrintField, AllPlain;
    WordsArePlain();
    if |fields| > 1 {
      var more := PrintFields(fields[1..], true, ", ", ": ");
      BothPlain(", ", more);
      BothPlain(PrintField(fields[0], true, ", ", ": "), ", " + more);
    } else if |fields| == 1 {
      BothPlain(PrintField(fields[0], true, ", ", ": "), "");
    }
  }

  /** `json.dumps` with its defaults writes printable ASCII only. */
  lemma DumpsIsAscii(v: Json)
    requires Printable(v)
    ensures forall i | 0 <= i < |Dumps(v)| :: ' ' <= Dumps(v)[i] <= '~'
  {
    DumpsIs(v);
    PrintIsPlain(v);
    hide Print, Dumps;
  }
}
