/** The wire format of app/sse.py, and why apps/web/src/lib/sse.ts reads back
    what it carries. */
module Sse {
  import opened Common
  import opened Json
  import opened EventStream

  /** Something the api writes: an event with its payload's text, or a
      keep-alive comment. */
  datatype Frame = Event(name: string, payload: string) | Heartbeat

  const HEARTBEAT := ": keep-alive\n\n"

  /** `sse(event, data)`, of the text of its data. */
  function SseText(name: string, payload: string): string {
    "event: " + name + "\ndata: " + payload + "\n\n"
  }

  function Text(f: Frame): string {
    match f
    case Event(name, payload) => SseText(name, payload)
    case Heartbeat => HEARTBEAT
  }

  function Wire(frames: seq<Frame>): string {
    if frames == [] then "" else Text(frames[0]) + Wire(frames[1..])
  }

  function EventsOf(frames: seq<Frame>): seq<SseEvent> {
    if frames == [] then []
    else
      (if frames[0].Event? then [SseEvent(frames[0].name, frames[0].payload, None)] else [])
      + EventsOf(frames[1..])
  }

  /** No line end in a name or payload: JSON text has none. */
  ghost predicate OneLine(s: string) {
    '\r' !in s && '\n' !in s
  }

  ghost predicate WellFormed(f: Frame) {
    f.Event? ==> OneLine(f.name) && OneLine(f.payload)
  }

  ghost predicate AllWellFormed(frames: seq<Frame>) {
    forall i | 0 <= i < |frames| :: WellFormed(frames[i])
  }

  // ---- A printed payload is one line -----------------------------------------

  ghost predicate NoControls(s: string) {
    forall i | 0 <= i < |s| :: s[i] as int >= 32
  }

  ghost predicate AllNoControls(tokens: seq<string>) {
    forall i | 0 <= i < |tokens| :: NoControls(tokens[i])
  }

  /** No control character is written as itself. */
  ghost predicate Clean(t: Text) {
    match t
    case Word(word) => NoControls(word)
    case Literal(body) => NoControls(body)
    case List(items) => forall i | 0 <= i < |items| :: Clean(items[i])
    case Record(members) => forall i | 0 <= i < |members| :: NoControls(members[i].key) && Clean(members[i].value)
  }

  lemma {:induction false} PrintedClean(v: Json, ascii: bool)
    requires Printable(v)
    ensures Clean(Printed(v, ascii))
  {
    match v
    case Num(literal) => NumberChars(literal);
    case Arr(items) =>
      forall i | 0 <= i < |items| ensures Clean(Printed(items[i], ascii)) { PrintedClean(items[i], ascii); }
    case Obj(fields) =>
      forall i | 0 <= i < |fields| ensures Clean(Printed(fields[i].value, ascii)) {
        PrintedClean(fields[i].value, ascii);
      }
    case _ =>
  }

  lemma JoinedNoControls(a: seq<string>, b: seq<string>, c: seq<string>)
    requires AllNoControls(a) && AllNoControls(b) && AllNoControls(c)
    ensures AllNoControls(a + b + c)
  {
    hide NoControls;
  }

  lemma QuotedNoControls(body: string)
    requires NoControls(body)
    ensures NoControls(Quoted(body))
  {
  }

  lemma {:induction false} TokensNoControls(t: Text)
    requires Clean(t)
    ensures AllNoControls(Tokens(t))
    decreases t, 0
  {
    match t
    case Word(word) =>
    case Literal(body) => QuotedNoControls(body);
    case List(items) =>
      ItemsNoControls(items);
      assert AllNoControls(["["]) && AllNoControls(["]"]);
      JoinedNoControls(["["], ItemTokens(items), ["]"]);
    case Record(members) =>
      MembersNoControls(members);
      assert AllNoControls(["{"]) && AllNoControls(["}"]);
      JoinedNoControls(["{"], MemberTokens(members), ["}"]);
  }

  lemma {:induction false} ItemsNoControls(items: seq<Text>)
    requires Clean(List(items))
    ensures AllNoControls(ItemTokens(items))
    decreases items, 1
  {
    if items != [] {
      TokensNoControls(items[0]);
      if |items| > 1 {
        ItemsNoControls(items[1..]);
        assert AllNoControls([","]);
        JoinedNoControls(Tokens(items[0]), [","], ItemTokens(items[1..]));
      }
    }
  }

  lemma {:induction false} MembersNoControls(members: seq<Member>)
    requires Clean(Record(members))
    ensures AllNoControls(MemberTokens(members))
    decreases members, 1
  {
    if members != [] {
      TokensNoControls(members[0].value);
      QuotedNoControls(members[0].key);
      assert AllNoControls(OneMemberTokens(members[0])) by { hide Tokens, Quoted; }
      if |members| > 1 {
        MembersNoControls(members[1..]);
        assert AllNoControls([","]);
        JoinedNoControls(OneMemberTokens(members[0]), [","], MemberTokens(members[1..]));
      }
    }
  }

  lemma {:induction false} WeaveNoControls(tokens: seq<string>, gaps: nat -> string, at: nat)
    requires AllNoControls(tokens)
    requires forall i: nat :: NoControls(gaps(i))
    ensures NoControls(Weave(tokens, gaps, at, ""))
  {
    if tokens != [] {
      WeaveNoControls(tokens[1..], gaps, at + 1);
    }
  }

  /** JSON escapes line ends, so a payload can never end an event early. */
  lemma PayloadIsOneLine(v: Json)
    requires Printable(v)
    ensures OneLine(DumpsCompact(v))
  {
    var tokens := Tokens(Printed(v, false));
    PrintedClean(v, false);
    TokensNoControls(Printed(v, false));
    hide Tokens, Printed, Clean, Weave;
    WeaveNoControls(tokens, Gaps(tokens, ""), 0);
  }

  // ---- The lines of a text cut short -------------------------------------------

  function FrameLines(f: Frame): seq<string> {
    match f
    case Event(name, payload) => ["event: " + name, "data: " + payload, ""]
    case Heartbeat => [": keep-alive", ""]
  }

  lemma LineTooShort(line: string, rest: string, n: nat, tail: string)
    requires OneLine(line) && OneLine(tail) && n <= |line|
    ensures TerminatedLines((line + ("\n" + rest))[..n] + tail) == []
  {
    var t := (line + ("\n" + rest))[..n] + tail;
    assert forall i | 0 <= i < n :: t[i] == line[i];
    NoTerminatedLine(t);
  }

  lemma LineReached(line: string, rest: string, n: nat, tail: string)
    requires OneLine(line) && |line| < n <= |line| + 1 + |rest|
    ensures TerminatedLines((line + ("\n" + rest))[..n] + tail)
            == [line] + TerminatedLines(rest[..n - |line| - 1] + tail)
  {
    var m := n - |line| - 1;
    assert (line + ("\n" + rest))[..n] + tail == line + ("\n" + (rest[..m] + tail));
    TerminatedLinesCut(line, "\n", rest[..m] + tail);
  }

  lemma TextInLines(f: Frame, rest: string)
    ensures f.Heartbeat? ==> Text(f) + rest == ": keep-alive" + ("\n" + ("" + ("\n" + rest)))
    ensures f.Event? ==> Text(f) + rest
                         == ("event: " + f.name) + ("\n" + (("data: " + f.payload) + ("\n" + ("" + ("\n" + rest)))))
  {
  }

  /** A frame cut short gives fewer than its lines, so no blank line. */
  lemma FrameTooShort(f: Frame, rest: string, n: nat, tail: string)
    requires WellFormed(f) && OneLine(tail) && n < |Text(f)|
    ensures var lines := TerminatedLines((Text(f) + rest)[..n] + tail); BlankAt(lines) == |lines|
  {
    hide TerminatedLines;
    TextInLines(f, rest);
    match f
    case Heartbeat =>
      TwoLinesTooShort(": keep-alive", rest, n, tail);
    case Event(name, payload) =>
      var first := "event: " + name;
      var after := ("data: " + payload) + ("\n" + ("" + ("\n" + rest)));
      if n <= |first| {
        LineTooShort(first, after, n, tail);
      } else {
        LineReached(first, after, n, tail);
        TwoLinesTooShort("data: " + payload, rest, n - |first| - 1, tail);
        NotBlank(first, TerminatedLines(after[..n - |first| - 1] + tail));
      }
  }

  lemma TwoLinesTooShort(line: string, rest: string, n: nat, tail: string)
    requires OneLine(line) && |line| > 0 && OneLine(tail) && n < |line| + 2
    ensures var lines := TerminatedLines((line + ("\n" + ("" + ("\n" + rest))))[..n] + tail);
            BlankAt(lines) == |lines|
  {
    hide TerminatedLines;
    var after := "" + ("\n" + rest);
    if n <= |line| {
      LineTooShort(line, after, n, tail);
    } else {
      LineReached(line, after, n, tail);
      LineTooShort("", rest, n - |line| - 1, tail);
      NotBlank(line, []);
    }
  }

  lemma NotBlank(line: string, lines: seq<string>)
    requires |line| > 0
    ensures BlankAt([line] + lines) == 1 + BlankAt(lines)
  {
    assert ([line] + lines)[1..] == lines;
  }

  lemma TwoLinesReached(line: string, rest: string, n: nat, tail: string)
    requires OneLine(line) && |line| + 2 <= n <= |line| + 2 + |rest|
    ensures TerminatedLines((line + ("\n" + ("" + ("\n" + rest))))[..n] + tail)
            == [line, ""] + TerminatedLines(rest[..n - |line| - 2] + tail)
  {
    hide TerminatedLines;
    LineReached(line, "" + ("\n" + rest), n, tail);
    LineReached("", rest, n - |line| - 1, tail);
  }

  lemma TextLength(f: Frame)
    ensures |Text(f)| == if f.Event? then |"event: " + f.name| + 1 + |"data: " + f.payload| + 2
                         else |": keep-alive"| + 2
    ensures f.Event? && WellFormed(f) ==> OneLine("event: " + f.name) && OneLine("data: " + f.payload)
    ensures OneLine(": keep-alive")
  {
  }

  lemma EventReached(first: string, second: string, rest: string, n: nat, tail: string)
    requires OneLine(first) && OneLine(second)
    requires |first| + |second| + 3 <= n <= |first| + |second| + 3 + |rest|
    ensures TerminatedLines((first + ("\n" + (second + ("\n" + ("" + ("\n" + rest))))))[..n] + tail)
            == [first, second, ""] + TerminatedLines(rest[..n - |first| - |second| - 3] + tail)
  {
    hide *;
    LineReached(first, second + ("\n" + ("" + ("\n" + rest))), n, tail);
    TwoLinesReached(second, rest, n - |first| - 1, tail);
    assert [first, second, ""] == [first] + [second, ""];
  }

  lemma FrameReached(f: Frame, rest: string, n: nat, tail: string)
    requires WellFormed(f) && |Text(f)| <= n <= |Text(f)| + |rest|
    ensures TerminatedLines((Text(f) + rest)[..n] + tail)
            == FrameLines(f) + TerminatedLines(rest[..n - |Text(f)|] + tail)
  {
    hide TerminatedLines, Text, WellFormed, OneLine;
    TextInLines(f, rest);
    TextLength(f);
    match f
    case Heartbeat => TwoLinesReached(": keep-alive", rest, n, tail);
    case Event(name, payload) => EventReached("event: " + name, "data: " + payload, rest, n, tail);
  }

  // ---- What a frame's lines mean -------------------------------------------------

  lemma ColonAt(name: string, value: string)
    requires ':' !in name
    ensures FieldName(name + ": " + value) == name && FieldValue(name + ": " + value) == value
  {
    var line := name + ": " + value;
    assert line[|name|] == ':' && line[|name| + 1] == ' ';
    assert forall j | 0 <= j < |name| :: line[j] == name[j];
    assert IndexOf(line, ':') == |name|;
    assert line[|name| + 2..] == value && line[..|name|] == name;
  }

  lemma ValuesOfOne(line: string, name: string)
    ensures Values([line], name) == if FieldName(line) == name then [FieldValue(line)] else []
  {
    assert [line][..0] == [];
  }

  lemma ValuesOfTwo(a: string, b: string, name: string)
    ensures Values([a, b], name) == Values([a], name) + Values([b], name)
  {
    assert [a, b][..1] == [a];
    ValuesOfOne(b, name);
  }

  lemma EventBlock(name: string, payload: string)
    ensures BlockEvents(["event: " + name, "data: " + payload], None) == [SseEvent(name, payload, None)]
    ensures LastId(["event: " + name, "data: " + payload], None) == None
  {
    var a, b := "event: " + name, "data: " + payload;
    ColonAt("event", name);
    ColonAt("data", payload);
    assert "event" + ": " + name == a && "data" + ": " + payload == b;
    EventLines(a, b, name, payload);
  }

  lemma EventLines(a: string, b: string, name: string, payload: string)
    requires FieldName(a) == "event" && FieldValue(a) == name
    requires FieldName(b) == "data" && FieldValue(b) == payload
    ensures Values([a, b], "event") == [name] && Values([a, b], "data") == [payload] && Values([a, b], "id") == []
  {
    hide FieldName, FieldValue;
    assert "event" != "data" && "event" != "id" && "data" != "id";
    ValuesOfTwo(a, b, "event");
    ValuesOfTwo(a, b, "data");
    ValuesOfTwo(a, b, "id");
    ValuesOfOne(a, "event"); ValuesOfOne(a, "data"); ValuesOfOne(a, "id");
    ValuesOfOne(b, "event"); ValuesOfOne(b, "data"); ValuesOfOne(b, "id");
  }

  lemma HeartbeatBlock()
    ensures BlockEvents([": keep-alive"], None) == [] && LastId([": keep-alive"], None) == None
  {
    var line := ": keep-alive";
    assert IndexOf(line, ':') == 0;
    assert FieldName(line) == "";
    ValuesOfOne(line, "data");
    ValuesOfOne(line, "id");
  }

  lemma FrameEvents(f: Frame, rest: seq<string>)
    ensures Events(FrameLines(f) + rest, None)
            == (if f.Event? then [SseEvent(f.name, f.payload, None)] else []) + Events(rest, None)
  {
    hide Values, FieldName, FieldValue;
    var lines := FrameLines(f) + rest;
    match f
    case Heartbeat =>
      assert lines == [": keep-alive"] + ([""] + rest);
      BlankAfter([": keep-alive"], rest);
      HeartbeatBlock();
      assert lines[..1] == [": keep-alive"] && lines[2..] == rest;
    case Event(name, payload) =>
      var block := ["event: " + name, "data: " + payload];
      assert lines == block + ([""] + rest);
      BlankAfter(block, rest);
      EventBlock(name, payload);
      assert lines[..2] == block && lines[3..] == rest;
  }

  lemma {:induction false} BlankAfter(block: seq<string>, rest: seq<string>)
    requires forall i | 0 <= i < |block| :: |block[i]| > 0
    ensures BlankAt(block + ([""] + rest)) == |block|
  {
    if |block| == 0 {
      assert block + ([""] + rest) == [""] + rest;
    } else {
      var tail := block[1..] + ([""] + rest);
      assert block + ([""] + rest) == [block[0]] + tail;
      BlankAfter(block[1..], rest);
      NotBlank(block[0], tail);
    }
  }

  // ---- Round trip, with the stream cut anywhere ------------------------------------

  /** The frames wholly in the first `n` characters. */
  function Whole(frames: seq<Frame>, n: nat): (k: nat)
    ensures k <= |frames|
    ensures |Wire(frames[..k])| <= n
    ensures k < |frames| ==> n < |Wire(frames[..k + 1])|
  {
    if frames == [] || n < |Text(frames[0])| then
      (if frames != [] then WireOfOne(frames[0]); assert frames[..1] == [frames[0]]; 0 else 0)
    else
      var k := Whole(frames[1..], n - |Text(frames[0])|);
      assert frames[..k + 1][1..] == frames[1..][..k];
      assert k + 1 < |frames| ==> frames[..k + 2][1..] == frames[1..][..k + 1];
      k + 1
  }

  lemma WireOfOne(f: Frame)
    ensures Wire([f]) == Text(f)
  {
    assert Text(f) + "" == Text(f);
  }

  lemma {:induction false} CutWireMeans(frames: seq<Frame>, n: nat, tail: string)
    requires AllWellFormed(frames) && n <= |Wire(frames)| && OneLine(tail)
    ensures Meaning(Wire(frames)[..n] + tail) == EventsOf(frames[..Whole(frames, n)])
  {
    hide TerminatedLines, Text, FrameLines, Events, BlankAt;
    if |frames| == 0 {
      NoTerminatedLine(Wire(frames)[..n] + tail);
      NoLinesNoEvents();
    } else {
      var f, rest := frames[0], Wire(frames[1..]);
      if n < |Text(f)| {
        FrameTooShort(f, rest, n, tail);
        NoBlankNoEvents(TerminatedLines(Wire(frames)[..n] + tail));
      } else {
        var m := n - |Text(f)|;
        FrameReached(f, rest, n, tail);
        FrameEvents(f, TerminatedLines(rest[..m] + tail));
        CutWireMeans(frames[1..], m, tail);
        var k := Whole(frames[1..], m);
        assert frames[..k + 1][1..] == frames[1..][..k];
      }
    }
  }

  lemma NoBlankNoEvents(lines: seq<string>)
    requires BlankAt(lines) == |lines|
    ensures Events(lines, None) == []
  {
  }

  lemma NoLinesNoEvents()
    ensures Events([], None) == []
  {
  }

  lemma WholeText(s: string, tail: string)
    requires |tail| == 0
    ensures s[..|s|] + tail == s
  {
  }

  lemma WholeIsAll(frames: seq<Frame>)
    ensures Whole(frames, |Wire(frames)|) == |frames|
  {
    var k := Whole(frames, |Wire(frames)|);
    if k < |frames| { WirePrefix(frames, k + 1); }
    hide Wire, Whole;
  }

  /** A stream of frames, whole, reads back as its events. */
  lemma WireMeans(frames: seq<Frame>)
    requires AllWellFormed(frames)
    ensures Meaning(Wire(frames)) == EventsOf(frames)
  {
    assert OneLine("");
    hide *;
    var wire := Wire(frames);
    CutWireMeans(frames, |wire|, "");
    WholeIsAll(frames);
    WholeText(wire, "");
    assert frames[..|frames|] == frames;
  }

  lemma {:induction false} WirePrefix(frames: seq<Frame>, k: nat)
    requires k <= |frames|
    ensures |Wire(frames[..k])| <= |Wire(frames)|
  {
    if k > 0 {
      assert frames[..k][1..] == frames[1..][..k - 1];
      WirePrefix(frames[1..], k - 1);
    }
  }
}
