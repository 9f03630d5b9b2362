/** Reading Server-Sent Events: `parseSSE` of apps/web/src/lib/sse.ts, against
    sections 9.2.5 and 9.2.6 of the WHATWG HTML Standard. */
module EventStream {
  import opened Common

  datatype SseEvent = SseEvent(event: string, data: string, id: Option<string>)

  // ---- The reference: what a whole text means ------------------------------

  /** Every line end as "\n". */
  function Normalize(text: string): string {
    if text == "" then ""
    else if text[0] == '\r' then
      "\n" + Normalize(if |text| > 1 && text[1] == '\n' then text[2..] else text[1..])
    else [text[0]] + Normalize(text[1..])
  }

  /** The lines that "\n" ends; text after the last "\n" is no line yet. */
  function LfLines(text: string): seq<string> {
    var i := IndexOf(text, '\n');
    if i == |text| then [] else [text[..i]] + LfLines(text[i + 1..])
  }

  function TerminatedLines(text: string): seq<string> {
    LfLines(Normalize(text))
  }

  function FieldName(line: string): string {
    line[..IndexOf(line, ':')]
  }

  /** The text after the colon, less one space. */
  function FieldValue(line: string): string {
    var i := IndexOf(line, ':');
    if i == |line| then ""
    else if i + 1 < |line| && line[i + 1] == ' ' then line[i + 2..]
    else line[i + 1..]
  }

  /** The values of every line of a block that has the field name. */
  function Values(block: seq<string>, name: string): seq<string> {
    if block == [] then []
    else
      var last := block[|block| - 1];
      Values(block[..|block| - 1], name) + (if FieldName(last) == name then [FieldValue(last)] else [])
  }

  function LastOr<T>(values: seq<T>, default: T): T {
    if values == [] then default else values[|values| - 1]
  }

  function LastId(block: seq<string>, id: Option<string>): Option<string> {
    var ids := Values(block, "id");
    if ids == [] then id else Some(ids[|ids| - 1])
  }

  function BlankAt(lines: seq<string>): (i: nat)
    ensures i <= |lines|
    ensures i < |lines| ==> lines[i] == ""
    ensures forall j | 0 <= j < i :: lines[j] != ""
  {
    if lines == [] || lines[0] == "" then 0 else 1 + BlankAt(lines[1..])
  }

  /** The event a block of lines stands for: none without a data line. */
  function BlockEvents(block: seq<string>, id: Option<string>): seq<SseEvent> {
    var data := Values(block, "data");
    if data == [] then []
    else [SseEvent(LastOr(Values(block, "event"), "message"), Join(data, "\n"), LastId(block, id))]
  }

  /** The events of blocks that a blank line ends, in order; lines after the
      last blank line are no event. `id` is the last id before them. */
  function Events(lines: seq<string>, id: Option<string>): seq<SseEvent> {
    var i := BlankAt(lines);
    if i == |lines| then []
    else BlockEvents(lines[..i], id) + Events(lines[i + 1..], LastId(lines[..i], id))
  }

  /** What a whole text means, whatever the reads it arrived in. */
  function Meaning(text: string): seq<SseEvent> {
    Events(TerminatedLines(text), None)
  }

  /** The part of an unfinished text whose lines are certain: a last "\r" may
      be the first half of "\r\n". */
  function Settled(text: string): string {
    if |text| > 0 && text[|text| - 1] == '\r' then text[..|text| - 1] else text
  }

  // ---- The code's line cutter -----------------------------------------------

  function LineEndAt(s: string): (i: nat)
    ensures i <= |s|
    ensures i < |s| ==> s[i] == '\r' || s[i] == '\n'
    ensures forall j | 0 <= j < i :: s[j] != '\r' && s[j] != '\n'
  {
    if s == "" || s[0] == '\r' || s[0] == '\n' then 0 else 1 + LineEndAt(s[1..])
  }

  /** "\r\n" is one line end. */
  function LineEnd(s: string): (e: string)
    requires LineEndAt(s) < |s|
    ensures LineEndAt(s) + |e| <= |s| && |e| > 0
  {
    var i := LineEndAt(s);
    if s[i] == '\r' && i + 1 < |s| && s[i + 1] == '\n' then s[i..i + 2] else s[i..i + 1]
  }

  function LineOf(s: string): string {
    s[..LineEndAt(s)]
  }

  function Beyond(s: string): (r: string)
    requires LineEndAt(s) < |s|
    ensures |r| < |s|
  {
    s[LineEndAt(s) + |LineEnd(s)|..]
  }

  /** No line can be cut from `s`: none ends in it, or it ends with a "\r"
      that may be the first half of "\r\n". */
  predicate NoLineYet(s: string, done: bool) {
    var i := LineEndAt(s);
    i == |s| || (s[i] == '\r' && i == |s| - 1 && !done)
  }

  datatype Cut = Cut(lines: seq<string>, rest: string)

  /** The whole lines of a buffer, and what stays in it. */
  function CutLines(s: string, done: bool): Cut
    decreases |s|
  {
    if NoLineYet(s, done) then Cut([], s)
    else
      var c := CutLines(Beyond(s), done);
      Cut([LineOf(s)] + c.lines, c.rest)
  }

  ghost predicate IsLine(line: string) {
    '\r' !in line && '\n' !in line
  }

  ghost predicate Ends(e: string, rest: string) {
    (|e| == 2 && e[0] == '\r' && e[1] == '\n') ||
    (|e| == 1 && (e[0] == '\n' || (e[0] == '\r' && (|rest| > 0 ==> rest[0] != '\n'))))
  }

  lemma {:induction false} LineEndFound(line: string, tail: string)
    requires IsLine(line) && tail != "" && (tail[0] == '\r' || tail[0] == '\n')
    ensures LineEndAt(line + tail) == |line|
  {
    if line == "" {
      assert line + tail == tail;
    } else {
      assert (line + tail)[1..] == line[1..] + tail;
      LineEndFound(line[1..], tail);
    }
  }

  /** Where a text's first line ends, put together. */
  lemma FirstLineIs(line: string, e: string, rest: string)
    requires IsLine(line) && Ends(e, rest)
    ensures var s := line + (e + rest);
            LineEndAt(s) == |line| && LineEnd(s) == e && LineOf(s) == line && Beyond(s) == rest
            && (NoLineYet(s, false) <==> |e| == 1 && e[0] == '\r' && |rest| == 0) && !NoLineYet(s, true)
  {
    var s := line + (e + rest);
    LineEndFound(line, e + rest);
    assert s[|line|] == e[0];
    assert s[|line| + |e|..] == rest;
    assert s[..|line|] == line;
  }

  /** Where a text's first line ends, taken apart. */
  lemma FirstLine(s: string)
    requires LineEndAt(s) < |s|
    ensures IsLine(LineOf(s)) && Ends(LineEnd(s), Beyond(s))
    ensures s == LineOf(s) + (LineEnd(s) + Beyond(s))
    ensures NoLineYet(s, false) <==> |LineEnd(s)| == 1 && LineEnd(s)[0] == '\r' && |Beyond(s)| == 0
  {
    var i, n := LineEndAt(s), |LineEnd(s)|;
    CutInThree(s, i, n);
  }

  lemma CutInThree<T>(s: seq<T>, i: nat, n: nat)
    requires i + n <= |s|
    ensures s == s[..i] + (s[i..i + n] + s[i + n..])
  {
  }

  lemma LastOfThree<T>(a: seq<T>, b: seq<T>, c: seq<T>)
    requires |c| > 0
    ensures var s := a + (b + c);
            s[|s| - 1] == c[|c| - 1] && s[..|s| - 1] == a + (b + c[..|c| - 1])
  {
  }

  /** Text after a line that can already be cut does not move its end. */
  lemma FirstLineStays(text: string, more: string)
    requires !NoLineYet(text, false)
    ensures LineEndAt(text + more) < |text + more|
    ensures LineOf(text + more) == LineOf(text) && Beyond(text + more) == Beyond(text) + more
    ensures !NoLineYet(text + more, false) && !NoLineYet(text + more, true)
  {
    var line, e, rest := LineOf(text), LineEnd(text), Beyond(text);
    FirstLine(text);
    assert Ends(e, rest + more);
    hide *;
    Grouped(line, e + rest, more);
    Grouped(e, rest, more);
    FirstLineIs(line, e, rest + more);
  }

  /** Cutting can stop at any read and go on with the rest of the buffer. */
  lemma {:induction false} CutExtends(text: string, more: string, done: bool)
    ensures var c := CutLines(text, false);
            var d := CutLines(c.rest + more, done);
            CutLines(text + more, done) == Cut(c.lines + d.lines, d.rest)
    decreases |text|
  {
    var c := CutLines(text, false);
    var d := CutLines(c.rest + more, done);
    if NoLineYet(text, false) {
      assert [] + d.lines == d.lines;
    } else {
      assert LineEndAt(text) < |text|;
      hide NoLineYet, LineOf, Beyond;
      FirstLineStays(text, more);
      CutExtends(Beyond(text), more, done);
      Grouped([LineOf(text)], CutLines(Beyond(text), false).lines, d.lines);
    }
  }

  // ---- The cutter finds the reference's lines --------------------------------

  lemma {:induction false} NormalizeLine(line: string, rest: string)
    requires '\r' !in line
    ensures Normalize(line + rest) == line + Normalize(rest)
  {
    if line == "" {
      assert line + rest == rest;
    } else {
      assert (line + rest)[1..] == line[1..] + rest;
      NormalizeLine(line[1..], rest);
    }
  }

  lemma NormalizeEnd(e: string, rest: string)
    requires Ends(e, rest)
    ensures Normalize(e + rest) == "\n" + Normalize(rest)
  {
    assert (e + rest)[|e|..] == rest;
  }

  lemma LfLinesCut(line: string, rest: string)
    requires '\n' !in line
    ensures LfLines(line + ("\n" + rest)) == [line] + LfLines(rest)
  {
    var t := line + ("\n" + rest);
    assert t[|line|] == '\n';
    assert forall j | 0 <= j < |line| :: t[j] == line[j];
    assert IndexOf(t, '\n') == |line|;
    assert t[..|line|] == line && t[|line| + 1..] == rest;
  }

  lemma TerminatedLinesCut(line: string, e: string, rest: string)
    requires IsLine(line) && Ends(e, rest)
    ensures TerminatedLines(line + (e + rest)) == [line] + TerminatedLines(rest)
  {
    hide LfLines, Normalize;
    NormalizeLine(line, e + rest);
    NormalizeEnd(e, rest);
    LfLinesCut(line, Normalize(rest));
  }

  lemma NoTerminatedLine(t: string)
    requires IsLine(t)
    ensures TerminatedLines(t) == []
  {
    NormalizeLine(t, "");
    assert t + "" == t && t + Normalize("") == t;
  }

  lemma SettledInThree(line: string, e: string, rest: string)
    requires Ends(e, rest) && !(|e| == 1 && e[0] == '\r' && |rest| == 0)
    ensures Settled(line + (e + rest)) == line + (e + Settled(rest))
    ensures Ends(e, Settled(rest))
  {
    if |rest| > 0 {
      LastOfThree(line, e, rest);
    } else {
      var s := line + (e + rest);
      assert s[|s| - 1] == e[|e| - 1];
    }
  }

  lemma SettledAfterLine(s: string)
    requires LineEndAt(s) < |s| && !NoLineYet(s, false)
    ensures Settled(s) == LineOf(s) + (LineEnd(s) + Settled(Beyond(s)))
    ensures Ends(LineEnd(s), Settled(Beyond(s)))
  {
    FirstLine(s);
    hide *;
    SettledInThree(LineOf(s), LineEnd(s), Beyond(s));
  }

  lemma {:induction false} CutFindsLines(s: string, done: bool)
    ensures CutLines(s, done).lines == TerminatedLines(if done then s else Settled(s))
    decreases |s|
  {
    hide TerminatedLines;
    if NoLineYet(s, done) {
      NoTerminatedLine(if done then s else Settled(s));
    } else {
      assert LineEndAt(s) < |s| && (!done ==> !NoLineYet(s, false));
      var rest := Beyond(s);
      assert CutLines(s, done).lines == [LineOf(s)] + CutLines(rest, done).lines;
      hide *;
      FirstLine(s);
      CutFindsLines(rest, done);
      if !done { SettledAfterLine(s); }
      TerminatedLinesCut(LineOf(s), LineEnd(s), if done then rest else Settled(rest));
    }
  }

  // ---- The code's line interpreter --------------------------------------------

  datatype Pending = Pending(event: string, data: seq<string>, id: Option<string>)

  /** What one line does to the event being read. */
  function Take(p: Pending, line: string): Pending {
    if line == "" then Pending("message", [], p.id)
    else if line[0] == ':' then p
    else if FieldName(line) == "event" then p.(event := FieldValue(line))
    else if FieldName(line) == "data" then p.(data := p.data + [FieldValue(line)])
    else if FieldName(line) == "id" then p.(id := Some(FieldValue(line)))
    else p
  }

  function Dispatch(p: Pending, line: string): seq<SseEvent> {
    if line == "" && p.data != [] then [SseEvent(p.event, Join(p.data, "\n"), p.id)] else []
  }

  function TakeAll(p: Pending, lines: seq<string>): Pending {
    if lines == [] then p
    else Take(TakeAll(p, lines[..|lines| - 1]), lines[|lines| - 1])
  }

  function DispatchAll(p: Pending, lines: seq<string>): seq<SseEvent> {
    if lines == [] then []
    else
      var front := lines[..|lines| - 1];
      DispatchAll(p, front) + Dispatch(TakeAll(p, front), lines[|lines| - 1])
  }

  const Fresh := Pending("message", [], None)

  /** What the lines of a block amount to. */
  function BlockPending(id: Option<string>, block: seq<string>): Pending {
    Pending(LastOr(Values(block, "event"), "message"), Values(block, "data"), LastId(block, id))
  }

  lemma ValuesOneMore(block: seq<string>, line: string, name: string)
    ensures Values(block + [line], name)
            == Values(block, name) + (if FieldName(line) == name then [FieldValue(line)] else [])
  {
    assert (block + [line])[..|block|] == block;
  }

  lemma TakeExtendsBlock(id: Option<string>, block: seq<string>, line: string)
    requires line != ""
    ensures Take(BlockPending(id, block), line) == BlockPending(id, block + [line])
  {
    ValuesOneMore(block, line, "event");
    ValuesOneMore(block, line, "data");
    ValuesOneMore(block, line, "id");
    if line[0] == ':' { assert IndexOf(line, ':') == 0; }
    assert "event" != "data" && "event" != "id" && "data" != "id";
    hide Values, FieldValue;
  }

  lemma {:induction false} TakeBlock(id: Option<string>, block: seq<string>)
    requires "" !in block
    ensures TakeAll(Pending("message", [], id), block) == BlockPending(id, block)
    ensures DispatchAll(Pending("message", [], id), block) == []
  {
    if block != [] {
      var front := block[..|block| - 1];
      var last := block[|block| - 1];
      assert block == front + [last];
      TakeBlock(id, front);
      TakeExtendsBlock(id, front, last);
      hide Take, BlockPending;
    }
  }

  lemma {:induction false} TakeInTwo(p: Pending, a: seq<string>, b: seq<string>)
    ensures TakeAll(p, a + b) == TakeAll(TakeAll(p, a), b)
    ensures DispatchAll(p, a + b) == DispatchAll(p, a) + DispatchAll(TakeAll(p, a), b)
  {
    if b == [] {
      assert a + b == a;
    } else {
      var front := b[..|b| - 1];
      assert (a + b)[..|a + b| - 1] == a + front;
      TakeInTwo(p, a, front);
    }
  }

  lemma TakeBlank(p: Pending)
    ensures TakeAll(p, [""]) == Pending("message", [], p.id)
    ensures DispatchAll(p, [""]) == if p.data != [] then [SseEvent(p.event, Join(p.data, "\n"), p.id)] else []
  {
    assert [""][..0] == [];
  }

  /** A block and its blank line yield the block's event, and the next block
      starts afresh. */
  lemma OneBlock(id: Option<string>, block: seq<string>, rest: seq<string>)
    requires "" !in block
    ensures DispatchAll(Pending("message", [], id), block + ([""] + rest))
            == BlockEvents(block, id) + DispatchAll(Pending("message", [], LastId(block, id)), rest)
  {
    var start := Pending("message", [], id);
    var p := TakeAll(start, block);
    TakeBlock(id, block);
    TakeInTwo(start, block, [""] + rest);
    TakeInTwo(p, [""], rest);
    TakeBlank(p);
    hide TakeAll, DispatchAll, Values, Join, LastOr, LastId;
  }

  lemma NextBlock(lines: seq<string>, id: Option<string>)
    ensures var i := BlankAt(lines);
            "" !in lines[..i]
            && (i == |lines| ==> Events(lines, id) == [] && lines[..i] == lines)
            && (i < |lines| ==>
                  lines == lines[..i] + ([""] + lines[i + 1..])
                  && Events(lines, id)
                     == BlockEvents(lines[..i], id) + Events(lines[i + 1..], LastId(lines[..i], id)))
  {
    hide BlockEvents, LastId;
  }

  /** Line by line the code yields what the blocks mean. */
  lemma {:induction false} DispatchesEvents(lines: seq<string>, id: Option<string>)
    ensures DispatchAll(Pending("message", [], id), lines) == Events(lines, id)
    decreases |lines|
  {
    hide *;
    NextBlock(lines, id);
    var i := BlankAt(lines);
    if i == |lines| {
      TakeBlock(id, lines);
    } else {
      OneBlock(id, lines[..i], lines[i + 1..]);
      DispatchesEvents(lines[i + 1..], LastId(lines[..i], id));
    }
  }

  // ---- parseSSE ------------------------------------------------------------------

  lemma OneMoreLine(lines: seq<string>, line: string)
    ensures TakeAll(Fresh, lines + [line]) == Take(TakeAll(Fresh, lines), line)
    ensures DispatchAll(Fresh, lines + [line]) == DispatchAll(Fresh, lines) + Dispatch(TakeAll(Fresh, lines), line)
  {
    assert (lines + [line])[..|lines + [line]| - 1] == lines;
  }

  /** `lines` have been cut from `text`, and `buffer` is left of it. */
  ghost predicate CutSoFar(text: string, done: bool, lines: seq<string>, buffer: string) {
    CutLines(text, done) == Cut(lines + CutLines(buffer, done).lines, CutLines(buffer, done).rest)
  }

  lemma CutOneLine(text: string, done: bool, lines: seq<string>, buffer: string)
    requires CutSoFar(text, done, lines, buffer) && !NoLineYet(buffer, done)
    ensures CutSoFar(text, done, lines + [LineOf(buffer)], Beyond(buffer))
  {
    Grouped(lines, [LineOf(buffer)], CutLines(Beyond(buffer), done).lines);
  }

  /** When no more line can be cut, the lines so far mean what is settled. */
  lemma CutAll(text: string, done: bool, lines: seq<string>, buffer: string)
    requires CutSoFar(text, done, lines, buffer) && NoLineYet(buffer, done)
    ensures CutLines(text, done) == Cut(lines, buffer)
    ensures DispatchAll(Fresh, lines) == Meaning(if done then text else Settled(text))
  {
    assert lines + [] == lines;
    CutFindsLines(text, done);
    DispatchesEvents(lines, None);
  }

  lemma CutGoesOn(text: string, lines: seq<string>, buffer: string, value: string, done: bool)
    requires CutLines(text, false) == Cut(lines, buffer)
    ensures CutSoFar(text + value, done, lines, buffer + value)
  {
    CutExtends(text, value, done);
  }

  lemma ConcatOneMore(chunks: seq<string>, k: nat)
    requires k < |chunks|
    ensures Concat(chunks[..k + 1]) == Concat(chunks[..k]) + chunks[k]
  {
    assert chunks[..k + 1][..k] == chunks[..k];
  }

  /** The field's name and its value, less one space. */
  method SplitField(line: string) returns (field: string, value: string)
    ensures field == FieldName(line) && value == FieldValue(line)
  {
    var colon := IndexOf(line, ':');
    field := if colon == |line| then line else line[..colon];
    value := if colon == |line| then "" else line[colon + 1..];
    if |value| > 0 && value[0] == ' ' { value := value[1..]; }
    assert colon == |line| ==> line[..colon] == line;
  }

  lemma NothingRead()
    ensures Concat([]) == "" && CutLines("", false) == Cut([], "")
    ensures TakeAll(Fresh, []) == Fresh && DispatchAll(Fresh, []) == []
  {
  }

  /** `after[k]` counts the events yielded once read k has been worked
      through: those the text read so far settles. */
  ghost predicate Marked(chunks: seq<string>, after: seq<nat>, events: seq<SseEvent>) {
    |after| <= |chunks| &&
    forall k | 0 <= k < |after| ::
      after[k] <= |events| && events[..after[k]] == Meaning(Settled(Concat(chunks[..k + 1])))
  }

  lemma NoMarkYet(chunks: seq<string>)
    ensures Marked(chunks, [], [])
  {
  }

  lemma MarksStay(chunks: seq<string>, after: seq<nat>, events: seq<SseEvent>, more: seq<SseEvent>)
    requires Marked(chunks, after, events) && events <= more
    ensures Marked(chunks, after, more)
  {
    forall k | 0 <= k < |after|
      ensures after[k] <= |more| && more[..after[k]] == Meaning(Settled(Concat(chunks[..k + 1])))
    {
      assert more[..after[k]] == events[..after[k]];
    }
  }

  lemma OneMoreMark(chunks: seq<string>, after: seq<nat>, events: seq<SseEvent>)
    requires Marked(chunks, after, events) && |after| < |chunks|
    requires events == Meaning(Settled(Concat(chunks[..|after| + 1])))
    ensures Marked(chunks, after + [|events|], events)
  {
    var marks := after + [|events|];
    hide Meaning, Settled, Concat;
    forall k | 0 <= k < |marks|
      ensures marks[k] <= |events| && events[..marks[k]] == Meaning(Settled(Concat(chunks[..k + 1])))
    {
      if k < |after| {
        assert marks[k] == after[k];
      } else {
        assert events[..|events|] == events;
      }
    }
  }

  /** `chunks` are the decoded texts of the body's reads, `flush` what the
      decoder gives at the end. */
  method ParseSSE(chunks: seq<string>, flush: string) returns (events: seq<SseEvent>, after: seq<nat>)
    ensures events == Meaning(Concat(chunks) + flush)
    ensures |after| == |chunks| && Marked(chunks, after, events)
  {
    hide Marked, CutLines, Meaning, TakeAll, DispatchAll, CutSoFar, Concat, Settled, FieldName, FieldValue, Join;
    var buffer, event, data, id := "", "message", [], None;
    events, after := [], [];
    ghost var text, lines := "", [];
    NothingRead();
    NoMarkYet(chunks);
    assert chunks[..0] == [];
    var k := 0;
    while true
      invariant 0 <= k <= |chunks| && |after| == k
      invariant text == Concat(chunks[..k])
      invariant CutLines(text, false) == Cut(lines, buffer)
      invariant events == DispatchAll(Fresh, lines)
      invariant Pending(event, data, id) == TakeAll(Fresh, lines)
      invariant Marked(chunks, after, events)
      decreases |chunks| - k
    {
      var done := k == |chunks|;
      var value := if done then flush else chunks[k];
      CutGoesOn(text, lines, buffer, value, done);
      buffer := buffer + value;
      text := text + value;
      ghost var was := events;
      while LineEndAt(buffer) < |buffer|
        invariant CutSoFar(text, done, lines, buffer)
        invariant events == DispatchAll(Fresh, lines) && was <= events
        invariant Pending(event, data, id) == TakeAll(Fresh, lines)
        decreases |buffer|
      {
        var i := LineEndAt(buffer);
        if buffer[i] == '\r' && i == |buffer| - 1 && !done { break; }
        var line := buffer[..i];
        CutOneLine(text, done, lines, buffer);
        OneMoreLine(lines, line);
        buffer := buffer[i + |LineEnd(buffer)|..];
        lines := lines + [line];
        if line == "" {
          if |data| > 0 { events := events + [SseEvent(event, Join(data, "\n"), id)]; }
          event, data := "message", [];
          continue;
        }
        if line[0] == ':' { continue; }
        var field, fieldValue := SplitField(line);
        if field == "event" { event := fieldValue; }
        else if field == "data" { data := data + [fieldValue]; }
        else if field == "id" { id := Some(fieldValue); }
      }
      CutAll(text, done, lines, buffer);
      MarksStay(chunks, after, was, events);
      if done {
        assert chunks[..k] == chunks;
        return;
      }
      ConcatOneMore(chunks, k);
      OneMoreMark(chunks, after, events);
      after := after + [|events|];
      k := k + 1;
    }
  }

  // ---- Nothing yielded early is ever taken back -----------------------------------

  lemma {:induction false} MoreLinesMoreEvents(a: seq<string>, b: seq<string>)
    ensures Events(a, None) <= Events(a + b, None)
  {
    DispatchesEvents(a, None);
    DispatchesEvents(a + b, None);
    TakeInTwo(Fresh, a, b);
  }

  /** What the first part of a text settles is a prefix of what the whole
      means. */
  lemma SettledIsPrefix(first: string, more: string)
    ensures Meaning(Settled(first)) <= Meaning(first + more)
  {
    CutExtends(first, more, true);
    CutFindsLines(first, false);
    CutFindsLines(first + more, true);
    var c := CutLines(first, false);
    MoreLinesMoreEvents(c.lines, CutLines(c.rest + more, true).lines);
  }
}
