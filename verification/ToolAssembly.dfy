/** How `OpenAICompatibleClient.stream` of app/llm.py puts tool calls together
    from the pieces a provider streams. */
module ToolAssembly {
  import opened Common
  import opened Decimal
  import opened Agent
  import AnswerStream

  /** A piece of a tool call. An absent id, name or text is "": the code treats
      both alike. */
  datatype Part = Part(index: int, id: string, name: string, arguments: string)

  datatype Choice = Choice(content: string, parts: seq<Part>, finish: string)

  datatype Chunk = Chunk(usage: Option<AnswerStream.Usage>, choices: seq<Choice>)

  datatype Building = Building(id: string, name: string, arguments: string)

  // ---- The reference: whole calls, by index ------------------------------------

  function NamesOf(parts: seq<Part>, index: int): string {
    if parts == [] then ""
    else
      var last := parts[|parts| - 1];
      NamesOf(parts[..|parts| - 1], index) + (if last.index == index then last.name else "")
  }

  function ArgumentsOf(parts: seq<Part>, index: int): string {
    if parts == [] then ""
    else
      var last := parts[|parts| - 1];
      ArgumentsOf(parts[..|parts| - 1], index) + (if last.index == index then last.arguments else "")
  }

  /** The last id that came with the index. */
  function IdOf(parts: seq<Part>, index: int): string {
    if parts == [] then ""
    else
      var last := parts[|parts| - 1];
      if last.index == index && last.id != "" then last.id else IdOf(parts[..|parts| - 1], index)
  }

  /** The indexes seen, in order: distinct and ascending. */
  function Indexes(parts: seq<Part>): seq<int> {
    if parts == [] then []
    else InsertIndex(Indexes(parts[..|parts| - 1]), parts[|parts| - 1].index)
  }

  function InsertIndex(order: seq<int>, index: int): seq<int> {
    if order == [] || index < order[0] then [index] + order
    else if index == order[0] then order
    else [order[0]] + InsertIndex(order[1..], index)
  }

  ghost predicate Ascending(order: seq<int>) {
    forall i, j | 0 <= i < j < |order| :: order[i] < order[j]
  }

  lemma {:induction false} InsertIndexMembers(order: seq<int>, index: int)
    ensures forall x :: x in InsertIndex(order, index) <==> x == index || x in order
  {
    if order != [] && index > order[0] {
      InsertIndexMembers(order[1..], index);
      assert order == [order[0]] + order[1..];
    }
  }

  lemma {:induction false} InsertIndexPresent(order: seq<int>, index: int)
    requires Ascending(order) && index in order
    ensures InsertIndex(order, index) == order
  {
    if index > order[0] {
      InsertIndexPresent(order[1..], index);
      assert order == [order[0]] + order[1..];
    }
  }

  lemma {:induction false} InsertIndexAscends(order: seq<int>, index: int)
    requires Ascending(order)
    ensures Ascending(InsertIndex(order, index))
  {
    if order != [] && index > order[0] {
      var rest := InsertIndex(order[1..], index);
      InsertIndexAscends(order[1..], index);
      InsertIndexMembers(order[1..], index);
      forall i | 0 <= i < |rest| ensures order[0] < rest[i] {
        assert rest[i] in rest;
      }
    }
  }

  lemma InsertIndexKeeps(order: seq<int>, index: int)
    requires Ascending(order)
    ensures Ascending(InsertIndex(order, index))
    ensures forall x :: x in InsertIndex(order, index) <==> x == index || x in order
    ensures index in order ==> InsertIndex(order, index) == order
  {
    InsertIndexMembers(order, index);
    InsertIndexAscends(order, index);
    if index in order { InsertIndexPresent(order, index); }
  }

  lemma {:induction false} IndexesAscend(parts: seq<Part>)
    ensures Ascending(Indexes(parts))
    ensures forall x :: x in Indexes(parts) <==> exists i | 0 <= i < |parts| :: parts[i].index == x
  {
    if parts != [] {
      var front, last := parts[..|parts| - 1], parts[|parts| - 1];
      IndexesAscend(front);
      InsertIndexKeeps(Indexes(front), last.index);
      forall x ensures x in Indexes(parts) <==> exists i | 0 <= i < |parts| :: parts[i].index == x {
        if x in Indexes(front) {
          var i :| 0 <= i < |front| && front[i].index == x;
          assert parts[i].index == x;
        }
        if exists i | 0 <= i < |parts| :: parts[i].index == x {
          var i :| 0 <= i < |parts| && parts[i].index == x;
          if i < |front| { assert front[i].index == x; }
        }
      }
    }
  }

  function WholeCall(parts: seq<Part>, index: int): ToolCall {
    ToolCall(if IdOf(parts, index) != "" then IdOf(parts, index) else "call_" + IntText(index),
             NamesOf(parts, index),
             if ArgumentsOf(parts, index) != "" then ArgumentsOf(parts, index) else "{}")
  }

  /** The calls of all the parts, each once, in index order. */
  function WholeCalls(parts: seq<Part>): (r: seq<ToolCall>)
    ensures |r| == |Indexes(parts)|
    ensures forall k | 0 <= k < |r| :: r[k] == WholeCall(parts, Indexes(parts)[k])
  {
    var order := Indexes(parts);
    seq(|order|, k requires 0 <= k < |order| => WholeCall(parts, order[k]))
  }

  /** What a stream is made of, in the order it arrives. */
  datatype Event =
    | UsageEvent(usage: AnswerStream.Usage)
    | TextEvent(text: string)
    | PartEvent(part: Part)
    | FinishEvent(reason: string)

  function ChoiceEvents(choice: Choice): seq<Event> {
    (if choice.content != "" then [TextEvent(choice.content)] else [])
    + seq(|choice.parts|, i requires 0 <= i < |choice.parts| => PartEvent(choice.parts[i]))
    + (if choice.finish != "" then [FinishEvent(choice.finish)] else [])
  }

  function ChoicesEvents(choices: seq<Choice>): seq<Event> {
    if choices == [] then []
    else ChoicesEvents(choices[..|choices| - 1]) + ChoiceEvents(choices[|choices| - 1])
  }

  function ChunkEvents(chunk: Chunk): seq<Event> {
    (if chunk.usage.Some? then [UsageEvent(chunk.usage.value)] else []) + ChoicesEvents(chunk.choices)
  }

  function StreamEvents(chunks: seq<Chunk>): seq<Event> {
    if chunks == [] then []
    else StreamEvents(chunks[..|chunks| - 1]) + ChunkEvents(chunks[|chunks| - 1])
  }

  /** The parts since the last finish reason, after one more event. */
  function OpenAfter(open: seq<Part>, e: Event): seq<Part> {
    if e.FinishEvent? then [] else if e.PartEvent? then open + [e.part] else open
  }

  function OpenParts(events: seq<Event>): seq<Part> {
    if events == [] then []
    else OpenAfter(OpenParts(events[..|events| - 1]), events[|events| - 1])
  }

  function AsCalls(calls: seq<ToolCall>): seq<Streamed> {
    seq(|calls|, i requires 0 <= i < |calls| => Calls(calls[i]))
  }

  /** What an event should yield: a finish reason, the whole calls of the
      parts open before it, then itself. */
  function YieldOf(open: seq<Part>, e: Event): seq<Streamed> {
    match e
    case UsageEvent(usage) => [Used(usage)]
    case TextEvent(text) => [Delta(text)]
    case PartEvent(_) => []
    case FinishEvent(reason) => AsCalls(WholeCalls(open)) + [Stop(reason)]
  }

  /** What a stream should yield. */
  function Yields(events: seq<Event>): seq<Streamed> {
    if events == [] then []
    else
      var front := events[..|events| - 1];
      Yields(front) + YieldOf(OpenParts(front), events[|events| - 1])
  }

  // ---- stream -------------------------------------------------------------------

  /** The dictionary of calls being put together: its keys in the order they
      were added, and their values. */
  datatype Dict = Dict(keys: seq<int>, values: map<int, Building>)

  function Sorted(keys: seq<int>): seq<int> {
    if keys == [] then [] else InsertIndex(Sorted(keys[..|keys| - 1]), keys[|keys| - 1])
  }

  /** What an index's pieces amount to. */
  function Amount(parts: seq<Part>, i: int): Building {
    Building(IdOf(parts, i), NamesOf(parts, i), ArgumentsOf(parts, i))
  }

  /** What the dictionary holds after the parts. */
  ghost predicate Built(calls: Dict, parts: seq<Part>) {
    && Sorted(calls.keys) == Indexes(parts)
    && (forall i :: i in calls.values <==> i in Indexes(parts))
    && forall i | i in calls.values :: calls.values[i] == Amount(parts, i)
  }

  lemma {:induction false} AbsentIndex(parts: seq<Part>, index: int)
    requires index !in Indexes(parts)
    ensures NamesOf(parts, index) == "" && ArgumentsOf(parts, index) == "" && IdOf(parts, index) == ""
  {
    if parts != [] {
      var front := parts[..|parts| - 1];
      IndexesAscend(front);
      InsertIndexKeeps(Indexes(front), parts[|parts| - 1].index);
      AbsentIndex(front, index);
    }
  }

  /** A call with one more part of it. */
  function Extend(was: Building, part: Part): Building {
    Building(if part.id != "" then part.id else was.id, was.name + part.name, was.arguments + part.arguments)
  }

  function AddPart(calls: Dict, part: Part): Dict {
    var was := if part.index in calls.values then calls.values[part.index] else Building("", "", "");
    Dict(if part.index in calls.values then calls.keys else calls.keys + [part.index],
         calls.values[part.index := Extend(was, part)])
  }

  lemma AmountOneMore(parts: seq<Part>, part: Part, i: int)
    ensures Amount(parts + [part], i)
            == if part.index != i then Amount(parts, i)
               else Extend(if i in Indexes(parts) then Amount(parts, i) else Building("", "", ""), part)
  {
    assert (parts + [part])[..|parts|] == parts;
    if i !in Indexes(parts) { AbsentIndex(parts, i); }
  }

  lemma IndexesOneMore(parts: seq<Part>, part: Part)
    ensures Indexes(parts + [part]) == InsertIndex(Indexes(parts), part.index)
    ensures forall x :: x in Indexes(parts + [part]) <==> x == part.index || x in Indexes(parts)
    ensures part.index in Indexes(parts) ==> Indexes(parts + [part]) == Indexes(parts)
  {
    assert (parts + [part])[..|parts|] == parts;
    IndexesAscend(parts);
    InsertIndexKeeps(Indexes(parts), part.index);
  }

  lemma BuildOne(calls: Dict, parts: seq<Part>, part: Part)
    requires Built(calls, parts)
    ensures Built(AddPart(calls, part), parts + [part])
  {
    IndexesOneMore(parts, part);
    if part.index !in calls.values {
      assert (calls.keys + [part.index])[..|calls.keys|] == calls.keys;
    }
    forall i ensures Amount(parts + [part], i)
            == if part.index != i then Amount(parts, i)
               else Extend(if i in Indexes(parts) then Amount(parts, i) else Building("", "", ""), part)
    {
      AmountOneMore(parts, part, i);
    }
    hide InsertIndex, Indexes, Amount, Extend;
  }

  method Stream(chunks: seq<Chunk>) returns (out: seq<Streamed>)
    ensures out == Yields(StreamEvents(chunks))
  {
    hide Yields, OpenParts, Built, Indexes, WholeCalls, ChoiceEvents;
    out := [];
    var calls := Dict([], map[]);
    ghost var events: seq<Event> := [];
    NothingStreamed();
    for c := 0 to |chunks|
      invariant events == StreamEvents(chunks[..c])
      invariant out == Yields(events) && Built(calls, OpenParts(events))
    {
      var chunk := chunks[c];
      assert chunks[..c + 1][..c] == chunks[..c];
      ghost var start := events;
      if chunk.usage.Some? {
        YieldOne(events, UsageEvent(chunk.usage.value));
        out := out + [Used(chunk.usage.value)];
        events := events + [UsageEvent(chunk.usage.value)];
      }
      ghost var afterUsage := events;
      for h := 0 to |chunk.choices|
        invariant events == afterUsage + ChoicesEvents(chunk.choices[..h])
        invariant out == Yields(events) && Built(calls, OpenParts(events))
      {
        assert chunk.choices[..h + 1][..h] == chunk.choices[..h];
        out, calls := TakeChoice(chunk.choices[h], out, calls, events);
        events := events + ChoiceEvents(chunk.choices[h]);
      }
      assert chunk.choices[..|chunk.choices|] == chunk.choices;
      assert events == start + ChunkEvents(chunk);
    }
    assert chunks[..|chunks|] == chunks;
  }

  lemma NothingStreamed()
    ensures Yields([]) == [] && Built(Dict([], map[]), OpenParts([]))
  {
  }

  lemma YieldOne(events: seq<Event>, e: Event)
    ensures Yields(events + [e]) == Yields(events) + YieldOf(OpenParts(events), e)
    ensures OpenParts(events + [e]) == OpenAfter(OpenParts(events), e)
  {
    assert (events + [e])[..|events|] == events;
  }

  /** One choice of a chunk. */
  method TakeChoice(choice: Choice, was: seq<Streamed>, building: Dict, ghost events: seq<Event>)
    returns (out: seq<Streamed>, calls: Dict)
    requires was == Yields(events) && Built(building, OpenParts(events))
    ensures out == Yields(events + ChoiceEvents(choice)) && Built(calls, OpenParts(events + ChoiceEvents(choice)))
  {
    hide Yields, OpenParts, Built, Indexes, WholeCalls;
    out, calls := was, building;
    ghost var seen := events;
    if choice.content != "" {
      YieldOne(seen, TextEvent(choice.content));
      out := out + [Delta(choice.content)];
      seen := seen + [TextEvent(choice.content)];
    }
    ghost var beforeParts := seen;
    for k := 0 to |choice.parts|
      invariant seen == beforeParts + seq(k, i requires 0 <= i < k => PartEvent(choice.parts[i]))
      invariant out == Yields(seen) && Built(calls, OpenParts(seen))
    {
      var part := choice.parts[k];
      BuildOne(calls, OpenParts(seen), part);
      YieldOne(seen, PartEvent(part));
      calls := AddPart(calls, part);
      assert out + [] == out;
      seen := seen + [PartEvent(part)];
    }
    if choice.finish != "" {
      YieldOne(seen, FinishEvent(choice.finish));
      var whole := EmitCalls(calls, OpenParts(seen));
      out := out + whole + [Stop(choice.finish)];
      calls := Dict([], map[]);
      NothingStreamed();
      Grouped(Yields(seen), whole, [Stop(choice.finish)]);
      seen := seen + [FinishEvent(choice.finish)];
      NothingBuilt();
    }
    assert seen == events + ChoiceEvents(choice);
  }

  lemma NothingBuilt()
    ensures Built(Dict([], map[]), [])
  {
  }

  function Finished(call: Building, index: int): ToolCall {
    ToolCall(if call.id != "" then call.id else "call_" + IntText(index),
             call.name,
             if call.arguments != "" then call.arguments else "{}")
  }

  lemma BuiltIsWhole(calls: Dict, parts: seq<Part>, k: nat)
    requires Built(calls, parts) && k < |Indexes(parts)|
    ensures var i := Indexes(parts)[k];
            i in calls.values && Finished(calls.values[i], i) == WholeCall(parts, i)
  {
  }

  function CallsUpTo(parts: seq<Part>, k: nat): seq<Streamed>
    requires k <= |Indexes(parts)|
  {
    if k == 0 then [] else CallsUpTo(parts, k - 1) + [Calls(WholeCall(parts, Indexes(parts)[k - 1]))]
  }

  lemma {:induction false} CallsUpToAre(parts: seq<Part>, k: nat)
    requires k <= |Indexes(parts)|
    ensures |CallsUpTo(parts, k)| == k
    ensures forall j | 0 <= j < k :: CallsUpTo(parts, k)[j] == Calls(WholeCall(parts, Indexes(parts)[j]))
  {
    hide WholeCall, Indexes;
    if k > 0 { CallsUpToAre(parts, k - 1); }
  }

  lemma AllCalls(parts: seq<Part>)
    ensures CallsUpTo(parts, |Indexes(parts)|) == AsCalls(WholeCalls(parts))
  {
    CallsUpToAre(parts, |Indexes(parts)|);
    hide CallsUpTo, WholeCall, Indexes;
  }

  /** The calls put together, in index order. */
  method EmitCalls(calls: Dict, ghost parts: seq<Part>) returns (out: seq<Streamed>)
    requires Built(calls, parts)
    ensures out == AsCalls(WholeCalls(parts))
  {
    out := [];
    var order := Sorted(calls.keys);
    assert order == Indexes(parts);
    hide Built, WholeCall, Indexes, Finished, Sorted, WholeCalls, AsCalls;
    for k := 0 to |order|
      invariant out == CallsUpTo(parts, k)
    {
      BuiltIsWhole(calls, parts, k);
      out := out + [Calls(Finished(calls.values[order[k]], order[k]))];
    }
    AllCalls(parts);
  }

  // ---- Fragmentation makes no difference -------------------------------------------

  /** Every index's pieces amount to the same. */
  ghost predicate SameCalls(p: seq<Part>, q: seq<Part>) {
    Indexes(p) == Indexes(q) &&
    forall i | i in Indexes(p) :: Amount(p, i) == Amount(q, i)
  }

  lemma SameCallsYieldTheSame(p: seq<Part>, q: seq<Part>)
    requires SameCalls(p, q)
    ensures WholeCalls(p) == WholeCalls(q)
  {
    var order := Indexes(p);
    forall k | 0 <= k < |order| ensures WholeCall(p, order[k]) == WholeCall(q, order[k]) {
      assert order[k] in Indexes(p);
    }
  }

  /** A call told in one piece. */
  ghost predicate Puts(call: ToolCall, whole: Part) {
    && call.id == (if whole.id != "" then whole.id else "call_" + IntText(whole.index))
    && call.name == whole.name
    && call.arguments == if whole.arguments != "" then whole.arguments else "{}"
  }

  ghost predicate IndexesRise(whole: seq<Part>) {
    forall i, j | 0 <= i < j < |whole| :: whole[i].index < whole[j].index
  }

  lemma {:induction false} InsertLast(order: seq<int>, index: int)
    requires forall x | x in order :: x < index
    ensures InsertIndex(order, index) == order + [index]
  {
    if order != [] {
      assert order[0] in order;
      assert forall x | x in order[1..] :: x in order;
      InsertLast(order[1..], index);
      assert order + [index] == [order[0]] + (order[1..] + [index]);
    }
  }

  lemma {:induction false} IndexesOfWhole(whole: seq<Part>)
    requires IndexesRise(whole)
    ensures |Indexes(whole)| == |whole| && forall k | 0 <= k < |whole| :: Indexes(whole)[k] == whole[k].index
  {
    if whole != [] {
      var n := |whole| - 1;
      IndexesOfWhole(whole[..n]);
      InsertLast(Indexes(whole[..n]), whole[n].index);
    }
  }

  lemma {:induction false} AmountOfWhole(whole: seq<Part>, k: nat)
    requires IndexesRise(whole) && k < |whole|
    ensures Amount(whole, whole[k].index) == Building(whole[k].id, whole[k].name, whole[k].arguments)
  {
    var i := whole[k].index;
    var front, back := whole[..k], whole[k + 1..];
    assert whole == (front + [whole[k]]) + back;
    InTwo(front + [whole[k]], back, i);
    InTwo(front, [whole[k]], i);
    OfOne(whole[k], i);
    OfOthers(front, i);
    OfOthers(back, i);
  }

  lemma {:induction false} OfOthers(parts: seq<Part>, i: int)
    requires forall k | 0 <= k < |parts| :: parts[k].index != i
    ensures Amount(parts, i) == Building("", "", "")
  {
    if parts != [] { OfOthers(parts[..|parts| - 1], i); }
  }

  /** However the calls a model made are cut into pieces and interleaved, the
      calls put together are those it made, in the order of their indexes: with
      its ids, or one made of the index, and with "{}" for no arguments. */
  lemma CallsComeBack(whole: seq<Part>, parts: seq<Part>)
    requires IndexesRise(whole) && SameCalls(whole, parts)
    ensures |WholeCalls(parts)| == |whole|
    ensures forall k | 0 <= k < |whole| :: Puts(WholeCalls(parts)[k], whole[k])
  {
    SameCallsYieldTheSame(whole, parts);
    IndexesOfWhole(whole);
    hide SameCalls, Puts, Indexes, IndexesRise;
    forall k | 0 <= k < |whole| ensures Puts(WholeCalls(whole)[k], whole[k]) {
      AmountOfWhole(whole, k);
      AmountIsPut(whole, whole[k]);
    }
  }

  lemma AmountIsPut(parts: seq<Part>, p: Part)
    requires Amount(parts, p.index) == Building(p.id, p.name, p.arguments)
    ensures Puts(WholeCall(parts, p.index), p)
  {
    hide NamesOf, ArgumentsOf, IdOf, IntText;
  }

  /** ... yielded just before the finish, which yields its reason; and texts and
      usage are yielded as they are. */
  lemma StreamYields(before: seq<Event>, parts: seq<Part>, e: Event)
    requires OpenParts(before) == parts
    ensures e.UsageEvent? ==> Yields(before + [e]) == Yields(before) + [Used(e.usage)]
    ensures e.TextEvent? ==> Yields(before + [e]) == Yields(before) + [Delta(e.text)]
    ensures e.PartEvent? ==> Yields(before + [e]) == Yields(before) && OpenParts(before + [e]) == parts + [e.part]
    ensures e.FinishEvent? ==>
              var out, calls := Yields(before + [e]), WholeCalls(parts);
              && |out| == |Yields(before)| + |calls| + 1 && out[..|Yields(before)|] == Yields(before)
              && (forall k | 0 <= k < |calls| :: out[|Yields(before)| + k] == Calls(calls[k]))
              && out[|out| - 1] == Stop(e.reason) && OpenParts(before + [e]) == []
  {
    hide *;
    YieldOne(before, e);
    OneYield(parts, e);
    assert Yields(before) + [] == Yields(before);
    if e.FinishEvent? { LastPlaces(Yields(before), AsCalls(WholeCalls(parts)), Stop(e.reason)); }
  }

  lemma OneYield(parts: seq<Part>, e: Event)
    ensures e.UsageEvent? ==> YieldOf(parts, e) == [Used(e.usage)]
    ensures e.TextEvent? ==> YieldOf(parts, e) == [Delta(e.text)]
    ensures e.PartEvent? ==> YieldOf(parts, e) == [] && OpenAfter(parts, e) == parts + [e.part]
    ensures e.FinishEvent? ==>
              var calls := WholeCalls(parts);
              && OpenAfter(parts, e) == [] && YieldOf(parts, e) == AsCalls(calls) + [Stop(e.reason)]
              && |AsCalls(calls)| == |calls| && forall k | 0 <= k < |calls| :: AsCalls(calls)[k] == Calls(calls[k])
  {
    hide WholeCalls;
  }

  lemma LastPlaces<T>(a: seq<T>, b: seq<T>, last: T)
    ensures var out := a + (b + [last]);
            |out| == |a| + |b| + 1 && out[..|a|] == a && out[|out| - 1] == last
            && forall k | 0 <= k < |b| :: out[|a| + k] == b[k]
  {
  }

  lemma OneMorePart(parts: seq<Part>, p: Part, i: int)
    ensures NamesOf(parts + [p], i) == NamesOf(parts, i) + (if p.index == i then p.name else "")
    ensures ArgumentsOf(parts + [p], i) == ArgumentsOf(parts, i) + (if p.index == i then p.arguments else "")
    ensures IdOf(parts + [p], i) == if p.index == i && p.id != "" then p.id else IdOf(parts, i)
  {
    assert (parts + [p])[..|parts|] == parts;
  }

  lemma {:induction false} InTwo(a: seq<Part>, b: seq<Part>, i: int)
    ensures NamesOf(a + b, i) == NamesOf(a, i) + NamesOf(b, i)
    ensures ArgumentsOf(a + b, i) == ArgumentsOf(a, i) + ArgumentsOf(b, i)
    ensures IdOf(a + b, i) == if IdOf(b, i) != "" then IdOf(b, i) else IdOf(a, i)
  {
    if b == [] {
      assert a + b == a;
    } else {
      hide NamesOf, ArgumentsOf, IdOf;
      var front, last := b[..|b| - 1], b[|b| - 1];
      assert b == front + [last] && a + b == (a + front) + [last];
      InTwo(a, front, i);
      OneMorePart(front, last, i);
      OneMorePart(a + front, last, i);
    }
  }

  lemma OfOne(p: Part, i: int)
    ensures NamesOf([p], i) == (if p.index == i then p.name else "")
    ensures ArgumentsOf([p], i) == (if p.index == i then p.arguments else "")
    ensures IdOf([p], i) == (if p.index == i then p.id else "")
  {
    assert [p][..0] == [];
  }

  lemma OfTwo(p: Part, q: Part, i: int)
    ensures NamesOf([p, q], i) == (if p.index == i then p.name else "") + (if q.index == i then q.name else "")
    ensures ArgumentsOf([p, q], i)
            == (if p.index == i then p.arguments else "") + (if q.index == i then q.arguments else "")
    ensures IdOf([p, q], i)
            == if q.index == i && q.id != "" then q.id else if p.index == i then p.id else ""
  {
    assert [p] + [q] == [p, q];
    InTwo([p], [q], i);
    OfOne(p, i);
    OfOne(q, i);
  }

  lemma {:induction false} AscendingExtensional(x: seq<int>, y: seq<int>)
    requires Ascending(x) && Ascending(y) && forall i :: i in x <==> i in y
    ensures x == y
    decreases |x|
  {
    if x == [] {
      assert forall k | 0 <= k < |y| :: y[k] in y;
    } else {
      assert x[0] in x && x[0] in y;
      assert y[0] in y && y[0] in x;
      assert x[0] == y[0];
      TailMembers(x);
      TailMembers(y);
      AscendingExtensional(x[1..], y[1..]);
      assert x == [x[0]] + x[1..] && y == [y[0]] + y[1..];
    }
  }

  lemma TailMembers(x: seq<int>)
    requires Ascending(x) && x != []
    ensures forall i :: i in x[1..] <==> i in x && i != x[0]
  {
  }

  lemma IndexMembersInTwo(a: seq<Part>, b: seq<Part>)
    ensures forall x :: x in Indexes(a + b) <==> x in Indexes(a) || x in Indexes(b)
  {
    IndexesAscend(a);
    IndexesAscend(b);
    IndexesAscend(a + b);
    hide Indexes;
    forall x ensures x in Indexes(a + b) <==> x in Indexes(a) || x in Indexes(b) {
      if x in Indexes(a) {
        var i :| 0 <= i < |a| && a[i].index == x;
        assert (a + b)[i].index == x;
      }
      if x in Indexes(b) {
        var i :| 0 <= i < |b| && b[i].index == x;
        assert (a + b)[|a| + i].index == x;
      }
    }
  }

  /** The same indexes in the middle: the same in all. */
  lemma IndexesExchanged(a: seq<Part>, m: seq<Part>, m': seq<Part>, b: seq<Part>)
    requires Indexes(m) == Indexes(m')
    ensures Indexes(a + m + b) == Indexes(a + m' + b)
  {
    IndexMembersInTwo(a + m, b);
    IndexMembersInTwo(a, m);
    IndexMembersInTwo(a + m', b);
    IndexMembersInTwo(a, m');
    IndexesAscend(a + m + b);
    IndexesAscend(a + m' + b);
    hide Indexes;
    AscendingExtensional(Indexes(a + m + b), Indexes(a + m' + b));
  }

  lemma AmountExchanged(a: seq<Part>, m: seq<Part>, m': seq<Part>, b: seq<Part>, i: int)
    requires Amount(m, i) == Amount(m', i)
    ensures Amount(a + m + b, i) == Amount(a + m' + b, i)
  {
    InTwo(a + m, b, i);
    InTwo(a, m, i);
    InTwo(a + m', b, i);
    InTwo(a, m', i);
    hide IdOf, NamesOf, ArgumentsOf;
  }

  lemma IndexesOfTwo(p: Part, q: Part)
    ensures Indexes([p]) == [p.index]
    ensures Indexes([p, q]) == if p.index == q.index then [p.index]
                               else if p.index < q.index then [p.index, q.index] else [q.index, p.index]
  {
    assert [p][..0] == [] && [p, q][..1] == [p];
    assert InsertIndex([], p.index) == [p.index] && InsertIndex([], q.index) == [q.index];
    var one := [p.index];
    assert one[1..] == [];
    assert InsertIndex(one, q.index) == if q.index < p.index then [q.index] + one
                                        else if q.index == p.index then one else [p.index] + [q.index];
  }

  // ---- Whole streams -----------------------------------------------------------------

  /** What a stream holds besides parts. */
  function Others(events: seq<Event>): seq<Event> {
    if events == [] then []
    else
      var last := events[|events| - 1];
      Others(events[..|events| - 1]) + (if last.PartEvent? then [] else [last])
  }

  /** The parts each finish reason finds open. */
  function Closed(events: seq<Event>): seq<seq<Part>> {
    if events == [] then []
    else
      var front := events[..|events| - 1];
      Closed(front) + (if events[|front|].FinishEvent? then [OpenParts(front)] else [])
  }

  /** Two streams with the same usage, texts and finish reasons, in order, and
      with parts that amount to the same before each finish reason - however
      those are cut, and interleaved with each other and with the rest. */
  ghost predicate Alike(e: seq<Event>, f: seq<Event>) {
    Others(e) == Others(f) && |Closed(e)| == |Closed(f)|
    && forall i | 0 <= i < |Closed(e)| :: SameCalls(Closed(e)[i], Closed(f)[i])
  }

  /** The yields, from the two. */
  function Merged(others: seq<Event>, closed: seq<seq<Part>>): seq<Streamed> {
    if others == [] then []
    else
      var front, last := others[..|others| - 1], others[|others| - 1];
      if last.FinishEvent? && closed != [] then
        Merged(front, closed[..|closed| - 1]) + YieldOf(closed[|closed| - 1], last)
      else Merged(front, closed) + YieldOf([], last)
  }

  lemma EventOneMore(events: seq<Event>, e: Event)
    ensures Others(events + [e]) == Others(events) + (if e.PartEvent? then [] else [e])
    ensures Closed(events + [e]) == Closed(events) + (if e.FinishEvent? then [OpenParts(events)] else [])
  {
    assert (events + [e])[..|events|] == events;
    hide OpenParts;
  }

  lemma MergedOneMore(others: seq<Event>, closed: seq<seq<Part>>, e: Event, open: seq<Part>)
    ensures e.FinishEvent? ==> Merged(others + [e], closed + [open]) == Merged(others, closed) + YieldOf(open, e)
    ensures !e.FinishEvent? ==> Merged(others + [e], closed) == Merged(others, closed) + YieldOf([], e)
  {
    assert (others + [e])[..|others|] == others && (closed + [open])[..|closed|] == closed;
    hide YieldOf;
  }

  lemma {:induction false} YieldsAreMerged(events: seq<Event>)
    ensures Yields(events) == Merged(Others(events), Closed(events))
  {
    hide OpenParts, Others, Closed, Merged, WholeCalls;
    if |events| == 0 {
      NothingMerged(events);
    } else {
      hide Yields;
      var front, last := events[..|events| - 1], events[|events| - 1];
      assert events == front + [last];
      YieldsAreMerged(front);
      YieldOne(front, last);
      EventOneMore(front, last);
      MergedOneMore(Others(front), Closed(front), last, OpenParts(front));
      assert Closed(front) + [] == Closed(front) && Others(front) + [] == Others(front);
      assert Yields(front) + [] == Yields(front);
    }
  }

  lemma NothingMerged(events: seq<Event>)
    requires |events| == 0
    ensures Yields(events) == Merged(Others(events), Closed(events)) == []
  {
  }

  lemma {:induction false} MergedAlike(others: seq<Event>, c: seq<seq<Part>>, d: seq<seq<Part>>)
    requires |c| == |d| && forall i | 0 <= i < |c| :: SameCalls(c[i], d[i])
    ensures Merged(others, c) == Merged(others, d)
  {
    hide SameCalls, WholeCalls;
    if others != [] {
      var front, last := others[..|others| - 1], others[|others| - 1];
      if last.FinishEvent? && c != [] {
        SameCallsYieldTheSame(c[|c| - 1], d[|d| - 1]);
        MergedAlike(front, c[..|c| - 1], d[..|d| - 1]);
      } else {
        MergedAlike(front, c, d);
      }
    }
  }

  /** Fragmentation does not matter: streams alike yield the same items, calls
      and finish reasons, in the same order. */
  lemma AlikeStreamsYieldTheSame(e: seq<Event>, f: seq<Event>)
    requires Alike(e, f)
    ensures Yields(e) == Yields(f)
  {
    hide Yields, Merged, Others, Closed, SameCalls;
    YieldsAreMerged(e);
    YieldsAreMerged(f);
    MergedAlike(Others(e), Closed(e), Closed(f));
  }

  lemma SameCallsExtend(p: seq<Part>, q: seq<Part>, a: seq<Part>, b: seq<Part>)
    requires SameCalls(p, q)
    ensures SameCalls(a + p + b, a + q + b)
  {
    IndexesExchanged(a, p, q, b);
    forall i ensures Amount(a + p + b, i) == Amount(a + q + b, i) {
      if i !in Indexes(p) { AbsentIndex(p, i); AbsentIndex(q, i); }
      AmountExchanged(a, p, q, b, i);
    }
    hide Indexes, Amount;
  }

  lemma SameCallsItself(p: seq<Part>)
    ensures SameCalls(p, p)
  {
  }

  /** What is open stays alike, whatever comes next. */
  lemma {:induction false} AlikeGoesOn(e: seq<Event>, f: seq<Event>, more: seq<Event>)
    requires Alike(e, f) && SameCalls(OpenParts(e), OpenParts(f))
    ensures Alike(e + more, f + more) && SameCalls(OpenParts(e + more), OpenParts(f + more))
  {
    hide OpenParts, SameCalls, Others, Closed;
    if more == [] {
      assert e + more == e && f + more == f;
    } else {
      var front, x := more[..|more| - 1], more[|more| - 1];
      AlikeGoesOn(e, f, front);
      assert e + more == (e + front) + [x] && f + more == (f + front) + [x];
      AlikeOneMore(e + front, f + front, x);
    }
  }

  lemma AlikeOneMore(e: seq<Event>, f: seq<Event>, x: Event)
    requires Alike(e, f) && SameCalls(OpenParts(e), OpenParts(f))
    ensures Alike(e + [x], f + [x]) && SameCalls(OpenParts(e + [x]), OpenParts(f + [x]))
  {
    hide OpenParts, SameCalls, Others, Closed, Yields;
    EventOneMore(e, x);
    EventOneMore(f, x);
    YieldOne(e, x);
    YieldOne(f, x);
    if x.PartEvent? {
      var p, q := OpenParts(e), OpenParts(f);
      SameCallsExtend(p, q, [], [x.part]);
      assert [] + p + [x.part] == p + [x.part] && [] + q + [x.part] == q + [x.part];
    }
    SameCallsItself([]);
  }

  function AsParts(parts: seq<Part>): seq<Event> {
    seq(|parts|, i requires 0 <= i < |parts| => PartEvent(parts[i]))
  }

  lemma {:induction false} PartsStayOpen(events: seq<Event>, parts: seq<Part>)
    ensures OpenParts(events + AsParts(parts)) == OpenParts(events) + parts
    ensures Others(events + AsParts(parts)) == Others(events)
    ensures Closed(events + AsParts(parts)) == Closed(events)
  {
    hide OpenParts, Others, Closed, Yields;
    if parts == [] {
      assert events + AsParts(parts) == events && OpenParts(events) + parts == OpenParts(events);
    } else {
      var front, last := parts[..|parts| - 1], parts[|parts| - 1];
      PartsStayOpen(events, front);
      assert events + AsParts(parts) == (events + AsParts(front)) + [PartEvent(last)];
      YieldOne(events + AsParts(front), PartEvent(last));
      EventOneMore(events + AsParts(front), PartEvent(last));
      Grouped(OpenParts(events), front, [last]);
      assert front + [last] == parts;
      assert Others(events) + [] == Others(events) && Closed(events) + [] == Closed(events);
    }
  }

  /** Within a stream, parts can be exchanged for parts that amount to the
      same. */
  lemma PartsExchanged(a: seq<Event>, m: seq<Part>, m': seq<Part>, b: seq<Event>)
    requires SameCalls(m, m')
    ensures Alike(a + AsParts(m) + b, a + AsParts(m') + b)
    ensures Yields(a + AsParts(m) + b) == Yields(a + AsParts(m') + b)
  {
    hide OpenParts, Yields, Others, Closed;
    var open := OpenParts(a);
    PartsStayOpen(a, m);
    PartsStayOpen(a, m');
    SameCallsExtend(m, m', open, []);
    assert open + m + [] == open + m && open + m' + [] == open + m';
    hide SameCalls;
    ClosedAlike(Closed(a));
    AlikeGoesOn(a + AsParts(m), a + AsParts(m'), b);
    AlikeStreamsYieldTheSame(a + AsParts(m) + b, a + AsParts(m') + b);
  }

  lemma ClosedAlike(closed: seq<seq<Part>>)
    ensures forall i | 0 <= i < |closed| :: SameCalls(closed[i], closed[i])
  {
  }

  /** However a part's name and arguments are cut in two, with the id on
      either piece or both, the stream yields the same. */
  lemma CutMakesNoDifference(a: seq<Event>, part: Part, b: seq<Event>, n: nat, k: nat, idFirst: bool, idSecond: bool)
    requires n <= |part.name| && k <= |part.arguments| && (idFirst || idSecond || part.id == "")
    ensures var first := Part(part.index, if idFirst then part.id else "", part.name[..n], part.arguments[..k]);
            var second := Part(part.index, if idSecond then part.id else "", part.name[n..], part.arguments[k..]);
            Yields(a + AsParts([part]) + b) == Yields(a + AsParts([first, second]) + b)
  {
    var first := Part(part.index, if idFirst then part.id else "", part.name[..n], part.arguments[..k]);
    var second := Part(part.index, if idSecond then part.id else "", part.name[n..], part.arguments[k..]);
    assert part.name[..n] + part.name[n..] == part.name && part.arguments[..k] + part.arguments[k..] == part.arguments;
    OfOne(part, part.index);
    OfTwo(first, second, part.index);
    IndexesOfTwo(part, part);
    IndexesOfTwo(first, second);
    hide Indexes, IdOf, NamesOf, ArgumentsOf, Yields, AsParts;
    PartsExchanged(a, [part], [first, second], b);
  }

  /** Parts of different calls may interleave in any order. */
  lemma InterleavingMakesNoDifference(a: seq<Event>, p: Part, q: Part, b: seq<Event>)
    requires p.index != q.index
    ensures Yields(a + AsParts([p, q]) + b) == Yields(a + AsParts([q, p]) + b)
  {
    IndexesOfTwo(p, q);
    IndexesOfTwo(q, p);
    OfTwo(p, q, p.index);
    OfTwo(p, q, q.index);
    OfTwo(q, p, p.index);
    OfTwo(q, p, q.index);
    hide Indexes, IdOf, NamesOf, ArgumentsOf, Yields, AsParts;
    PartsExchanged(a, [p, q], [q, p], b);
  }
}
