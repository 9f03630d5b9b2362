/** The agent of app/agent.py: a bounded loop in which the model calls tools,
    reads their results and answers. */
module Agent {
  import opened Common
  import opened Canonical
  import Json
  import AnswerStream

  datatype ToolCall = ToolCall(id: string, name: string, arguments: string)

  datatype Message =
    | System(content: string)
    | User(content: string)
    | Assistant(content: string, calls: seq<ToolCall>)
    | ToolResult(callId: string, content: string)

  /** An item of the model's stream. */
  datatype Streamed =
    | Delta(text: string)
    | Used(usage: AnswerStream.Usage)
    | Stop(reason: string)
    | Calls(call: ToolCall)

  /** One model call: what it streamed, and whether it then raised. */
  datatype Round = Round(items: seq<Streamed>, raised: bool)

  datatype Result = Result(text: string, ok: bool, summary: string)

  datatype Outcome = Returned(result: Result) | Raised

  const REFUSED := Result(
    "You already called this tool with these arguments: use that result.", false, "repeated call refused")

  /** The names of app/tools.py. */
  const TOOLS := ["list_alerts", "search_runbooks"]

  function Label(name: string): string {
    if name in TOOLS then name else "unknown"
  }

  function KeyText(name: string, arguments: string, num: Numbers): string {
    name + ":" + CanonicalForm(arguments, num)
  }

  function Key(call: ToolCall, num: Numbers): string {
    KeyText(call.name, call.arguments, num)
  }

  // ---- What a transcript and a run of calls should be --------------------------

  /** After the two opening messages: assistant turns, each with the result of
      each of its calls, once, in the calls' order, under the call's id. */
  ghost predicate Turns(messages: seq<Message>) {
    messages == [] ||
    (messages[0].Assistant? &&
     var n := |messages[0].calls|;
     n > 0 && 1 + n <= |messages| &&
     (forall i | 1 <= i < 1 + n ::
        messages[i].ToolResult? && messages[i].callId == messages[0].calls[i - 1].id) &&
     Turns(messages[1 + n..]))
  }

  ghost predicate Transcript(messages: seq<Message>) {
    |messages| >= 2 && messages[0].System? && messages[1].User? && Turns(messages[2..])
  }

  function CallsOf(messages: seq<Message>): seq<ToolCall> {
    if messages == [] then []
    else (if messages[0].Assistant? then messages[0].calls else []) + CallsOf(messages[1..])
  }

  function Keys(calls: seq<ToolCall>, num: Numbers): set<string> {
    set i | 0 <= i < |calls| :: Key(calls[i], num)
  }

  /** The first call of each key, in order. */
  function FirstCalls(calls: seq<ToolCall>, num: Numbers): seq<ToolCall> {
    if calls == [] then []
    else
      var front, last := calls[..|calls| - 1], calls[|calls| - 1];
      FirstCalls(front, num) + (if Key(last, num) in Keys(front, num) then [] else [last])
  }

  ghost predicate OncePerKey(calls: seq<ToolCall>, num: Numbers) {
    forall i, j | 0 <= i < j < |calls| :: Key(calls[i], num) != Key(calls[j], num)
  }

  lemma {:induction false} FirstCallsOncePerKey(calls: seq<ToolCall>, num: Numbers)
    ensures Keys(FirstCalls(calls, num), num) == Keys(calls, num) && OncePerKey(FirstCalls(calls, num), num)
  {
    hide Key, Keys, OncePerKey;
    if calls == [] {
      NoKeys(num);
    } else {
      var front, last := calls[..|calls| - 1], calls[|calls| - 1];
      FirstCallsOncePerKey(front, num);
      assert front + [last] == calls;
      FirstCallsStep(front, last, FirstCalls(front, num), num);
    }
  }

  lemma NoKeys(num: Numbers)
    ensures Keys([], num) == {} && OncePerKey([], num)
  {
  }

  lemma FirstCallsStep(front: seq<ToolCall>, last: ToolCall, first: seq<ToolCall>, num: Numbers)
    requires Keys(first, num) == Keys(front, num) && OncePerKey(first, num)
    ensures var after := first + (if Key(last, num) in Keys(front, num) then [] else [last]);
            Keys(after, num) == Keys(front + [last], num) && OncePerKey(after, num)
  {
    KeysGrow(front, last, num);
    hide *;
    if Key(last, num) in Keys(front, num) {
      assert first + [] == first;
    } else {
      KeysGrow(first, last, num);
      OncePerKeyGrows(first, last, num);
    }
  }

  lemma OncePerKeyGrows(calls: seq<ToolCall>, call: ToolCall, num: Numbers)
    requires OncePerKey(calls, num) && Key(call, num) !in Keys(calls, num)
    ensures OncePerKey(calls + [call], num)
  {
    hide Key;
    forall i | 0 <= i < |calls| ensures Key(calls[i], num) != Key(call, num) {
      assert Key(calls[i], num) in Keys(calls, num);
    }
  }

  lemma KeysGrow(calls: seq<ToolCall>, call: ToolCall, num: Numbers)
    ensures Keys(calls + [call], num) == Keys(calls, num) + {Key(call, num)}
  {
    hide Key;
    var more := calls + [call];
    forall k | k in Keys(calls, num) + {Key(call, num)} ensures k in Keys(more, num) {
      if k in Keys(calls, num) {
        var i :| 0 <= i < |calls| && Key(calls[i], num) == k;
        assert more[i] == calls[i];
      } else {
        assert more[|calls|] == call;
      }
    }
  }

  lemma TurnAhead(a: seq<Message>, b: seq<Message>)
    requires a != [] && Turns(a) && Turns(a[1 + |a[0].calls|..] + b)
    ensures Turns(a + b)
  {
    var n := |a[0].calls|;
    var all := a + b;
    assert all[1 + n..] == a[1 + n..] + b;
    assert forall i | 0 <= i < 1 + n :: all[i] == a[i];
    assert all[0].calls == a[0].calls;
  }

  lemma {:induction false} TurnsJoin(a: seq<Message>, b: seq<Message>)
    requires Turns(a) && Turns(b)
    ensures Turns(a + b)
    decreases |a|
  {
    if a == [] {
      assert a + b == b;
    } else {
      assert Turns(a[1 + |a[0].calls|..]);
      hide Turns;
      TurnsJoin(a[1 + |a[0].calls|..], b);
      TurnAhead(a, b);
    }
  }

  lemma {:induction false} CallsOfJoin(a: seq<Message>, b: seq<Message>)
    ensures CallsOf(a + b) == CallsOf(a) + CallsOf(b)
  {
    if a == [] {
      assert a + b == b;
    } else {
      assert (a + b)[1..] == a[1..] + b;
      CallsOfJoin(a[1..], b);
    }
  }

  lemma {:induction false} ResultsHaveNoCalls(results: seq<Message>)
    requires forall i | 0 <= i < |results| :: results[i].ToolResult?
    ensures CallsOf(results) == []
  {
    if results != [] { ResultsHaveNoCalls(results[1..]); }
  }

  /** The results of the first calls of a turn. */
  ghost predicate Results(results: seq<Message>, calls: seq<ToolCall>) {
    |results| <= |calls| &&
    forall i | 0 <= i < |results| :: results[i].ToolResult? && results[i].callId == calls[i].id
  }

  lemma TurnOf(turn: Message, results: seq<Message>)
    requires turn.Assistant? && |turn.calls| > 0 && |results| == |turn.calls| && Results(results, turn.calls)
    ensures Turns([turn] + results) && CallsOf([turn] + results) == turn.calls
  {
    var block := [turn] + results;
    assert block[1 + |turn.calls|..] == [];
    assert block[1..] == results;
    ResultsHaveNoCalls(results);
  }

  /** A turn whose calls are all answered extends a transcript. */
  lemma OneMoreTurn(messages: seq<Message>, turn: Message, results: seq<Message>)
    requires Transcript(messages) && turn.Assistant? && |turn.calls| > 0 && |results| == |turn.calls|
    requires Results(results, turn.calls)
    ensures Transcript(messages + ([turn] + results))
    ensures CallsOf(messages + ([turn] + results)) == CallsOf(messages) + turn.calls
  {
    hide Turns, CallsOf, Results;
    var block := [turn] + results;
    TurnOf(turn, results);
    TurnsJoin(messages[2..], block);
    assert (messages + block)[2..] == messages[2..] + block;
    CallsOfJoin(messages, block);
  }

  // ---- What each round should add ----------------------------------------------------

  /** The model's answer to a transcript, with tools on offer or not. */
  type Model = (seq<Message>, bool) -> Round

  /** A tool call's outcome, which may depend on how many calls ran before;
      and the texts on which `json.loads` raises anything but a
      JSONDecodeError - integers of too many digits, nesting too deep - which
      `_canonical` lets through. */
  datatype Tools = Tools(run: (ToolCall, nat) -> Outcome, unreadable: string -> bool)

  /** The outcome of a call considered after `earlier` ones: a repeat is
      refused, anything else runs. */
  function OutcomeOf(tools: Tools, earlier: seq<ToolCall>, call: ToolCall, num: Numbers): Outcome {
    if tools.unreadable(call.arguments) then Raised
    else if Key(call, num) in Keys(earlier, num) then Returned(REFUSED)
    else tools.run(call, |FirstCalls(earlier, num)|)
  }

  function ResultOf(o: Outcome): Result {
    if o.Returned? then o.result else Result("", false, "")
  }

  /** The results of the first `k` calls of a turn, and the events that tell
      the client about them. */
  function Answers(tools: Tools, earlier: seq<ToolCall>, calls: seq<ToolCall>, k: nat, num: Numbers): seq<Message>
    requires k <= |calls|
  {
    if k == 0 then []
    else
      var call := calls[k - 1];
      Answers(tools, earlier, calls, k - 1, num)
      + [ToolResult(call.id, ResultOf(OutcomeOf(tools, earlier + calls[..k - 1], call, num)).text)]
  }

  function Events(tools: Tools, earlier: seq<ToolCall>, calls: seq<ToolCall>, k: nat, num: Numbers)
    : seq<AnswerStream.Item>
    requires k <= |calls|
  {
    if k == 0 then []
    else
      var call := calls[k - 1];
      var result := ResultOf(OutcomeOf(tools, earlier + calls[..k - 1], call, num));
      Events(tools, earlier, calls, k - 1, num) + [AnswerStream.ToolUse(Label(call.name), result.ok, result.summary)]
  }

  ghost predicate AllReturned(tools: Tools, earlier: seq<ToolCall>, calls: seq<ToolCall>, k: nat, num: Numbers)
    requires k <= |calls|
  {
    forall j | 0 <= j < k :: OutcomeOf(tools, earlier + calls[..j], calls[j], num).Returned?
  }

  /** A round with tools on offer leads from one transcript to the next. */
  ghost predicate Follows(model: Model, tools: Tools, messages: seq<Message>, next: seq<Message>, num: Numbers) {
    var round := model(messages, true);
    var calls := StreamedCalls(round.items);
    && !round.raised && |calls| > 0 && AllReturned(tools, CallsOf(messages), calls, |calls|, num)
    && next == messages + ([Assistant(Concat(AnswerStream.Deltas(StreamedItems(round.items))), calls)]
                           + Answers(tools, CallsOf(messages), calls, |calls|, num))
  }

  /** What the first `n` rounds emit. */
  function Emitted(model: Model, tools: Tools, sent: seq<seq<Message>>, n: nat, num: Numbers): seq<AnswerStream.Item>
    requires n <= |sent|
  {
    if n == 0 then []
    else
      var items := model(sent[n - 1], true).items;
      var calls := StreamedCalls(items);
      Emitted(model, tools, sent, n - 1, num)
      + (StreamedItems(items) + Events(tools, CallsOf(sent[n - 1]), calls, |calls|, num))
  }

  /** The transcripts sent are the opening messages and what each round made
      of the one before; the next one is `messages`. */
  ghost predicate Replays(model: Model, tools: Tools, prompt: string, question: string,
                          sent: seq<seq<Message>>, messages: seq<Message>, num: Numbers) {
    var all := sent + [messages];
    all[0] == [System(prompt), User(question)]
    && forall i | 0 <= i < |sent| :: Follows(model, tools, all[i], all[i + 1], num)
  }

  lemma ReplaysOneMore(model: Model, tools: Tools, prompt: string, question: string,
                       sent: seq<seq<Message>>, messages: seq<Message>, next: seq<Message>, num: Numbers)
    requires Replays(model, tools, prompt, question, sent, messages, num) && Follows(model, tools, messages, next, num)
    ensures Replays(model, tools, prompt, question, sent + [messages], next, num)
  {
    hide Follows;
    var all := sent + [messages];
    forall i | 0 <= i < |all| ensures Follows(model, tools, (all + [next])[i], (all + [next])[i + 1], num) {
      if i < |sent| { assert (all + [next])[i] == all[i] && (all + [next])[i + 1] == all[i + 1]; }
    }
  }

  lemma {:induction false} EmittedGrows(model: Model, tools: Tools, sent: seq<seq<Message>>, more: seq<Message>, n: nat,
                                        num: Numbers)
    requires n <= |sent|
    ensures Emitted(model, tools, sent + [more], n, num) == Emitted(model, tools, sent, n, num)
  {
    if n > 0 { EmittedGrows(model, tools, sent, more, n - 1, num); }
  }

  lemma AnswersOneMore(tools: Tools, earlier: seq<ToolCall>, calls: seq<ToolCall>, k: nat, num: Numbers)
    requires k < |calls|
    ensures var result := ResultOf(OutcomeOf(tools, earlier + calls[..k], calls[k], num));
            Answers(tools, earlier, calls, k + 1, num)
            == Answers(tools, earlier, calls, k, num) + [ToolResult(calls[k].id, result.text)]
            && Events(tools, earlier, calls, k + 1, num)
               == Events(tools, earlier, calls, k, num)
                  + [AnswerStream.ToolUse(Label(calls[k].name), result.ok, result.summary)]
    ensures AllReturned(tools, earlier, calls, k, num)
            && OutcomeOf(tools, earlier + calls[..k], calls[k], num).Returned? ==>
              AllReturned(tools, earlier, calls, k + 1, num)
  {
    hide OutcomeOf, Label;
  }

  lemma NoAnswersYet(tools: Tools, earlier: seq<ToolCall>, calls: seq<ToolCall>, num: Numbers)
    ensures Answers(tools, earlier, calls, 0, num) == [] && Events(tools, earlier, calls, 0, num) == []
    ensures AllReturned(tools, earlier, calls, 0, num)
  {
  }

  /** What the model and the client are told of a call: a repeat is refused;
      any other has the result the tool gave it. The client sees the name only
      if it is a tool's. */
  ghost predicate Told(tools: Tools, earlier: seq<ToolCall>, call: ToolCall, answer: Message,
                       event: AnswerStream.Item, num: Numbers)
  {
    && answer.ToolResult? && answer.callId == call.id && event.ToolUse?
    && event.name == (if call.name == "list_alerts" || call.name == "search_runbooks" then call.name else "unknown")
    && if exists i | 0 <= i < |earlier| :: Key(earlier[i], num) == Key(call, num) then
         !event.ok && event.summary == "repeated call refused"
         && answer.content == "You already called this tool with these arguments: use that result."
       else
         tools.run(call, |FirstCalls(earlier, num)|) == Returned(Result(answer.content, event.ok, event.summary))
  }

  lemma OneTold(tools: Tools, earlier: seq<ToolCall>, call: ToolCall, num: Numbers)
    requires OutcomeOf(tools, earlier, call, num).Returned?
    ensures var result := ResultOf(OutcomeOf(tools, earlier, call, num));
            Told(tools, earlier, call, ToolResult(call.id, result.text),
                 AnswerStream.ToolUse(Label(call.name), result.ok, result.summary), num)
  {
    hide Key, FirstCalls;
    assert Key(call, num) in Keys(earlier, num)
           <==> exists i | 0 <= i < |earlier| :: Key(earlier[i], num) == Key(call, num);
  }

  lemma {:induction false} RoundTells(tools: Tools, earlier: seq<ToolCall>, calls: seq<ToolCall>, k: nat, num: Numbers)
    requires k <= |calls| && AllReturned(tools, earlier, calls, k, num)
    ensures var answers, events := Answers(tools, earlier, calls, k, num), Events(tools, earlier, calls, k, num);
            |answers| == k && |events| == k
            && forall j | 0 <= j < k :: Told(tools, earlier + calls[..j], calls[j], answers[j], events[j], num)
  {
    hide Told, OutcomeOf, Label, ResultOf;
    if k == 0 {
      NoAnswersYet(tools, earlier, calls, num);
    } else {
      RoundTells(tools, earlier, calls, k - 1, num);
      AnswersOneMore(tools, earlier, calls, k - 1, num);
      OneTold(tools, earlier + calls[..k - 1], calls[k - 1], num);
    }
  }

  /** The round's turn and results are the next transcript, and its items and
      events what it emits. */
  lemma RoundFollows(model: Model, tools: Tools, sent: seq<seq<Message>>, messages: seq<Message>, num: Numbers)
    requires var round := model(messages, true);
             var calls := StreamedCalls(round.items);
             !round.raised && |calls| > 0 && AllReturned(tools, CallsOf(messages), calls, |calls|, num)
    ensures var round := model(messages, true);
            var calls := StreamedCalls(round.items);
            var turn := Assistant(Concat(AnswerStream.Deltas(StreamedItems(round.items))), calls);
            Follows(model, tools, messages,
                    messages + ([turn] + Answers(tools, CallsOf(messages), calls, |calls|, num)), num)
            && Emitted(model, tools, sent + [messages], |sent| + 1, num)
               == Emitted(model, tools, sent, |sent|, num)
                  + (StreamedItems(round.items) + Events(tools, CallsOf(messages), calls, |calls|, num))
  {
    hide AllReturned, Answers, Events, StreamedCalls, StreamedItems, CallsOf, Concat;
    EmittedGrows(model, tools, sent, messages, |sent|, num);
  }

  // ---- _loop ---------------------------------------------------------------------

  /** How a run ends: answered in round `step`, an exception, or the code
      after the loop. */
  datatype Ending = Answered(step: nat) | Failed | FellThrough

  /** The model calls so far: each given a well-formed transcript that the
      next ones extend, with tools on offer except in the last round. */
  ghost predicate Logged(sent: seq<seq<Message>>, offered: seq<bool>, messages: seq<Message>, maxSteps: nat) {
    && |sent| == |offered| <= maxSteps + 1
    && (forall i | 0 <= i < |sent| :: offered[i] <==> i < maxSteps)
    && (forall i | 0 <= i < |sent| :: Transcript(sent[i]) && sent[i] <= messages)
    && (forall i, j | 0 <= i <= j < |sent| :: sent[i] <= sent[j])
  }

  lemma LogOne(sent: seq<seq<Message>>, offered: seq<bool>, messages: seq<Message>, maxSteps: nat)
    requires Logged(sent, offered, messages, maxSteps) && |sent| <= maxSteps && Transcript(messages)
    ensures Logged(sent + [messages], offered + [|sent| < maxSteps], messages, maxSteps)
  {
  }

  lemma LogGrows(sent: seq<seq<Message>>, offered: seq<bool>, messages: seq<Message>, more: seq<Message>, maxSteps: nat)
    requires Logged(sent, offered, messages, maxSteps)
    ensures Logged(sent, offered, messages + more, maxSteps)
  {
  }

  /** The calls considered so far: their keys, the first of each key run, and
      a tool event for each. */
  ghost predicate Tracked(called: set<string>, considered: seq<ToolCall>, ran: seq<ToolCall>,
                          emitted: seq<AnswerStream.Item>, num: Numbers) {
    called == Keys(considered, num) && ran == FirstCalls(considered, num)
    && AnswerStream.CountTools(emitted) == |considered|
  }

  lemma TrackItems(called: set<string>, considered: seq<ToolCall>, ran: seq<ToolCall>,
                   emitted: seq<AnswerStream.Item>, items: seq<AnswerStream.Item>, num: Numbers)
    requires Tracked(called, considered, ran, emitted, num) && AnswerStream.CountTools(items) == 0
    ensures Tracked(called, considered, ran, emitted + items, num)
  {
    CountToolsJoins(emitted, items);
  }

  lemma TrackCall(called: set<string>, considered: seq<ToolCall>, ran: seq<ToolCall>,
                  emitted: seq<AnswerStream.Item>, call: ToolCall, event: AnswerStream.Item, num: Numbers)
    requires Tracked(called, considered, ran, emitted, num) && event.ToolUse?
    ensures Tracked(called + {Key(call, num)}, considered + [call],
                    if Key(call, num) in called then ran else ran + [call], emitted + [event], num)
  {
    hide Keys, Key;
    KeysGrow(considered, call, num);
    assert (considered + [call])[..|considered|] == considered;
    assert ran + [] == ran;
    AnswerStream.OneMoreItem(emitted, event);
  }

  /** The calls of a round looked at when call `k` raised: one whose arguments
      could not be read was not. */
  function Reached(tools: Tools, calls: seq<ToolCall>, k: nat): nat
    requires k < |calls|
  {
    if tools.unreadable(calls[k].arguments) then k else k + 1
  }

  /** How a run failed: the model raised in the last round, after what it had
      streamed; or, with tools on offer, one of its calls did, after those
      before it had returned. */
  ghost predicate FailedIn(model: Model, tools: Tools, messages: seq<Message>, offer: bool,
                           considered: seq<ToolCall>, before: seq<AnswerStream.Item>,
                           emitted: seq<AnswerStream.Item>, num: Numbers)
  {
    var round := model(messages, offer);
    var calls, items, earlier := StreamedCalls(round.items), StreamedItems(round.items), CallsOf(messages);
    if round.raised then considered == earlier && emitted == before + items
    else offer && exists k | 0 <= k < |calls| ::
           AllReturned(tools, earlier, calls, k, num) && OutcomeOf(tools, earlier + calls[..k], calls[k], num).Raised?
           && considered == earlier + calls[..Reached(tools, calls, k)]
           && emitted == before + (items + Events(tools, earlier, calls, k, num))
  }

  /** Whatever the ending: the calls looked at are those of the rounds before
      and the first of the last one's, and what is emitted is what those rounds
      did, then the last one's items and the events of its first calls. */
  ghost predicate StoppedIn(model: Model, tools: Tools, messages: seq<Message>, offer: bool,
                            considered: seq<ToolCall>, before: seq<AnswerStream.Item>,
                            emitted: seq<AnswerStream.Item>, num: Numbers)
  {
    var round := model(messages, offer);
    var calls, items, earlier := StreamedCalls(round.items), StreamedItems(round.items), CallsOf(messages);
    && (exists k | 0 <= k <= |calls| :: considered == earlier + calls[..k])
    && (exists k | 0 <= k <= |calls| :: emitted == before + (items + Events(tools, earlier, calls, k, num)))
    && (!offer ==> considered == earlier)
  }

  lemma NoneReached(model: Model, tools: Tools, messages: seq<Message>, offer: bool, before: seq<AnswerStream.Item>,
                    num: Numbers)
    ensures var round := model(messages, offer);
            var considered, emitted := CallsOf(messages), before + StreamedItems(round.items);
            StoppedIn(model, tools, messages, offer, considered, before, emitted, num)
            && (round.raised ==> FailedIn(model, tools, messages, offer, considered, before, emitted, num))
  {
    var round := model(messages, offer);
    var calls, items, earlier := StreamedCalls(round.items), StreamedItems(round.items), CallsOf(messages);
    NoAnswersYet(tools, earlier, calls, num);
    hide Events, StreamedCalls, StreamedItems, CallsOf, AllReturned, OutcomeOf;
    assert earlier == earlier + calls[..0];
    assert before + items == before + (items + Events(tools, earlier, calls, 0, num));
  }

  lemma SomeReached(model: Model, tools: Tools, messages: seq<Message>, before: seq<AnswerStream.Item>, k: nat,
                    num: Numbers)
    requires var round := model(messages, true);
             var calls, earlier := StreamedCalls(round.items), CallsOf(messages);
             !round.raised && k < |calls| && AllReturned(tools, earlier, calls, k, num)
             && OutcomeOf(tools, earlier + calls[..k], calls[k], num).Raised?
    ensures var round := model(messages, true);
            var calls, earlier := StreamedCalls(round.items), CallsOf(messages);
            var considered := earlier + calls[..Reached(tools, calls, k)];
            var emitted := before + (StreamedItems(round.items) + Events(tools, earlier, calls, k, num));
            FailedIn(model, tools, messages, true, considered, before, emitted, num)
            && StoppedIn(model, tools, messages, true, considered, before, emitted, num)
  {
    hide Events, StreamedCalls, StreamedItems, CallsOf, AllReturned, OutcomeOf;
    var calls := StreamedCalls(model(messages, true).items);
    assert Reached(tools, calls, k) <= |calls|;
  }

  /** `sent` logs the transcript each model call was given, `offered` whether
      it was offered tools, `ran` the calls that reached a tool, and
      `considered` all the calls looked at. `num` is how Python prints the
      numbers in a call's arguments. */
  method Loop(model: Model, tools: Tools, prompt: string, question: string, maxSteps: nat, num: Numbers)
    returns (ending: Ending, sent: seq<seq<Message>>, offered: seq<bool>,
             considered: seq<ToolCall>, ran: seq<ToolCall>, emitted: seq<AnswerStream.Item>)
    ensures ending != FellThrough
    ensures 1 <= |sent| <= maxSteps + 1 && Logged(sent, offered, sent[|sent| - 1], maxSteps)
    ensures Replays(model, tools, prompt, question, sent[..|sent| - 1], sent[|sent| - 1], num)
    ensures CallsOf(sent[|sent| - 1]) <= considered && ran == FirstCalls(considered, num)
    ensures ending.Answered? ==>
              ending.step == |sent| - 1 && considered == CallsOf(sent[|sent| - 1])
              && AnswerStream.CountTools(emitted) == |considered|
    ensures var n := |sent| - 1;
            StoppedIn(model, tools, sent[n], n < maxSteps, considered, Emitted(model, tools, sent[..n], n, num),
                      emitted, num)
    ensures var n := |sent| - 1;
            var last, before := model(sent[n], n < maxSteps), Emitted(model, tools, sent[..n], n, num);
            if ending.Answered? then
              !last.raised && (StreamedCalls(last.items) == [] || n == maxSteps)
              && emitted == before + StreamedItems(last.items)
            else FailedIn(model, tools, sent[n], n < maxSteps, considered, before, emitted, num)
  {
    hide FailedIn, StoppedIn, OutcomeOf;
    hide Logged, Transcript, CallsOf, Keys, Key, FirstCalls, Results, AnswerStream.CountTools, Concat;
    hide Follows, Replays, Emitted, Answers, Events, AllReturned, StreamedCalls, StreamedItems;
    var messages := [System(prompt), User(question)];
    var called: set<string> := {};
    ending, sent, offered, considered, ran, emitted := FellThrough, [], [], [], [], [];
    NothingYet(prompt, question, maxSteps, num);
    NothingReplayed(model, tools, prompt, question, num);
    for step := 0 to maxSteps + 1
      invariant |sent| == step <= maxSteps
      invariant Logged(sent, offered, messages, maxSteps)
      invariant Transcript(messages) && CallsOf(messages) == considered
      invariant Tracked(called, considered, ran, emitted, num)
      invariant Replays(model, tools, prompt, question, sent, messages, num)
      invariant emitted == Emitted(model, tools, sent, |sent|, num)
    {
      var offer := step < maxSteps;
      LogOne(sent, offered, messages, maxSteps);
      ghost var sentBefore, emittedBefore := sent, emitted;
      sent, offered := sent + [messages], offered + [offer];
      assert sent[..|sent| - 1] == sentBefore;
      var round := model(messages, offer);
      var calls, text, items := ReadStream(round.items);
      TrackItems(called, considered, ran, emitted, items, num);
      emitted := emitted + items;
      NoneReached(model, tools, messages, offer, emittedBefore, num);
      if round.raised { return Failed, sent, offered, considered, ran, emitted; }
      if |calls| == 0 || !offer { return Answered(step), sent, offered, considered, ran, emitted; }
      ghost var before, earlier := messages, considered;
      var turn := Assistant(Concat(text), calls);
      messages := messages + [turn];
      ghost var results: seq<Message> := [];
      NoResultsYet(before, turn);
      NoAnswersYet(tools, earlier, calls, num);
      for k := 0 to |calls|
        invariant messages == before + ([turn] + results) && |results| == k && Results(results, calls)
        invariant results == Answers(tools, earlier, calls, k, num) && AllReturned(tools, earlier, calls, k, num)
        invariant emitted == emittedBefore + (items + Events(tools, earlier, calls, k, num))
        invariant considered == earlier + calls[..k]
        invariant Tracked(called, considered, ran, emitted, num)
      {
        var call := calls[k];
        OutcomeIs(tools, considered, call, num);
        if tools.unreadable(call.arguments) {
          SomeReached(model, tools, before, emittedBefore, k, num);
          return Failed, sent, offered, considered, ran, emitted;
        }
        var key := Key(call, num);
        var result := REFUSED;
        OneMoreCall(earlier, calls, k);
        AnswersOneMore(tools, earlier, calls, k, num);
        ghost var was, wasRan := called, ran;
        if key !in called {
          called := called + {key};
          ran := ran + [call];
          var outcome := tools.run(call, |ran| - 1);
          assert outcome == OutcomeOf(tools, considered, call, num);
          if outcome.Raised? {
            TrackCall(was, considered, wasRan, emitted, call, AnswerStream.ToolUse("", false, ""), num);
            considered := considered + [call];
            SomeReached(model, tools, before, emittedBefore, k, num);
            return Failed, sent, offered, considered, ran, emitted;
          }
          result := outcome.result;
        }
        assert Returned(result) == OutcomeOf(tools, considered, call, num);
        var event := AnswerStream.ToolUse(Label(call.name), result.ok, result.summary);
        TrackCall(was, considered, wasRan, emitted, call, event, num);
        assert was + {key} == called;
        considered := considered + [call];
        OneMoreEvent(emittedBefore, items, Events(tools, earlier, calls, k, num), event);
        emitted := emitted + [event];
        OneMoreResult(before, turn, results, call.id, result.text);
        messages := messages + [ToolResult(call.id, result.text)];
        results := results + [ToolResult(call.id, result.text)];
      }
      assert calls[..|calls|] == calls;
      OneMoreTurn(before, turn, results);
      LogGrows(sent, offered, before, [turn] + results, maxSteps);
      RoundFollows(model, tools, sentBefore, before, num);
      ReplaysOneMore(model, tools, prompt, question, sentBefore, before, messages, num);
    }
    assert false;
  }

  lemma OutcomeIs(tools: Tools, earlier: seq<ToolCall>, call: ToolCall, num: Numbers)
    ensures OutcomeOf(tools, earlier, call, num)
            == if tools.unreadable(call.arguments) then Raised
               else if Key(call, num) in Keys(earlier, num) then Returned(REFUSED)
               else tools.run(call, |FirstCalls(earlier, num)|)
  {
  }

  lemma NothingReplayed(model: Model, tools: Tools, prompt: string, question: string, num: Numbers)
    ensures Replays(model, tools, prompt, question, [], [System(prompt), User(question)], num)
    ensures Emitted(model, tools, [], 0, num) == []
  {
  }

  lemma OneMoreEvent(before: seq<AnswerStream.Item>, items: seq<AnswerStream.Item>, events: seq<AnswerStream.Item>,
                     event: AnswerStream.Item)
    ensures before + (items + events) + [event] == before + (items + (events + [event]))
  {
  }

  lemma OneMoreCall(earlier: seq<ToolCall>, calls: seq<ToolCall>, k: nat)
    requires k < |calls|
    ensures earlier + calls[..k] + [calls[k]] == earlier + calls[..k + 1]
  {
  }

  lemma NoResultsYet(before: seq<Message>, turn: Message)
    requires turn.Assistant?
    ensures before + [turn] == before + ([turn] + []) && Results([], turn.calls)
  {
  }

  lemma OneMoreResult(before: seq<Message>, turn: Message, results: seq<Message>, id: string, text: string)
    requires turn.Assistant? && Results(results, turn.calls) && |results| < |turn.calls|
    requires id == turn.calls[|results|].id
    ensures var r := ToolResult(id, text);
            Results(results + [r], turn.calls)
            && before + ([turn] + results) + [r] == before + ([turn] + (results + [r]))
  {
  }

  lemma NothingYet(prompt: string, question: string, maxSteps: nat, num: Numbers)
    ensures var m := [System(prompt), User(question)];
            Transcript(m) && CallsOf(m) == [] && Logged([], [], m, maxSteps)
    ensures Tracked({}, [], [], [], num)
  {
    var m := [System(prompt), User(question)];
    assert m[1..] == [User(question)] && m[1..][1..] == [] && m[2..] == [];
    assert CallsOf(m[1..]) == [] && [] + CallsOf(m[1..]) == [];
    assert Keys([], num) == {};
  }

  lemma ConsiderOne(considered: seq<ToolCall>, call: ToolCall, num: Numbers)
    ensures Keys(considered + [call], num) == Keys(considered, num) + {Key(call, num)}
    ensures FirstCalls(considered + [call], num)
            == FirstCalls(considered, num) + (if Key(call, num) in Keys(considered, num) then [] else [call])
  {
    KeysGrow(considered, call, num);
    assert (considered + [call])[..|considered|] == considered;
  }

  /** One model call's stream: its tool calls, its text, and the items it
      emits, in order. */
  method ReadStream(streamed: seq<Streamed>)
    returns (calls: seq<ToolCall>, text: seq<string>, items: seq<AnswerStream.Item>)
    ensures calls == StreamedCalls(streamed) && items == StreamedItems(streamed)
    ensures text == AnswerStream.Deltas(items) && AnswerStream.CountTools(items) == 0
  {
    calls, text, items := [], [], [];
    for k := 0 to |streamed|
      invariant calls == StreamedCalls(streamed[..k]) && items == StreamedItems(streamed[..k])
      invariant text == AnswerStream.Deltas(items) && AnswerStream.CountTools(items) == 0
    {
      assert streamed[..k + 1][..k] == streamed[..k];
      match streamed[k] {
        case Calls(call) => calls := calls + [call];
        case item =>
          AnswerStream.OneMoreItem(items, ItemOf(item));
          if item.Delta? { text := text + [item.text]; }
          items := items + [ItemOf(item)];
      }
    }
    assert streamed[..|streamed|] == streamed;
  }

  function ItemOf(s: Streamed): AnswerStream.Item
    requires !s.Calls?
  {
    match s
    case Delta(text) => AnswerStream.Text(text)
    case Used(usage) => AnswerStream.Used(usage)
    case Stop(reason) => AnswerStream.Finish(reason)
  }

  function StreamedCalls(streamed: seq<Streamed>): seq<ToolCall> {
    if streamed == [] then []
    else
      var last := streamed[|streamed| - 1];
      StreamedCalls(streamed[..|streamed| - 1]) + (if last.Calls? then [last.call] else [])
  }

  function StreamedItems(streamed: seq<Streamed>): seq<AnswerStream.Item> {
    if streamed == [] then []
    else
      var last := streamed[|streamed| - 1];
      StreamedItems(streamed[..|streamed| - 1]) + (if last.Calls? then [] else [ItemOf(last)])
  }

  /** What a model call streams besides its tool calls. */
  function NotCalls(streamed: seq<Streamed>): seq<Streamed> {
    if streamed == [] then []
    else
      var last := streamed[|streamed| - 1];
      NotCalls(streamed[..|streamed| - 1]) + (if last.Calls? then [] else [last])
  }

  /** It is emitted as it is, in its order. */
  lemma {:induction false} StreamIsEmitted(streamed: seq<Streamed>)
    ensures var rest, items := NotCalls(streamed), StreamedItems(streamed);
            |items| == |rest|
            && forall i | 0 <= i < |rest| ::
                 match rest[i]
                 case Delta(text) => items[i] == AnswerStream.Text(text)
                 case Used(usage) => items[i] == AnswerStream.Used(usage)
                 case Stop(reason) => items[i] == AnswerStream.Finish(reason)
                 case Calls(_) => false
  {
    if streamed != [] { StreamIsEmitted(streamed[..|streamed| - 1]); }
  }

  lemma {:induction false} CountToolsJoins(a: seq<AnswerStream.Item>, b: seq<AnswerStream.Item>)
    ensures AnswerStream.CountTools(a + b) == AnswerStream.CountTools(a) + AnswerStream.CountTools(b)
  {
    if b == [] {
      assert a + b == a;
    } else {
      assert (a + b)[..|a + b| - 1] == a + b[..|b| - 1];
      CountToolsJoins(a, b[..|b| - 1]);
    }
  }

  // ---- What counts as a repeated call ------------------------------------------------

  /** One name, with a colon after it, begins the other. */
  predicate Confusable(p: string, q: string) {
    p + ":" <= q || q + ":" <= p
  }

  /** A key names its call, unless the names can be confused. */
  lemma KeySplits(p: string, x: string, q: string, y: string)
    requires p + ":" + x == q + ":" + y && |p| <= |q|
    ensures (p == q && x == y) || p + ":" <= q
  {
    var key := p + ":" + x;
    assert key[..|p|] == p && key[|p|] == ':' && key[|p| + 1..] == x;
    assert (q + ":" + y)[..|q|] == q && (q + ":" + y)[|q| + 1..] == y;
    if |p| < |q| { assert q[..|p| + 1] == key[..|p| + 1] == p + ":"; }
  }

  /** A name and what could follow it can be read in two ways. */
  lemma ColonReadsTwoWays(p: string, r: string, num: Numbers)
    ensures var y := [1 as char];
            KeyText(p, r + ":" + y, num) == KeyText(p + ":" + r, y, num)
  {
    var y := [1 as char];
    var x := r + ":" + y;
    Json.RawEndIsMalformed(y);
    Json.RawEndIsMalformed(x);
    assert CanonicalForm(x, num) == x && CanonicalForm(y, num) == y;
    hide CanonicalForm;
    assert p + ":" + x == (p + ":" + r) + ":" + y;
  }

  lemma SharedKeyConfuses(p: string, x: string, q: string, y: string, num: Numbers)
    requires KeyText(p, x, num) == KeyText(q, y, num)
    ensures p == q || Confusable(p, q)
    ensures p == q ==> CanonicalForm(x, num) == CanonicalForm(y, num)
  {
    hide CanonicalForm;
    if |p| <= |q| {
      KeySplits(p, CanonicalForm(x, num), q, CanonicalForm(y, num));
    } else {
      KeySplits(q, CanonicalForm(y, num), p, CanonicalForm(x, num));
    }
  }

  lemma PrefixShares(p: string, q: string, num: Numbers)
    requires p + ":" <= q
    ensures exists x, y :: KeyText(p, x, num) == KeyText(q, y, num)
    ensures exists x, y :: KeyText(q, x, num) == KeyText(p, y, num)
  {
    var r := q[|p| + 1..];
    assert q == p + ":" + r;
    hide *;
    ColonReadsTwoWays(p, r, num);
    var y := [1 as char];
    var x := r + ":" + y;
    assert KeyText(p, x, num) == KeyText(q, y, num);
  }

  /** Calls of two names can share a key exactly when the names can be
      confused. */
  lemma NamesShareKeysExactly(p: string, q: string, num: Numbers)
    requires p != q
    ensures (exists x, y :: KeyText(p, x, num) == KeyText(q, y, num)) <==> Confusable(p, q)
  {
    hide KeyText;
    if x, y :| KeyText(p, x, num) == KeyText(q, y, num) { SharedKeyConfuses(p, x, q, y, num); }
    if p + ":" <= q {
      PrefixShares(p, q, num);
    } else if q + ":" <= p {
      PrefixShares(q, p, num);
    }
  }

  /** Do keys of calls of these names tell exactly whether they are the same
      call, up to the key order, spacing and spelling of its arguments? */
  ghost predicate KeysDecide(p: string, q: string, num: Numbers) {
    forall x, y :: KeyText(p, x, num) == KeyText(q, y, num) <==> p == q && SameArguments(x, y, num)
  }

  lemma KeysDecideExactly(p: string, q: string, num: Numbers)
    requires PrintsNumbers(num)
    ensures KeysDecide(p, q, num) <==> !Confusable(p, q)
  {
    hide KeyText, SameArguments, Confusable, PrintsNumbers;
    if p == q {
      NotItsOwn(p);
      forall x, y ensures KeyText(p, x, num) == KeyText(p, y, num) <==> SameArguments(x, y, num) {
        SameNameDecides(p, x, y, num);
      }
    } else {
      NamesShareKeysExactly(p, q, num);
    }
  }

  lemma NotItsOwn(p: string)
    ensures !Confusable(p, p)
  {
    assert |p + ":"| > |p|;
  }

  lemma SameNameDecides(p: string, x: string, y: string, num: Numbers)
    requires PrintsNumbers(num)
    ensures KeyText(p, x, num) == KeyText(p, y, num) <==> SameArguments(x, y, num)
  {
    hide CanonicalForm, SameArguments;
    CanonicalDecidesSameness(x, y, num);
    if KeyText(p, x, num) == KeyText(p, y, num) { SharedKeyConfuses(p, x, p, y, num); }
  }

  /** Between names that cannot be confused a call is a repeat exactly when an
      earlier one has the same name and the same arguments, whatever their key
      order, spacing and spelling. */
  lemma KeyDecidesRepeat(a: ToolCall, b: ToolCall, num: Numbers)
    requires !Confusable(a.name, b.name) && PrintsNumbers(num)
    ensures Key(a, num) == Key(b, num) <==> a.name == b.name && SameArguments(a.arguments, b.arguments, num)
  {
    hide KeyText, SameArguments, Confusable, PrintsNumbers, KeysDecide;
    KeysDecideExactly(a.name, b.name, num);
    DecidesOne(a.name, a.arguments, b.name, b.arguments, num);
  }

  lemma DecidesOne(p: string, x: string, q: string, y: string, num: Numbers)
    requires KeysDecide(p, q, num)
    ensures KeyText(p, x, num) == KeyText(q, y, num) <==> p == q && SameArguments(x, y, num)
  {
    hide KeyText, SameArguments;
  }

  /** The tools' own names cannot be confused with any name. */
  lemma ToolNamesAreClear(p: string, q: string)
    requires ':' !in p && ':' !in q
    ensures !Confusable(p, q)
  {
    assert (p + ":")[|p|] == ':' && (q + ":")[|q|] == ':';
  }

  /** Of names that can be confused some calls share a key, and the second is
      refused though it never ran. */
  lemma ColonInNameCollides(p: string, q: string, num: Numbers) returns (a: ToolCall, b: ToolCall)
    requires p != q && Confusable(p, q)
    ensures a.name == p && b.name == q && Key(a, num) == Key(b, num) && FirstCalls([a, b], num) == [a]
  {
    NamesShareKeysExactly(p, q, num);
    var x, y :| KeyText(p, x, num) == KeyText(q, y, num);
    a, b := ToolCall("1", p, x), ToolCall("2", q, y);
    ConsiderOne([], a, num);
    ConsiderOne([a], b, num);
    assert [] + [a] == [a] && [a] + [b] == [a, b];
    hide KeyText;
    KeysGrow([], a, num);
  }
}
