/** `answer_events` of app/triage.py: a producer task fills a bounded queue, a
    generator drains it into client events, and a run may interleave them,
    heartbeats, the time limit and a hang-up in any way. */
module AnswerStream {
  import opened Common
  import opened Citations
  import Json

  // ---- What travels ------------------------------------------------------------

  datatype Usage = Usage(promptTokens: nat, completionTokens: nat)

  /** What an answer's source emits. */
  datatype Item =
    | Text(delta: string)
    | Used(usage: Usage)
    | Finish(reason: string)
    | ToolUse(name: string, ok: bool, summary: string)

  /** An exception the source raised: a provider failure with its code, or
      anything else. */
  datatype Failure = LlmError(code: string, message: string) | OtherError

  const TIMED_OUT := LlmError("llm_timeout", "the answer took too long")
  const EMPTY_ANSWER_CODE := "llm_empty_answer"

  /** What the queue holds. */
  datatype Queued = Put(item: Item) | End | Failed(failure: Failure)

  type Number = s: string | Json.IsNumber(s) witness "0"

  datatype ServerEvent =
    | MetaEvent(requestId: string, traceId: Option<string>, model: string, mode: string,
                alertsInContext: Option<nat>, runbooksInContext: nat, retrieval: Option<string>)
    | ToolEvent(name: string, ok: bool, summary: string)
    | TokenEvent(delta: string)
    | DoneEvent(usage: Option<Usage>, ttftMs: Number, durationMs: Number, finishReason: Option<string>,
                citations: seq<Citation>, invalidCitations: seq<string>, modelCalls: nat, toolCalls: nat,
                alertsRead: Option<nat>, runbooksRead: nat)
    | ErrorEvent(code: string, message: string, errorRequestId: string)

  /** What the generator yields. */
  datatype Output = Heartbeat | Event(event: ServerEvent)

  /** The outcome label of the metrics. */
  datatype Outcome = Ok | Truncated | Cancelled | ErrorCode(code: string)

  // ---- The state -----------------------------------------------------------------

  const QUEUE_SIZE := 64

  datatype Producer =
    | NotStarted
    | Running
    | Ending(last: Queued)    // the source has ended; its last item waits for room
    | Stopped(last: Queued)   // ... and is in the queue
    | CancelledTask

  /** Where the generator stands: before its first step, suspended at the
      yield of "meta", waiting for the queue, suspended at a later yield, at
      the yield of the closing event, or over. */
  datatype Phase = Created | AtMeta | Waiting | AtYield | AtClosing | Over

  /** What does not change during an answer. */
  datatype Setting = Setting(requestId: string, traceId: Option<string>, model: string, mode: string,
                             alertsInContext: Option<nat>, sectionsBefore: nat, retrieval: Option<string>,
                             unicode: Unicode)

  datatype State = State(
    phase: Phase, producer: Producer, queue: seq<Queued>,
    usage: Option<Usage>, finish: Option<string>, modelCalls: nat, toolCalls: nat,
    answer: seq<string>, outcome: Outcome, output: seq<Output>,
    gauge: int, counted: seq<Outcome>, countedUsage: Option<Usage>,
    emitted: seq<Item>, taken: seq<Queued>)  // history: what was put and what was got

  const Initial := State(Created, NotStarted, [], None, None, 0, 0, [], Cancelled, [], 0, [], None, [], [])

  /** What is known only when the answer ends: the sections it may cite, the
      alerts read, and the clock. */
  datatype Closing = Closing(sections: seq<Hit>, alertsRead: Option<nat>, ttftMs: Number, durationMs: Number)

  datatype Step =
    | Start                      // the first step of the generator
    | Emit(item: Item)           // the source's item is put in the queue
    | SourceReturns
    | SourceFails(failure: Failure)
    | TimeLimit                  // asyncio.timeout(stream_timeout_s) fires
    | PutLast                    // the terminal item is put in the queue
    | Take(closing: Closing)     // queue.get() returns, and the loop runs on to its next wait
    | HeartbeatFires             // wait_for times out
    | Resume                     // the client asks for the next event
    | HangUp                     // aclose() or cancellation

  function Metadata(c: Setting): ServerEvent {
    MetaEvent(c.requestId, c.traceId, c.model, c.mode, c.alertsInContext, c.sectionsBefore, c.retrieval)
  }

  function AddUsage(usage: Option<Usage>, more: Usage): Usage {
    match usage
    case None => more
    case Some(u) => Usage(u.promptTokens + more.promptTokens, u.completionTokens + more.completionTokens)
  }

  function FailureEvent(c: Setting, failure: Failure): ServerEvent {
    match failure
    case LlmError(code, message) => ErrorEvent(code, message, c.requestId)
    case OtherError => ErrorEvent("internal_error", "internal error", c.requestId)
  }

  function EmptyAnswer(c: Setting, finish: Option<string>): ServerEvent {
    var reason := match finish case None => "None" case Some(r) => r;
    ErrorEvent(EMPTY_ANSWER_CODE, "the model returned no answer (finish: " + reason + ")", c.requestId)
  }

  function Done(c: Setting, deltas: seq<string>, usage: Option<Usage>, finish: Option<string>,
                modelCalls: nat, toolCalls: nat, k: Closing): ServerEvent
  {
    var answer := Concat(deltas);
    DoneEvent(usage, k.ttftMs, k.durationMs, finish,
              Cited(answer, k.sections, c.unicode), Invalid(answer, k.sections, c.unicode),
              modelCalls, toolCalls,
              if k.alertsRead.Some? then k.alertsRead else c.alertsInContext, |k.sections|)
  }

  function OutcomeOf(failure: Failure): Outcome {
    ErrorCode(if failure.LlmError? then failure.code else "internal_error")
  }

  /** The generator's `finally`. */
  function Finally(s: State): State {
    s.(phase := Over,
       producer := if s.producer.Running? || s.producer.Ending? then CancelledTask else s.producer,
       gauge := s.gauge - 1,
       counted := s.counted + [s.outcome],
       countedUsage := s.usage)
  }

  /** What an item of the source does to the generator. */
  function Handle(s: State, item: Item): State {
    match item
    case Used(usage) => s.(usage := Some(AddUsage(s.usage, usage)))
    case Finish(reason) => s.(finish := Some(reason), modelCalls := s.modelCalls + 1)
    case ToolUse(name, ok, summary) =>
      s.(phase := AtYield, toolCalls := s.toolCalls + 1,
         output := s.output + [Event(ToolEvent(name, ok, summary))])
    case Text(delta) =>
      s.(phase := AtYield, answer := s.answer + [delta], output := s.output + [Event(TokenEvent(delta))])
  }

  /** What the terminal item does: the closing event, and the outcome. */
  function Conclude(c: Setting, s: State, last: Queued, k: Closing): State
    requires !last.Put?
  {
    match last
    case End =>
      if s.answer == [] then
        s.(phase := AtClosing, outcome := ErrorCode(EMPTY_ANSWER_CODE),
           output := s.output + [Event(EmptyAnswer(c, s.finish))])
      else
        s.(phase := AtClosing, outcome := if s.finish == Some("length") then Truncated else Ok,
           output := s.output + [Event(Done(c, s.answer, s.usage, s.finish, s.modelCalls, s.toolCalls, k))])
    case Failed(failure) =>
      s.(phase := AtClosing, outcome := OutcomeOf(failure),
         output := s.output + [Event(FailureEvent(c, failure))])
  }

  /** The source's item is in the queue. */
  function Emitted(s: State, item: Item): State {
    s.(queue := s.queue + [Put(item)], emitted := s.emitted + [item])
  }

  /** So is the terminal item. */
  function LastPut(s: State): State
    requires s.producer.Ending?
  {
    s.(queue := s.queue + [s.producer.last], producer := Stopped(s.producer.last))
  }

  /** The head of the queue is taken. */
  function Dequeue(s: State): State
    requires s.queue != []
  {
    s.(queue := s.queue[1..], taken := s.taken + [s.queue[0]])
  }

  function TakeItem(c: Setting, s: State, k: Closing): State
    requires s.queue != []
  {
    match s.queue[0]
    case Put(item) => Handle(Dequeue(s), item)
    case last => Conclude(c, Dequeue(s), last, k)
  }

  predicate Enabled(s: State, step: Step) {
    match step
    case Start => s.phase.Created?
    case Emit(_) => s.producer.Running? && |s.queue| < QUEUE_SIZE
    case SourceReturns => s.producer.Running?
    case SourceFails(_) => s.producer.Running?
    case TimeLimit => s.producer.Running?
    case PutLast => s.producer.Ending? && |s.queue| < QUEUE_SIZE
    case Take(_) => s.phase.Waiting? && s.queue != []
    case HeartbeatFires => s.phase.Waiting?
    case Resume => s.phase.AtMeta? || s.phase.AtYield? || s.phase.AtClosing?
    case HangUp => s.phase != Over
  }

  /** A step that cannot happen in a state leaves it. */
  function Next(c: Setting, s: State, step: Step): State {
    if !Enabled(s, step) then s else
    match step
    case Start => s.(phase := AtMeta, gauge := s.gauge + 1, output := [Event(Metadata(c))])
    case Emit(item) => Emitted(s, item)
    case SourceReturns => s.(producer := Ending(End))
    case SourceFails(failure) => s.(producer := Ending(Failed(failure)))
    case TimeLimit => s.(producer := Ending(Failed(TIMED_OUT)))
    case PutLast => LastPut(s)
    case Take(closing) => TakeItem(c, s, closing)
    case HeartbeatFires => s.(phase := AtYield, output := s.output + [Heartbeat])
    case Resume =>
      if s.phase.AtMeta? then s.(phase := Waiting, producer := Running)
      else if s.phase.AtYield? then s.(phase := Waiting)
      else Finally(s)
    case HangUp =>
      if s.phase.Created? || s.phase.AtMeta? then s.(phase := Over) else Finally(s)
  }

  function Run(c: Setting, s: State, steps: seq<Step>): State {
    if steps == [] then s
    else Next(c, Run(c, s, steps[..|steps| - 1]), steps[|steps| - 1])
  }

  lemma NextEmit(c: Setting, s: State, item: Item)
    requires Enabled(s, Emit(item))
    ensures Next(c, s, Emit(item)) == Emitted(s, item) && s.producer.Running? && |s.queue| < QUEUE_SIZE
  {
    hide Emitted, LastPut, TakeItem, Metadata, Finally;
  }

  lemma NextPutLast(c: Setting, s: State)
    requires Enabled(s, PutLast)
    ensures s.producer.Ending? && |s.queue| < QUEUE_SIZE && Next(c, s, PutLast) == LastPut(s)
  {
    hide Emitted, LastPut, TakeItem, Metadata, Finally;
  }

  lemma NextTake(c: Setting, s: State, k: Closing)
    requires Enabled(s, Take(k))
    ensures s.phase.Waiting? && s.queue != [] && Next(c, s, Take(k)) == TakeItem(c, s, k)
  {
    hide Emitted, LastPut, TakeItem, Metadata, Finally;
  }

  lemma NextResume(c: Setting, s: State)
    requires s.phase.AtYield?
    ensures Next(c, s, Resume) == s.(phase := Waiting)
  {
    hide Emitted, LastPut, TakeItem, Metadata, Finally;
  }

  // ---- The generator and its producer, as the code keeps them -----------------------

  /** The local variables of `answer_events`, its queue and producer, and the
      metrics it touches. Each method is one atomic step. */
  class Answer {
    const setting: Setting
    var phase: Phase
    var producer: Producer
    var queue: seq<Queued>
    var usage: Option<Usage>
    var finish: Option<string>
    var modelCalls: nat
    var toolCalls: nat
    var answer: seq<string>
    var outcome: Outcome
    var output: seq<Output>
    var gauge: int
    var counted: seq<Outcome>
    var countedUsage: Option<Usage>
    ghost var emitted: seq<Item>
    ghost var taken: seq<Queued>

    ghost function Snapshot(): State
      reads this
    {
      State(phase, producer, queue, usage, finish, modelCalls, toolCalls, answer, outcome, output,
            gauge, counted, countedUsage, emitted, taken)
    }

    constructor (c: Setting)
      ensures setting == c && Snapshot() == Initial
    {
      setting := c;
      phase, producer, queue := Created, NotStarted, [];
      usage, finish, modelCalls, toolCalls, answer := None, None, 0, 0, [];
      outcome, output, gauge, counted, countedUsage := Cancelled, [], 0, [], None;
      emitted, taken := [], [];
    }

    method Begin()
      requires Enabled(Snapshot(), Start)
      modifies this
      ensures Snapshot() == Next(setting, old(Snapshot()), Start)
    {
      gauge := gauge + 1;
      output := [Event(Metadata(setting))];
      phase := AtMeta;
    }

    /** `queue.put` of an item, called by the source. */
    method PutItem(item: Item)
      requires Enabled(Snapshot(), Emit(item))
      modifies this
      ensures Snapshot() == Next(setting, old(Snapshot()), Emit(item))
    {
      queue := queue + [Put(item)];
      emitted := emitted + [item];
    }

    /** The source ends: by returning, by raising, or at the time limit. */
    method SourceEnds(step: Step)
      requires (step.SourceReturns? || step.SourceFails? || step.TimeLimit?) && Enabled(Snapshot(), step)
      modifies this
      ensures Snapshot() == Next(setting, old(Snapshot()), step)
      ensures step.TimeLimit? ==>
                producer == Ending(Failed(LlmError("llm_timeout", "the answer took too long")))
    {
      producer := Ending(match step
                         case SourceFails(failure) => Failed(failure)
                         case TimeLimit => Failed(TIMED_OUT)
                         case _ => End);
    }

    method PutTerminal()
      requires Enabled(Snapshot(), PutLast)
      modifies this
      ensures Snapshot() == Next(setting, old(Snapshot()), PutLast)
    {
      queue := queue + [producer.last];
      producer := Stopped(producer.last);
    }

    method GetItem(closing: Closing)
      requires Enabled(Snapshot(), Take(closing))
      modifies this
      ensures Snapshot() == Next(setting, old(Snapshot()), Take(closing))
    {
      ghost var s := Snapshot();
      NextTake(setting, s, closing);
      hide Next, Enabled, Handle, Done, EmptyAnswer, FailureEvent;
      var item := queue[0];
      queue := queue[1..];
      taken := taken + [item];
      assert Snapshot() == Dequeue(s);
      match item {
        case Put(i) => HandleItem(i);
        case End => FinishAnswer(closing);
        case Failed(failure) =>
          outcome := OutcomeOf(failure);
          output := output + [Event(FailureEvent(setting, failure))];
          phase := AtClosing;
      }
    }

    method HandleItem(item: Item)
      modifies this
      ensures Snapshot() == Handle(old(Snapshot()), item)
      ensures item.Used? ==>
                usage.Some?
                && usage.value.promptTokens
                   == item.usage.promptTokens + (if old(usage).Some? then old(usage).value.promptTokens else 0)
                && usage.value.completionTokens
                   == item.usage.completionTokens + (if old(usage).Some? then old(usage).value.completionTokens else 0)
    {
      match item {
        case Used(more) => usage := Some(AddUsage(usage, more));
        case Finish(reason) => finish, modelCalls := Some(reason), modelCalls + 1;
        case ToolUse(name, ok, summary) =>
          toolCalls := toolCalls + 1;
          output := output + [Event(ToolEvent(name, ok, summary))];
          phase := AtYield;
        case Text(delta) =>
          answer := answer + [delta];
          output := output + [Event(TokenEvent(delta))];
          phase := AtYield;
      }
    }

    /** After the loop: the source has ended by itself. */
    method FinishAnswer(closing: Closing)
      modifies this
      ensures Snapshot() == Conclude(setting, old(Snapshot()), End, closing)
    {
      hide EmptyAnswer, FailureEvent, Concat;
      if |answer| == 0 {
        outcome := ErrorCode(EMPTY_ANSWER_CODE);
        output := output + [Event(EmptyAnswer(setting, finish))];
      } else {
        var cited, invalid := Citations.Citations(Concat(answer), closing.sections, setting.unicode);
        var alertsRead := if closing.alertsRead.Some? then closing.alertsRead else setting.alertsInContext;
        var event := DoneEvent(usage, closing.ttftMs, closing.durationMs, finish, cited, invalid, modelCalls, toolCalls,
                               alertsRead, |closing.sections|);
        assert event == Done(setting, answer, usage, finish, modelCalls, toolCalls, closing);
        hide Done;
        outcome := if finish == Some("length") then Truncated else Ok;
        output := output + [Event(event)];
      }
      phase := AtClosing;
    }

    method SendHeartbeat()
      requires Enabled(Snapshot(), HeartbeatFires)
      modifies this
      ensures Snapshot() == Next(setting, old(Snapshot()), HeartbeatFires)
    {
      output := output + [Heartbeat];
      phase := AtYield;
    }

    method Continue()
      requires Enabled(Snapshot(), Resume)
      modifies this
      ensures Snapshot() == Next(setting, old(Snapshot()), Resume)
    {
      if phase == AtMeta {
        producer := Running;
        phase := Waiting;
      } else if phase == AtYield {
        phase := Waiting;
      } else {
        CleanUp();
      }
    }

    method Close()
      requires Enabled(Snapshot(), HangUp)
      modifies this
      ensures Snapshot() == Next(setting, old(Snapshot()), HangUp)
    {
      if phase == Created || phase == AtMeta {
        phase := Over;
      } else {
        CleanUp();
      }
    }

    method CleanUp()
      modifies this
      ensures Snapshot() == Finally(old(Snapshot()))
    {
      if producer.Running? || producer.Ending? { producer := CancelledTask; }
      gauge := gauge - 1;
      counted := counted + [outcome];
      countedUsage := usage;
      phase := Over;
    }
  }

  // ---- What the items taken amount to: the reference ----------------------------------

  function Puts(items: seq<Item>): seq<Queued> {
    seq(|items|, i requires 0 <= i < |items| => Put(items[i]))
  }

  function Deltas(items: seq<Item>): seq<string> {
    if items == [] then []
    else
      var last := items[|items| - 1];
      Deltas(items[..|items| - 1]) + (if last.Text? then [last.delta] else [])
  }

  function TotalUsage(items: seq<Item>): Option<Usage> {
    if items == [] then None
    else
      var last := items[|items| - 1];
      var before := TotalUsage(items[..|items| - 1]);
      if last.Used? then Some(AddUsage(before, last.usage)) else before
  }

  /** The tokens of all the usage among the items. */
  function PromptTokens(items: seq<Item>): nat {
    if items == [] then 0
    else
      var last := items[|items| - 1];
      PromptTokens(items[..|items| - 1]) + (if last.Used? then last.usage.promptTokens else 0)
  }

  function CompletionTokens(items: seq<Item>): nat {
    if items == [] then 0
    else
      var last := items[|items| - 1];
      CompletionTokens(items[..|items| - 1]) + (if last.Used? then last.usage.completionTokens else 0)
  }

  /** The sum of all the usage among the items, or None if there is none. */
  ghost predicate Sums(usage: Option<Usage>, items: seq<Item>) {
    && (usage.None? <==> forall i | 0 <= i < |items| :: !items[i].Used?)
    && (usage.Some? ==>
          usage.value.promptTokens == PromptTokens(items) && usage.value.completionTokens == CompletionTokens(items))
  }

  lemma {:induction false} TotalSums(items: seq<Item>)
    ensures Sums(TotalUsage(items), items)
    ensures TotalUsage(items).None? ==> PromptTokens(items) == 0 && CompletionTokens(items) == 0
  {
    if items != [] {
      var n := |items| - 1;
      TotalSums(items[..n]);
      assert forall i | 0 <= i < n :: items[i] == items[..n][i];
    }
  }

  function LastFinish(items: seq<Item>): Option<string> {
    if items == [] then None
    else
      var last := items[|items| - 1];
      if last.Finish? then Some(last.reason) else LastFinish(items[..|items| - 1])
  }

  function CountFinish(items: seq<Item>): nat {
    if items == [] then 0
    else CountFinish(items[..|items| - 1]) + (if items[|items| - 1].Finish? then 1 else 0)
  }

  function CountTools(items: seq<Item>): nat {
    if items == [] then 0
    else CountTools(items[..|items| - 1]) + (if items[|items| - 1].ToolUse? then 1 else 0)
  }

  /** The events the items show the client, in order. */
  function Shown(items: seq<Item>): seq<Output> {
    if items == [] then []
    else
      var last := items[|items| - 1];
      Shown(items[..|items| - 1])
      + (match last
         case Text(delta) => [Event(TokenEvent(delta))]
         case ToolUse(name, ok, summary) => [Event(ToolEvent(name, ok, summary))]
         case _ => [])
  }

  function WithoutHeartbeats(output: seq<Output>): seq<Output> {
    if output == [] then []
    else
      var last := output[|output| - 1];
      WithoutHeartbeats(output[..|output| - 1]) + (if last.Heartbeat? then [] else [last])
  }

  // ---- The invariant of every run ---------------------------------------------------

  ghost predicate IsClosing(e: ServerEvent) {
    e.DoneEvent? || e.ErrorEvent?
  }

  /** The items the generator has taken, without the terminal one. */
  function TakenItems(s: State): nat {
    if s.taken != [] && !s.taken[|s.taken| - 1].Put? then |s.taken| - 1 else |s.taken|
  }

  /** Has the terminal item been taken? */
  predicate Terminated(s: State) {
    s.taken != [] && !s.taken[|s.taken| - 1].Put?
  }

  ghost predicate QueueInv(s: State) {
    && |s.queue| <= QUEUE_SIZE
    && s.taken + s.queue == Puts(s.emitted) + (if s.producer.Stopped? then [s.producer.last] else [])
    && ((s.producer.Ending? || s.producer.Stopped?) ==> !s.producer.last.Put?)
    && TakenItems(s) <= |s.emitted|
  }

  ghost predicate TotalsInv(s: State) {
    TakenItems(s) <= |s.emitted| &&
    var items := s.emitted[..TakenItems(s)];
    && s.answer == Deltas(items)
    && s.usage == TotalUsage(items)
    && s.finish == LastFinish(items)
    && s.modelCalls == CountFinish(items)
    && s.toolCalls == CountTools(items)
  }

  /** The closing event an answer ended with. */
  ghost predicate ClosedBy(c: Setting, s: State, e: ServerEvent) {
    Terminated(s) &&
    match s.taken[|s.taken| - 1]
    case End =>
      if s.answer == [] then e == EmptyAnswer(c, s.finish) && s.outcome == ErrorCode(EMPTY_ANSWER_CODE)
      else (exists k: Closing :: e == Done(c, s.answer, s.usage, s.finish, s.modelCalls, s.toolCalls, k))
           && s.outcome == if s.finish == Some("length") then Truncated else Ok
    case Failed(failure) => e == FailureEvent(c, failure) && s.outcome == OutcomeOf(failure)
    case _ => false
  }

  ghost predicate OutputInv(c: Setting, s: State) {
    && TakenItems(s) <= |s.emitted|
    && (s.phase.Created? ==> s.output == [] && !Terminated(s))
    && (s.output != [] ==> s.output[0] == Event(Metadata(c)))
    && (s.output == [] ==> s.taken == [] && s.emitted == [])
    && (s.output != [] && !Terminated(s) ==>
          WithoutHeartbeats(s.output) == [Event(Metadata(c))] + Shown(s.emitted[..TakenItems(s)])
          && s.outcome == Cancelled)
    && (s.output != [] && Terminated(s) ==>
          var last := s.output[|s.output| - 1];
          last.Event? && ClosedBy(c, s, last.event) &&
          WithoutHeartbeats(s.output)
          == [Event(Metadata(c))] + Shown(s.emitted[..TakenItems(s)]) + [last])
  }

  ghost predicate PhaseInv(s: State) {
    && (s.phase.Created? || s.phase.AtMeta? ==> s.producer.NotStarted? && s.taken == [] && s.queue == [])
    && (s.phase.Created? ==>
          s.gauge == 0 && s.counted == [] && s.output == [] && s.emitted == [] && s.outcome == Cancelled)
    && (s.phase.AtMeta? ==> s.gauge == 1 && s.counted == [] && |s.output| == 1)
    && (s.phase.Waiting? || s.phase.AtYield? ==> !Terminated(s))
    && (s.phase.Waiting? || s.phase.AtYield? || s.phase.AtClosing? ==>
          s.gauge == 1 && s.counted == [] && s.output != [] && !s.producer.NotStarted?
          && !s.producer.CancelledTask?)
    && (s.phase.AtClosing? ==> Terminated(s))
    && (s.phase.Over? ==>
          if s.producer.NotStarted? then
            // Hung up before or at "meta": see HangUpAtMetaLeaks.
            s.counted == [] && s.taken == [] && s.gauge == |s.output| && |s.output| <= 1
          else
            s.gauge == 0 && s.counted == [s.outcome] && s.countedUsage == s.usage && s.output != []
            && (s.producer.CancelledTask? || s.producer.Stopped?))
  }

  ghost predicate Inv(c: Setting, s: State) {
    QueueInv(s) && TotalsInv(s) && PhaseInv(s) && OutputInv(c, s)
  }

  // ---- Every step keeps the invariant -------------------------------------------------

  lemma OneMoreItem(items: seq<Item>, item: Item)
    ensures Puts(items + [item]) == Puts(items) + [Put(item)]
    ensures Deltas(items + [item]) == Deltas(items) + (if item.Text? then [item.delta] else [])
    ensures TotalUsage(items + [item])
            == if item.Used? then Some(AddUsage(TotalUsage(items), item.usage)) else TotalUsage(items)
    ensures LastFinish(items + [item]) == if item.Finish? then Some(item.reason) else LastFinish(items)
    ensures CountFinish(items + [item]) == CountFinish(items) + (if item.Finish? then 1 else 0)
    ensures CountTools(items + [item]) == CountTools(items) + (if item.ToolUse? then 1 else 0)
    ensures Shown(items + [item])
            == Shown(items) + (match item
                               case Text(delta) => [Event(TokenEvent(delta))]
                               case ToolUse(name, ok, summary) => [Event(ToolEvent(name, ok, summary))]
                               case _ => [])
  {
    assert (items + [item])[..|items|] == items;
  }

  lemma OneMoreOutput(output: seq<Output>, o: Output)
    ensures WithoutHeartbeats(output + [o]) == WithoutHeartbeats(output) + (if o.Heartbeat? then [] else [o])
  {
    assert (output + [o])[..|output|] == output;
  }

  lemma NoTerminalYet(s: State)
    requires QueueInv(s) && !s.producer.Stopped?
    ensures !Terminated(s) && TakenItems(s) == |s.taken| && |s.taken| <= |s.emitted|
  {
    var all := s.taken + s.queue;
    assert |all| == |s.emitted|;
    if s.taken != [] {
      assert s.taken[|s.taken| - 1] == all[|s.taken| - 1];
    }
  }

  /** What the head of the queue is: the next item emitted, or the terminal
      item after them all. */
  lemma HeadOfQueue(s: State)
    requires QueueInv(s) && s.queue != [] && !Terminated(s)
    ensures s.queue[0].Put? ==> |s.taken| < |s.emitted| && s.queue[0].item == s.emitted[|s.taken|]
    ensures !s.queue[0].Put? ==>
              |s.taken| == |s.emitted| && |s.queue| == 1 && s.producer.Stopped? && s.queue[0] == s.producer.last
  {
    var all := s.taken + s.queue;
    assert s.queue[0] == all[|s.taken|];
  }

  lemma EmitKeepsQueue(s: State, item: Item)
    requires QueueInv(s) && PhaseInv(s) && s.producer.Running? && |s.queue| < QUEUE_SIZE
    ensures QueueInv(Emitted(s, item)) && PhaseInv(Emitted(s, item))
  {
    var s' := Emitted(s, item);
    NoTerminalYet(s);
    OneMoreItem(s.emitted, item);
    hide Puts;
    assert s'.taken + s'.queue == (s.taken + s.queue) + [Put(item)];
  }

  lemma EmitKeepsOutput(c: Setting, s: State, item: Item)
    requires TotalsInv(s) && OutputInv(c, s) && s.output != []
    ensures TotalsInv(Emitted(s, item)) && OutputInv(c, Emitted(s, item))
  {
    hide Deltas, TotalUsage, LastFinish, CountFinish, CountTools, Shown, WithoutHeartbeats;
    hide Done, EmptyAnswer, FailureEvent;
    assert Emitted(s, item).emitted[..TakenItems(s)] == s.emitted[..TakenItems(s)];
  }

  lemma HasOutput(s: State)
    requires PhaseInv(s) && s.producer.Running?
    ensures s.output != []
  {
  }

  lemma EmitKeeps(c: Setting, s: State, item: Item)
    requires Inv(c, s) && Enabled(s, Emit(item))
    ensures Inv(c, Next(c, s, Emit(item)))
  {
    NextEmit(c, s, item);
    hide QueueInv, TotalsInv, PhaseInv, OutputInv, Emitted, Next;
    HasOutput(s);
    EmitKeepsQueue(s, item);
    EmitKeepsOutput(c, s, item);
  }

  lemma DequeueFacts(s: State)
    requires QueueInv(s) && s.queue != [] && !Terminated(s)
    ensures var d := Dequeue(s);
            d.taken + d.queue == s.taken + s.queue
            && |d.taken| == |s.taken| + 1 && d.taken[|s.taken|] == s.queue[0]
            && TakenItems(s) == |s.taken|
            && TakenItems(d) == (if s.queue[0].Put? then |s.taken| + 1 else |s.taken|) <= |s.emitted|
  {
    HeadOfQueue(s);
    var d := Dequeue(s);
    assert d.taken[|s.taken|] == s.queue[0];
  }

  /** The items taken, with the head of the queue. */
  lemma OneMoreTaken(s: State)
    requires QueueInv(s) && s.queue != [] && !Terminated(s) && s.queue[0].Put?
    ensures |s.taken| < |s.emitted|
    ensures s.emitted[..|s.taken| + 1] == s.emitted[..|s.taken|] + [s.queue[0].item]
  {
    HeadOfQueue(s);
  }

  lemma HandleKeepsQueue(c: Setting, s: State)
    requires Inv(c, s) && s.phase.Waiting? && s.queue != [] && s.queue[0].Put?
    ensures QueueInv(Handle(Dequeue(s), s.queue[0].item))
  {
    hide TotalsInv, OutputInv;
    DequeueFacts(s);
  }

  lemma HandleKeepsTotals(c: Setting, s: State)
    requires Inv(c, s) && s.phase.Waiting? && s.queue != [] && s.queue[0].Put?
    ensures TotalsInv(Handle(Dequeue(s), s.queue[0].item))
  {
    hide OutputInv;
    DequeueFacts(s);
    OneMoreTaken(s);
    OneMoreItem(s.emitted[..|s.taken|], s.queue[0].item);
    hide QueueInv, Deltas, TotalUsage, LastFinish, CountFinish, CountTools, Shown, Puts, AddUsage;
  }

  lemma HandleKeepsPhase(c: Setting, s: State)
    requires Inv(c, s) && s.phase.Waiting? && s.queue != [] && s.queue[0].Put?
    ensures PhaseInv(Handle(Dequeue(s), s.queue[0].item))
  {
    hide TotalsInv, OutputInv;
    DequeueFacts(s);
  }

  lemma HandleShows(s: State, item: Item)
    ensures var s' := Handle(s, item);
            WithoutHeartbeats(s'.output)
            == WithoutHeartbeats(s.output)
               + (match item
                  case Text(delta) => [Event(TokenEvent(delta))]
                  case ToolUse(name, ok, summary) => [Event(ToolEvent(name, ok, summary))]
                  case _ => [])
    ensures s.output != [] ==> Handle(s, item).output != [] && Handle(s, item).output[0] == s.output[0]
  {
    if item.Text? {
      OneMoreOutput(s.output, Event(TokenEvent(item.delta)));
    } else if item.ToolUse? {
      OneMoreOutput(s.output, Event(ToolEvent(item.name, item.ok, item.summary)));
    } else {
      assert WithoutHeartbeats(s.output) + [] == WithoutHeartbeats(s.output);
    }
    hide WithoutHeartbeats;
  }

  lemma HandleKeepsOutput(c: Setting, s: State)
    requires Inv(c, s) && s.phase.Waiting? && s.queue != [] && s.queue[0].Put?
    ensures OutputInv(c, Handle(Dequeue(s), s.queue[0].item))
  {
    var item := s.queue[0].item;
    DequeueFacts(s);
    OneMoreTaken(s);
    OneMoreItem(s.emitted[..|s.taken|], item);
    assert s.output != [] && !Terminated(s);
    hide TotalsInv, QueueInv, PhaseInv, ClosedBy, Shown, WithoutHeartbeats;
    HandleShows(Dequeue(s), item);
  }

  /** Concluding changes phase, outcome and output only. */
  lemma ConcludeFacts(c: Setting, s: State, last: Queued, k: Closing)
    requires !last.Put?
    ensures var s' := Conclude(c, s, last, k);
            s' == s.(phase := AtClosing, outcome := s'.outcome, output := s'.output)
  {
    hide Done, EmptyAnswer, FailureEvent, OutcomeOf;
  }

  lemma TerminalKeepsQueue(s: State)
    requires QueueInv(s) && TotalsInv(s) && !Terminated(s) && s.queue != [] && !s.queue[0].Put?
    ensures QueueInv(Dequeue(s)) && TotalsInv(Dequeue(s))
  {
    DequeueFacts(s);
    hide Deltas, TotalUsage, LastFinish, CountFinish, CountTools, Puts;
  }

  lemma QueueKept(s: State, s': State)
    requires QueueInv(s) && TotalsInv(s) && s' == s.(phase := s'.phase, outcome := s'.outcome, output := s'.output)
    ensures QueueInv(s') && TotalsInv(s')
  {
    hide Deltas, TotalUsage, LastFinish, CountFinish, CountTools, Puts;
  }

  lemma ConcludeKeepsQueue(c: Setting, s: State, k: Closing)
    requires Inv(c, s) && s.phase.Waiting? && s.queue != [] && !s.queue[0].Put?
    ensures var s' := Conclude(c, Dequeue(s), s.queue[0], k); QueueInv(s') && TotalsInv(s')
  {
    assert !Terminated(s);
    ConcludeFacts(c, Dequeue(s), s.queue[0], k);
    hide OutputInv, PhaseInv, QueueInv, TotalsInv, Dequeue, Conclude, Terminated;
    TerminalKeepsQueue(s);
    QueueKept(Dequeue(s), Conclude(c, Dequeue(s), s.queue[0], k));
  }

  lemma ConcludeKeepsPhase(c: Setting, s: State, k: Closing)
    requires Inv(c, s) && s.phase.Waiting? && s.queue != [] && !s.queue[0].Put?
    ensures PhaseInv(Conclude(c, Dequeue(s), s.queue[0], k))
  {
    hide OutputInv, TotalsInv;
    DequeueFacts(s);
    hide Puts, Done, EmptyAnswer, FailureEvent;
  }

  lemma ConcludeCloses(c: Setting, s: State, last: Queued, k: Closing) returns (e: ServerEvent)
    requires !last.Put? && s.taken != [] && s.taken[|s.taken| - 1] == last
    ensures var s' := Conclude(c, s, last, k);
            s'.output == s.output + [Event(e)] && ClosedBy(c, s', e)
            && s'.taken == s.taken && s'.emitted == s.emitted && s'.phase.AtClosing?
  {
    e := if last.Failed? then FailureEvent(c, last.failure)
         else if s.answer == [] then EmptyAnswer(c, s.finish)
         else Done(c, s.answer, s.usage, s.finish, s.modelCalls, s.toolCalls, k);
    hide FailureEvent, EmptyAnswer, Done;
  }

  lemma ConcludeKeepsOutput(c: Setting, s: State, k: Closing)
    requires Inv(c, s) && s.phase.Waiting? && s.queue != [] && !s.queue[0].Put?
    ensures OutputInv(c, Conclude(c, Dequeue(s), s.queue[0], k))
  {
    DequeueFacts(s);
    assert s.output != [];
    var e := ConcludeCloses(c, Dequeue(s), s.queue[0], k);
    OneMoreOutput(s.output, Event(e));
    hide TotalsInv, QueueInv, PhaseInv, Conclude, ClosedBy, WithoutHeartbeats, Shown;
  }

  lemma TakeKeeps(c: Setting, s: State, k: Closing)
    requires Inv(c, s) && Enabled(s, Take(k))
    ensures Inv(c, Next(c, s, Take(k)))
  {
    NextTake(c, s, k);
    if s.queue[0].Put? {
      HandleKeepsQueue(c, s);
      HandleKeepsTotals(c, s);
      HandleKeepsPhase(c, s);
      HandleKeepsOutput(c, s);
    } else {
      ConcludeKeepsQueue(c, s, k);
      ConcludeKeepsPhase(c, s, k);
      ConcludeKeepsOutput(c, s, k);
    }
    hide QueueInv, TotalsInv, PhaseInv, OutputInv, Handle, Conclude, Dequeue, Next, Enabled;
  }

  lemma PutLastKeepsQueue(s: State)
    requires QueueInv(s) && PhaseInv(s) && s.producer.Ending? && |s.queue| < QUEUE_SIZE
    ensures QueueInv(LastPut(s)) && PhaseInv(LastPut(s))
  {
    hide Puts;
    var s' := LastPut(s);
    assert s'.taken + s'.queue == (s.taken + s.queue) + [s.producer.last];
  }

  lemma PutLastKeepsOutput(c: Setting, s: State)
    requires TotalsInv(s) && OutputInv(c, s) && s.producer.Ending?
    ensures TotalsInv(LastPut(s)) && OutputInv(c, LastPut(s))
  {
    hide Deltas, TotalUsage, LastFinish, CountFinish, CountTools, Shown, WithoutHeartbeats, Done, EmptyAnswer;
  }

  lemma PutLastKeeps(c: Setting, s: State)
    requires Inv(c, s) && Enabled(s, PutLast)
    ensures Inv(c, Next(c, s, PutLast))
  {
    NextPutLast(c, s);
    hide QueueInv, TotalsInv, PhaseInv, OutputInv, Next, LastPut;
    PutLastKeepsQueue(s);
    PutLastKeepsOutput(c, s);
  }

  lemma FinallyKeepsQueue(s: State)
    requires QueueInv(s) && TotalsInv(s) && PhaseInv(s) && (s.phase.Waiting? || s.phase.AtYield? || s.phase.AtClosing?)
    ensures QueueInv(Finally(s)) && TotalsInv(Finally(s)) && PhaseInv(Finally(s))
  {
    hide Deltas, TotalUsage, LastFinish, CountFinish, CountTools, Puts;
  }

  lemma FinallyKeepsOutput(c: Setting, s: State)
    requires OutputInv(c, s)
    ensures OutputInv(c, Finally(s))
  {
    hide Shown, WithoutHeartbeats, Done, EmptyAnswer, FailureEvent;
  }

  lemma FinallyKeeps(c: Setting, s: State)
    requires Inv(c, s) && (s.phase.Waiting? || s.phase.AtYield? || s.phase.AtClosing?)
    ensures Inv(c, Finally(s))
  {
    hide QueueInv, TotalsInv, PhaseInv, OutputInv, Finally;
    FinallyKeepsQueue(s);
    FinallyKeepsOutput(c, s);
  }

  lemma HeartbeatKeeps(c: Setting, s: State)
    requires Inv(c, s) && Enabled(s, HeartbeatFires)
    ensures Inv(c, Next(c, s, HeartbeatFires))
  {
    OneMoreOutput(s.output, Heartbeat);
  }

  lemma StartKeeps(c: Setting, s: State)
    requires Inv(c, s) && Enabled(s, Start)
    ensures Inv(c, Next(c, s, Start))
  {
    OneMoreOutput([], Event(Metadata(c)));
    assert [] + [Event(Metadata(c))] == [Event(Metadata(c))];
  }

  /** The source ends, or the client asks for more: only the producer or the
      phase changes. */
  ghost predicate Quiet(s: State, step: Step) {
    step.SourceReturns? || step.SourceFails? || step.TimeLimit?
    || (step.Resume? && !s.phase.AtClosing?)
    || (step.HangUp? && (s.phase.Created? || s.phase.AtMeta?))
  }

  lemma QuietStepKeeps(c: Setting, s: State, step: Step)
    requires Inv(c, s) && Enabled(s, step)
    requires Quiet(s, step)
    ensures Inv(c, Next(c, s, step))
  {
    hide OutputInv, QueueInv, TotalsInv, PhaseInv, Next, Enabled;
    QuietStepKeepsOutput(c, s, step);
    QuietStepKeepsQueue(c, s, step);
    QuietStepKeepsPhase(c, s, step);
  }

  lemma QuietStepIs(c: Setting, s: State, step: Step)
    requires Enabled(s, step) && Quiet(s, step)
    ensures var s' := Next(c, s, step);
            && s' == s.(phase := s'.phase, producer := s'.producer)
            && (if step.Resume? then
                  s'.phase == Waiting && s'.producer == if s.phase.AtMeta? then Running else s.producer
                else if step.HangUp? then s'.phase == Over && s'.producer == s.producer
                else s'.phase == s.phase && s.producer.Running? && s'.producer.Ending? && !s'.producer.last.Put?)
  {
    hide TakeItem, Metadata, Finally, Emitted, LastPut;
  }

  lemma QuietStepKeepsQueue(c: Setting, s: State, step: Step)
    requires QueueInv(s) && TotalsInv(s) && PhaseInv(s) && Enabled(s, step)
    requires Quiet(s, step)
    ensures QueueInv(Next(c, s, step)) && TotalsInv(Next(c, s, step))
  {
    QuietStepIs(c, s, step);
    hide Next, Deltas, TotalUsage, LastFinish, CountFinish, CountTools, Puts;
  }

  lemma QuietStepKeepsPhase(c: Setting, s: State, step: Step)
    requires PhaseInv(s) && Enabled(s, step)
    requires Quiet(s, step)
    ensures PhaseInv(Next(c, s, step))
  {
    QuietStepIs(c, s, step);
    hide Next;
  }

  /** Phase and producer mean nothing to the output, once there is some. */
  lemma OutputKept(c: Setting, s: State, s': State)
    requires OutputInv(c, s) && s' == s.(phase := s'.phase, producer := s'.producer)
    requires s'.phase.Created? ==> s.phase.Created?
    ensures OutputInv(c, s')
  {
    hide Shown, WithoutHeartbeats, Done, EmptyAnswer, FailureEvent;
  }

  lemma QuietStepKeepsOutput(c: Setting, s: State, step: Step)
    requires PhaseInv(s) && OutputInv(c, s) && Enabled(s, step)
    requires Quiet(s, step)
    ensures OutputInv(c, Next(c, s, step))
  {
    QuietStepIs(c, s, step);
    hide Next, OutputInv;
    OutputKept(c, s, Next(c, s, step));
  }

  lemma StepKeeps(c: Setting, s: State, step: Step)
    requires Inv(c, s)
    ensures Inv(c, Next(c, s, step))
  {
    if Enabled(s, step) {
      if step.Start? { StartKeeps(c, s); }
      else if step.Emit? { EmitKeeps(c, s, step.item); }
      else if step.PutLast? { PutLastKeeps(c, s); }
      else if step.Take? { TakeKeeps(c, s, step.closing); }
      else if step.HeartbeatFires? { HeartbeatKeeps(c, s); }
      else if (step.Resume? && s.phase.AtClosing?) || (step.HangUp? && !s.phase.Created? && !s.phase.AtMeta?) {
        PhaseAtFinally(c, s);
        FinallyKeeps(c, s);
      } else {
        QuietStepKeeps(c, s, step);
      }
      hide Inv;
    }
  }

  lemma PhaseAtFinally(c: Setting, s: State)
    requires s.phase != Over && !s.phase.Created? && !s.phase.AtMeta?
    ensures s.phase.Waiting? || s.phase.AtYield? || s.phase.AtClosing?
  {
  }

  lemma {:induction false} Reachable(c: Setting, steps: seq<Step>)
    ensures Inv(c, Run(c, Initial, steps))
  {
    if steps != [] {
      Reachable(c, steps[..|steps| - 1]);
      StepKeeps(c, Run(c, Initial, steps[..|steps| - 1]), steps[|steps| - 1]);
    }
  }

  // ---- What every run guarantees ----------------------------------------------------------

  ghost predicate Middle(o: Output) {
    o.Heartbeat? || o.event.TokenEvent? || o.event.ToolEvent?
  }

  lemma {:induction false} ShownAreMiddle(items: seq<Item>)
    ensures forall i | 0 <= i < |Shown(items)| :: Middle(Shown(items)[i])
  {
    if items != [] { ShownAreMiddle(items[..|items| - 1]); }
  }

  /** `meta` first, at most one closing event, and only as the very last. */
  ghost predicate InOrder(c: Setting, output: seq<Output>) {
    output != [] ==>
      output[0] == Event(Metadata(c))
      && (forall i | 1 <= i < |output| - 1 :: Middle(output[i]))
      && (|output| > 1 ==> Middle(output[|output| - 1]) || IsClosing(output[|output| - 1].event))
  }

  lemma {:induction false} WithoutHeartbeatsOrder(output: seq<Output>)
    ensures forall i | 0 <= i < |output| && output[i].Event? :: output[i] in WithoutHeartbeats(output)
    ensures |WithoutHeartbeats(output)| <= |output|
  {
    if output != [] {
      WithoutHeartbeatsOrder(output[..|output| - 1]);
      forall i | 0 <= i < |output| && output[i].Event? ensures output[i] in WithoutHeartbeats(output) {
        if i < |output| - 1 { assert output[..|output| - 1][i] == output[i]; }
      }
    }
  }

  lemma CancelEnds<T>(a: seq<T>, x: seq<T>, y: seq<T>, b: seq<T>)
    requires a + x + b == a + y + b
    ensures x == y
  {
    assert |x| == |y|;
    assert (a + x + b)[|a|..|a| + |x|] == x && (a + y + b)[|a|..|a| + |y|] == y;
  }

  lemma ThreeParts<T>(s: seq<T>, k: nat)
    requires 1 + k <= |s|
    ensures s == s[..1] + s[1..|s| - k] + s[|s| - k..]
  {
  }

  lemma WithoutHeartbeatsOfOne(o: Output)
    ensures WithoutHeartbeats([o]) == if o.Heartbeat? then [] else [o]
  {
    assert [o][..0] == [];
  }

  lemma BodyIsShown(meta: Output, body: seq<Output>, tail: seq<Output>, shown: seq<Output>)
    requires meta.Event? && |tail| <= 1 && (|tail| == 1 ==> tail[0].Event?)
    requires WithoutHeartbeats([meta] + body + tail) == [meta] + shown + tail
    ensures WithoutHeartbeats(body) == shown
  {
    WithoutHeartbeatsInTwo([meta] + body, tail);
    WithoutHeartbeatsInTwo([meta], body);
    WithoutHeartbeatsOfOne(meta);
    if |tail| == 1 { WithoutHeartbeatsOfOne(tail[0]); assert tail == [tail[0]]; }
    CancelEnds([meta], WithoutHeartbeats(body), shown, tail);
  }

  /** Without its heartbeats, an output of that shape has the shape's events. */
  lemma MiddleOfOutput(output: seq<Output>, shown: seq<Output>, meta: Output, tail: seq<Output>)
    requires meta.Event? && (forall i | 0 <= i < |shown| :: Middle(shown[i]))
    requires |tail| <= 1 && |output| >= 1 + |tail| && output[0] == meta
    requires WithoutHeartbeats(output) == [meta] + shown + tail
    requires |tail| == 1 ==> output[|output| - 1] == tail[0] && tail[0].Event?
    ensures forall i | 1 <= i < |output| - |tail| :: Middle(output[i])
  {
    var body := output[1..|output| - |tail|];
    ThreeParts(output, |tail|);
    assert output[..1] == [meta] && output[|output| - |tail|..] == tail;
    BodyIsShown(meta, body, tail, shown);
    WithoutHeartbeatsOrder(body);
    forall i | 1 <= i < |output| - |tail| ensures Middle(output[i]) {
      assert output[i] == body[i - 1];
    }
  }

  lemma {:induction false} WithoutHeartbeatsInTwo(a: seq<Output>, b: seq<Output>)
    ensures WithoutHeartbeats(a + b) == WithoutHeartbeats(a) + WithoutHeartbeats(b)
  {
    if b == [] {
      assert a + b == a;
    } else {
      assert (a + b)[..|a + b| - 1] == a + b[..|b| - 1];
      WithoutHeartbeatsInTwo(a, b[..|b| - 1]);
    }
  }

  /** Over every interleaving: `meta`, then tokens, tools and heartbeats, then
      at most one `done` or `error`, with nothing after it. */
  lemma OutputInOrder(c: Setting, steps: seq<Step>)
    ensures InOrder(c, Run(c, Initial, steps).output)
  {
    var s := Run(c, Initial, steps);
    Reachable(c, steps);
    if s.output != [] {
      var items := s.emitted[..TakenItems(s)];
      ShownAreMiddle(items);
      var meta := Event(Metadata(c));
      hide Shown, WithoutHeartbeats, QueueInv, TotalsInv;
      if Terminated(s) {
        var last := s.output[|s.output| - 1];
        MiddleOfOutput(s.output, Shown(items), meta, [last]);
      } else {
        assert [meta] + Shown(items) + [] == [meta] + Shown(items);
        MiddleOfOutput(s.output, Shown(items), meta, []);
      }
    }
  }

  /** `meta` tells what was set before the answer began. */
  lemma MetaTells(c: Setting, steps: seq<Step>)
    ensures var output := Run(c, Initial, steps).output;
            output != [] ==>
              && output[0].Event? && output[0].event.MetaEvent?
              && var meta := output[0].event;
                 && meta.requestId == c.requestId && meta.traceId == c.traceId
                 && meta.model == c.model && meta.mode == c.mode
                 && meta.alertsInContext == c.alertsInContext && meta.runbooksInContext == c.sectionsBefore
                 && meta.retrieval == c.retrieval
  {
    Reachable(c, steps);
    hide Run, QueueInv, TotalsInv, PhaseInv, ClosedBy, WithoutHeartbeats, Shown;
  }

  /** `error` tells the failure the source ended with, or that there was no
      answer, for this request. */
  lemma ErrorTells(c: Setting, steps: seq<Step>)
    ensures var s := Run(c, Initial, steps);
            s.output != [] && s.output[|s.output| - 1].Event? && s.output[|s.output| - 1].event.ErrorEvent? ==>
              && s.taken != []
              && var error := s.output[|s.output| - 1].event;
                 && error.errorRequestId == c.requestId
                 && match s.taken[|s.taken| - 1]
                    case Failed(LlmError(code, message)) => error.code == code && error.message == message
                    case Failed(OtherError) => error.code == "internal_error" && error.message == "internal error"
                    case End =>
                      error.code == "llm_empty_answer"
                      && error.message
                         == "the model returned no answer (finish: "
                            + (if s.finish.Some? then s.finish.value else "None") + ")"
                      && forall i | 0 <= i < |s.emitted| :: !s.emitted[i].Text?
                    case Put(_) => false
  {
    var s := Run(c, Initial, steps);
    Reachable(c, steps);
    QueueConserves(c, steps);
    hide Run, QueueInv, PhaseInv, WithoutHeartbeats, Shown, Puts;
    if s.output != [] && s.output[|s.output| - 1].Event? && s.output[|s.output| - 1].event.ErrorEvent? {
      var items := s.emitted[..TakenItems(s)];
      if !Terminated(s) {
        ShownAreMiddle(items);
        NoClosingWithoutTerminal(c, s.output, Shown(items));
      }
      AllTaken(s);
      ErrorOf(c, s, s.output[|s.output| - 1].event);
      if s.taken[|s.taken| - 1] == End { NoDeltas(s.emitted); }
    }
  }

  lemma AllTaken(s: State)
    requires Terminated(s) && s.taken[..|s.taken| - 1] == Puts(s.emitted)
    ensures s.emitted[..TakenItems(s)] == s.emitted
  {
    assert |s.taken[..|s.taken| - 1]| == |Puts(s.emitted)|;
  }

  lemma ErrorOf(c: Setting, s: State, e: ServerEvent)
    requires ClosedBy(c, s, e) && e.ErrorEvent?
    ensures e.errorRequestId == c.requestId
    ensures match s.taken[|s.taken| - 1]
            case Failed(LlmError(code, message)) => e.code == code && e.message == message
            case Failed(OtherError) => e.code == "internal_error" && e.message == "internal error"
            case End =>
              s.answer == [] && e.code == "llm_empty_answer"
              && e.message == "the model returned no answer (finish: "
                              + (if s.finish.Some? then s.finish.value else "None") + ")"
            case Put(_) => false
  {
  }

  lemma {:induction false} NoDeltas(items: seq<Item>)
    requires Deltas(items) == []
    ensures forall i | 0 <= i < |items| :: !items[i].Text?
  {
    if items != [] {
      var n := |items| - 1;
      NoDeltas(items[..n]);
      assert forall i | 0 <= i < n :: items[i] == items[..n][i];
    }
  }

  /** How often the client has asked for an event: the first step of the
      generator, and each resumption. */
  function Asked(c: Setting, steps: seq<Step>): nat {
    if steps == [] then 0
    else
      var front, last := steps[..|steps| - 1], steps[|steps| - 1];
      Asked(c, front) + (if (last.Start? || last.Resume?) && Enabled(Run(c, Initial, front), last) then 1 else 0)
  }

  /** Each event and heartbeat answers one asking: while the generator waits
      there is one asking it has not answered yet, and while it is suspended
      at a yield there is none. */
  lemma {:induction false} OneEventPerAsking(c: Setting, steps: seq<Step>)
    ensures var s := Run(c, Initial, steps);
            && |s.output| <= Asked(c, steps)
            && (s.phase.Created? || s.phase.AtMeta? || s.phase.AtYield? || s.phase.AtClosing? ==>
                  |s.output| == Asked(c, steps))
            && (s.phase.Waiting? ==> |s.output| + 1 == Asked(c, steps))
  {
    if |steps| == 0 {
      NothingAsked(c, steps);
    } else {
      var front, last := steps[..|steps| - 1], steps[|steps| - 1];
      OneEventPerAsking(c, front);
      RunLast(c, steps);
      AskedLast(c, steps);
      hide Run, Next, Asked, Enabled;
      NoOutputYet(c, front);
      StepAnswers(c, Run(c, Initial, front), last);
    }
  }

  lemma NothingAsked(c: Setting, steps: seq<Step>)
    requires |steps| == 0
    ensures Asked(c, steps) == 0 && Run(c, Initial, steps) == Initial
  {
  }

  lemma AskedLast(c: Setting, steps: seq<Step>)
    requires |steps| > 0
    ensures var front, last := steps[..|steps| - 1], steps[|steps| - 1];
            Asked(c, steps)
            == Asked(c, front)
               + (if (last.Start? || last.Resume?) && Enabled(Run(c, Initial, front), last) then 1 else 0)
  {
    hide Run, Enabled;
  }

  lemma NoOutputYet(c: Setting, steps: seq<Step>)
    ensures Run(c, Initial, steps).phase.Created? ==> Run(c, Initial, steps).output == []
  {
    Reachable(c, steps);
    hide Run, QueueInv, TotalsInv, OutputInv;
  }

  /** How far a step is from answering: what a waiting generator owes. */
  function Owed(s: State): int {
    |s.output| + (if s.phase.Waiting? then 1 else 0)
  }

  lemma StepAnswers(c: Setting, s: State, step: Step)
    requires s.phase.Created? ==> s.output == []
    ensures var s' := Next(c, s, step);
            var asked := if (step.Start? || step.Resume?) && Enabled(s, step) then 1 else 0;
            if s'.phase.Over? then |s'.output| == |s.output| else Owed(s') == Owed(s) + asked
  {
    if step.Take? && Enabled(s, step) {
      NextTake(c, s, step.closing);
      TakeAnswers(c, s, step.closing);
    }
    hide TakeItem, Metadata, Emitted, LastPut;
  }

  lemma TakeAnswers(c: Setting, s: State, k: Closing)
    requires s.phase.Waiting? && s.queue != []
    ensures var s' := TakeItem(c, s, k); Owed(s') == Owed(s) && !s'.phase.Over?
  {
    hide Done, EmptyAnswer, FailureEvent, AddUsage;
  }

  /** Past `meta`, every ending - normal, an error, a hang-up at any point -
      cancels a producer still at work, decrements the gauge once and counts
      the usage of all items taken and one outcome: ok or truncated exactly
      when `done` was reached, the error's code exactly when `error` was, else
      cancelled. */
  lemma EveryEndingCounted(c: Setting, steps: seq<Step>)
    ensures var s := Run(c, Initial, steps);
            s.phase.Over? && !s.producer.NotStarted? ==>
              && (s.producer.CancelledTask? || s.producer.Stopped?)
              && s.gauge == 0 && |s.counted| == 1 && s.output != []
              && s.countedUsage == s.usage
              && TakenItems(s) <= |s.emitted| && Sums(s.countedUsage, s.emitted[..TakenItems(s)])
              && var last, outcome := s.output[|s.output| - 1], s.counted[0];
                 if last.Event? && last.event.DoneEvent? then
                   outcome == if last.event.finishReason == Some("length") then Truncated else Ok
                 else if last.Event? && last.event.ErrorEvent? then
                   outcome == ErrorCode(last.event.code)
                 else outcome == Cancelled
  {
    hide *;
    var s := Run(c, Initial, steps);
    Reachable(c, steps);
    InvParts(c, s);
    if s.phase.Over? && !s.producer.NotStarted? {
      OverIsCounted(s);
      LastDecidesOutcome(c, s);
      UsageIsTotal(s);
      TotalSums(s.emitted[..TakenItems(s)]);
    }
  }

  lemma InvParts(c: Setting, s: State)
    requires Inv(c, s)
    ensures TotalsInv(s) && PhaseInv(s) && OutputInv(c, s)
  {
    hide TotalsInv, PhaseInv, OutputInv;
  }

  lemma UsageIsTotal(s: State)
    requires TotalsInv(s)
    ensures TakenItems(s) <= |s.emitted| && s.usage == TotalUsage(s.emitted[..TakenItems(s)])
  {
    hide TotalUsage;
  }

  lemma OverIsCounted(s: State)
    requires PhaseInv(s) && s.phase.Over? && !s.producer.NotStarted?
    ensures s.gauge == 0 && s.counted == [s.outcome] && s.countedUsage == s.usage && s.output != []
    ensures s.producer.CancelledTask? || s.producer.Stopped?
  {
  }

  lemma LastDecidesOutcome(c: Setting, s: State)
    requires OutputInv(c, s) && s.output != []
    ensures var last := s.output[|s.output| - 1];
            if last.Event? && last.event.DoneEvent? then
              s.outcome == if last.event.finishReason == Some("length") then Truncated else Ok
            else if last.Event? && last.event.ErrorEvent? then s.outcome == ErrorCode(last.event.code)
            else s.outcome == Cancelled
  {
    hide ClosedBy, WithoutHeartbeats, Shown;
    if Terminated(s) {
      ClosingSetsOutcome(c, s, s.output[|s.output| - 1].event);
    } else {
      var items := s.emitted[..TakenItems(s)];
      ShownAreMiddle(items);
      NoClosingWithoutTerminal(c, s.output, Shown(items));
    }
  }

  lemma ClosingSetsOutcome(c: Setting, s: State, e: ServerEvent)
    requires ClosedBy(c, s, e)
    ensures e.DoneEvent? ==> s.outcome == if e.finishReason == Some("length") then Truncated else Ok
    ensures e.ErrorEvent? ==> s.outcome == ErrorCode(e.code)
    ensures IsClosing(e)
  {
  }

  lemma MiddleIsNotClosing(o: Output)
    requires Middle(o) && o.Event?
    ensures !IsClosing(o.event)
  {
  }

  lemma InTail<T>(head: T, tail: seq<T>, x: T) returns (i: nat)
    requires x in [head] + tail && x != head
    ensures i < |tail| && tail[i] == x
  {
    var j :| 0 <= j < |[head] + tail| && ([head] + tail)[j] == x;
    i := j - 1;
  }

  lemma NoClosingWithoutTerminal(c: Setting, output: seq<Output>, shown: seq<Output>)
    requires output != [] && WithoutHeartbeats(output) == [Event(Metadata(c))] + shown
    requires forall i | 0 <= i < |shown| :: Middle(shown[i])
    ensures var last := output[|output| - 1]; last.Event? ==> !IsClosing(last.event)
  {
    var last := output[|output| - 1];
    assert !IsClosing(Metadata(c));
    hide *;
    if last.Event? {
      WithoutHeartbeatsOrder(output);
      assert last in WithoutHeartbeats(output);
      if last != Event(Metadata(c)) {
        var i := InTail(Event(Metadata(c)), shown, last);
        MiddleIsNotClosing(shown[i]);
      }
    }
  }

  /** The source waits exactly while 64 items do, or when it is not running. */
  lemma EmitWaits(c: Setting, s: State, item: Item)
    ensures Next(c, s, Emit(item)) == s <==> !(s.producer.Running? && |s.queue| < 64)
  {
    hide TakeItem, Metadata, Finally;
    if Enabled(s, Emit(item)) { assert |Emitted(s, item).queue| == |s.queue| + 1; }
  }

  /** Whatever the state, a running source may return, fail or run into the
      time limit, and its terminal item is put as soon as there is room. */
  lemma SourceEndsAnyTime(c: Setting, s: State, failure: Failure)
    ensures s.producer.Running? ==>
              && Next(c, s, SourceReturns).producer == Ending(End)
              && Next(c, s, SourceFails(failure)).producer == Ending(Failed(failure))
              && Next(c, s, TimeLimit).producer == Ending(Failed(LlmError("llm_timeout", "the answer took too long")))
    ensures s.producer.Ending? && |s.queue| < 64 ==> Next(c, s, PutLast).queue == s.queue + [s.producer.last]
  {
    hide TakeItem, Metadata, Finally;
  }

  /** Waiting, the generator takes the head of the queue ... */
  lemma WaitingTakes(c: Setting, s: State, k: Closing)
    requires s.phase.Waiting? && |s.queue| > 0
    ensures Next(c, s, Take(k)).taken == s.taken + [s.queue[0]] && Next(c, s, Take(k)).queue == s.queue[1..]
  {
    hide *;
    TakeIsEnabled(s, k);
    NextTake(c, s, k);
    TakeMoves(c, s, k);
  }

  lemma TakeIsEnabled(s: State, k: Closing)
    ensures Enabled(s, Take(k)) <==> s.phase.Waiting? && |s.queue| > 0
  {
  }

  /** ... or sends a heartbeat. */
  lemma WaitingBeats(c: Setting, s: State)
    requires s.phase.Waiting?
    ensures Next(c, s, HeartbeatFires) == s.(phase := AtYield, output := s.output + [Heartbeat])
  {
    hide TakeItem, Metadata, Finally, Emitted, LastPut;
  }

  /** The client may ask for the next event at any yield ... */
  lemma AskingContinues(c: Setting, s: State)
    ensures s.phase.AtMeta? ==> Next(c, s, Resume).phase.Waiting? && Next(c, s, Resume).producer.Running?
    ensures s.phase.AtYield? ==> Next(c, s, Resume) == s.(phase := Waiting)
    ensures s.phase.AtClosing? ==>
              Next(c, s, Resume).phase.Over? && Next(c, s, Resume).counted == s.counted + [s.outcome]
  {
    hide TakeItem, Metadata;
  }

  /** ... and hang up at any time: the answer is over, the source with it. */
  lemma HangingUpEnds(c: Setting, s: State)
    ensures Next(c, s, HangUp).phase.Over?
    ensures s.phase.Waiting? || s.phase.AtYield? || s.phase.AtClosing? ==>
              && Next(c, s, HangUp).counted == s.counted + [s.outcome]
              && !Next(c, s, HangUp).producer.Running? && !Next(c, s, HangUp).producer.Ending?
  {
    hide TakeItem, Metadata;
  }

  lemma HandleMoves(s: State, item: Item)
    ensures Handle(s, item).taken == s.taken && Handle(s, item).queue == s.queue
  {
    hide AddUsage;
  }

  lemma ConcludeMoves(c: Setting, s: State, last: Queued, k: Closing)
    requires !last.Put?
    ensures Conclude(c, s, last, k).taken == s.taken && Conclude(c, s, last, k).queue == s.queue
  {
    hide Done, EmptyAnswer, FailureEvent;
  }

  lemma TakeMoves(c: Setting, s: State, k: Closing)
    requires s.queue != []
    ensures TakeItem(c, s, k).taken == s.taken + [s.queue[0]] && TakeItem(c, s, k).queue == s.queue[1..]
  {
    hide Handle, Conclude;
    if s.queue[0].Put? {
      HandleMoves(Dequeue(s), s.queue[0].item);
    } else {
      ConcludeMoves(c, Dequeue(s), s.queue[0], k);
    }
  }

  /** The queue neither loses, repeats nor reorders: what the generator took
      is a prefix of what the source emitted, then at most one terminal item;
      and the queue never holds more than 64. */
  lemma QueueConserves(c: Setting, steps: seq<Step>)
    ensures var s := Run(c, Initial, steps);
            && |s.queue| <= 64
            && (forall item :: Next(c, s, Emit(item)) == s <==> !(s.producer.Running? && |s.queue| < 64))
            && s.taken + s.queue == Puts(s.emitted) + (if s.producer.Stopped? then [s.producer.last] else [])
            && (Terminated(s) ==> s.taken[..|s.taken| - 1] == Puts(s.emitted) && s.queue == [])
            && (!Terminated(s) ==> s.taken <= Puts(s.emitted))
  {
    var s := Run(c, Initial, steps);
    Reachable(c, steps);
    hide OutputInv, TotalsInv, Next;
    forall item ensures Next(c, s, Emit(item)) == s <==> !(s.producer.Running? && |s.queue| < 64) {
      EmitWaits(c, s, item);
    }
    var all := s.taken + s.queue;
    if Terminated(s) {
      assert s.producer.Stopped? by {
        if !s.producer.Stopped? { NoTerminalYet(s); }
      }
      var n := |s.taken| - 1;
      assert all[n] == s.taken[n];
      assert n == |s.emitted|;
      assert s.taken[..n] == all[..n];
    } else {
      assert |s.taken| <= |s.emitted|;
      assert s.taken == all[..|s.taken|];
    }
  }

  /** Once `done` is out, it accounts for all the source emitted: the tokens
      are its whole text in order, the usage its sum, the counts all its model
      and tool calls; and its citations are those of that text. */
  lemma DoneAccountsForAll(c: Setting, steps: seq<Step>)
    ensures var s := Run(c, Initial, steps);
            s.output != [] && s.output[|s.output| - 1].Event? && s.output[|s.output| - 1].event.DoneEvent? ==>
              var done := s.output[|s.output| - 1].event;
              && s.answer == Deltas(s.emitted) && s.answer != []
              && Sums(done.usage, s.emitted)
              && done.finishReason == LastFinish(s.emitted)
              && done.modelCalls == CountFinish(s.emitted)
              && done.toolCalls == CountTools(s.emitted)
              && WithoutHeartbeats(s.output)
                 == [Event(Metadata(c))] + Shown(s.emitted) + [Event(done)]
              && exists sections ::
                   done.citations == Cited(Concat(Deltas(s.emitted)), sections, c.unicode)
                   && done.invalidCitations == Invalid(Concat(Deltas(s.emitted)), sections, c.unicode)
                   && done.runbooksRead == |sections|
  {
    var s := Run(c, Initial, steps);
    Reachable(c, steps);
    QueueConserves(c, steps);
    if s.output != [] && s.output[|s.output| - 1].Event? && s.output[|s.output| - 1].event.DoneEvent? {
      var done := s.output[|s.output| - 1].event;
      var items := s.emitted[..TakenItems(s)];
      if !Terminated(s) {
        ShownAreMiddle(items);
        NoClosingWithoutTerminal(c, s.output, Shown(items));
      }
      assert items == s.emitted;
      TotalSums(items);
      hide Sums, QueueInv, Deltas, TotalUsage, LastFinish, CountFinish, CountTools, Shown, WithoutHeartbeats, Puts;
      var k: Closing :| done == Done(c, s.answer, s.usage, s.finish, s.modelCalls, s.toolCalls, k);
      assert done.runbooksRead == |k.sections|;
    }
  }

  // ---- The sections `done` cites ------------------------------------------------------

  ghost predicate EndsDone(s: State) {
    s.output != [] && s.output[|s.output| - 1].Event? && s.output[|s.output| - 1].event.DoneEvent?
  }

  /** `done` reports the state's totals, and the closing's sections. */
  ghost predicate DoneBy(c: Setting, s: State, k: Closing) {
    s.output != []
    && s.output[|s.output| - 1] == Event(Done(c, s.answer, s.usage, s.finish, s.modelCalls, s.toolCalls, k))
  }

  lemma DoneMeansTerminated(c: Setting, s: State)
    requires Inv(c, s) && EndsDone(s)
    ensures Terminated(s) && (s.phase.AtClosing? || s.phase.Over?)
  {
    hide QueueInv, TotalsInv, ClosedBy, WithoutHeartbeats, Shown;
    if !Terminated(s) {
      var items := s.emitted[..TakenItems(s)];
      ShownAreMiddle(items);
      NoClosingWithoutTerminal(c, s.output, Shown(items));
    }
  }

  /** After `done` no step changes it or the totals. */
  lemma DoneStays(c: Setting, s: State, step: Step)
    requires s.phase.AtClosing? || s.phase.Over?
    ensures var s' := Next(c, s, step);
            s'.output == s.output && s'.answer == s.answer && s'.usage == s.usage && s'.finish == s.finish
            && s'.modelCalls == s.modelCalls && s'.toolCalls == s.toolCalls
  {
    hide TakeItem, Metadata;
  }

  /** A step that takes nothing sends no `done`. */
  lemma OthersSendNoDone(c: Setting, s: State, step: Step)
    requires !EndsDone(s) && !(step.Take? && Enabled(s, step))
    ensures !EndsDone(Next(c, s, step))
  {
    OthersSend(c, s, step);
    hide Next, Enabled;
  }

  lemma OthersSend(c: Setting, s: State, step: Step)
    requires !(step.Take? && Enabled(s, step))
    ensures var output := Next(c, s, step).output;
            output == s.output || output == [Event(Metadata(c))] || output == s.output + [Heartbeat]
  {
    hide TakeItem, Metadata;
  }

  /** Only taking the end sends `done`, with that step's closing. */
  lemma DoneStarts(c: Setting, s: State, step: Step)
    requires !EndsDone(s) && EndsDone(Next(c, s, step))
    ensures step.Take? && Enabled(s, step) && s.queue[0] == End && DoneBy(c, Next(c, s, step), step.closing)
  {
    hide TakeItem, EndsDone, DoneBy, Next;
    if step.Take? && Enabled(s, step) {
      NextTake(c, s, step.closing);
      TakeDone(c, s, step.closing);
    } else {
      OthersSendNoDone(c, s, step);
    }
  }

  lemma TakeDone(c: Setting, s: State, k: Closing)
    requires s.queue != [] && !EndsDone(s) && EndsDone(TakeItem(c, s, k))
    ensures s.queue[0] == End && DoneBy(c, TakeItem(c, s, k), k)
  {
    hide Done;
    match s.queue[0] {
      case Put(item) => HandleNotDone(Dequeue(s), item);
      case _ =>
    }
  }

  lemma HandleNotDone(s: State, item: Item)
    requires !EndsDone(s)
    ensures !EndsDone(Handle(s, item))
  {
  }

  /** Step `i` takes the end of the source. */
  ghost predicate TakesEnd(c: Setting, steps: seq<Step>, i: nat)
    requires i < |steps|
  {
    var s := Run(c, Initial, steps[..i]);
    steps[i].Take? && Enabled(s, steps[i]) && s.queue[0] == End
  }

  lemma {:induction false} DoneComesFromEnd(c: Setting, steps: seq<Step>) returns (i: nat)
    requires EndsDone(Run(c, Initial, steps))
    ensures i < |steps| && TakesEnd(c, steps, i) && DoneBy(c, Run(c, Initial, steps), steps[i].closing)
  {
    hide Run, Next, Inv, Enabled, Done;
    i := 0;
    if |steps| == 0 {
      NothingDone(c, steps);
    } else {
      var n := |steps| - 1;
      var front := steps[..n];
      RunLast(c, steps);
      Reachable(c, front);
      if EndsDone(Run(c, Initial, front)) {
        DoneMeansTerminated(c, Run(c, Initial, front));
        DoneStays(c, Run(c, Initial, front), steps[n]);
        i := DoneComesFromEnd(c, front);
        assert front[i] == steps[i] && front[..i] == steps[..i];
      } else {
        DoneStarts(c, Run(c, Initial, front), steps[n]);
        i := n;
      }
    }
  }

  lemma RunLast(c: Setting, steps: seq<Step>)
    requires |steps| > 0
    ensures Run(c, Initial, steps) == Next(c, Run(c, Initial, steps[..|steps| - 1]), steps[|steps| - 1])
  {
    hide Next;
  }

  lemma NothingDone(c: Setting, steps: seq<Step>)
    requires |steps| == 0
    ensures !EndsDone(Run(c, Initial, steps))
  {
  }

  /** Whatever sections are there when the source has ended - the fixed list of
      the pipeline, or the agent's - are those `done` cites and counts. */
  lemma DoneCitesSections(c: Setting, steps: seq<Step>, sections: seq<Hit>)
    requires EndsDone(Run(c, Initial, steps))
    requires forall i | 0 <= i < |steps| && TakesEnd(c, steps, i) :: steps[i].closing.sections == sections
    ensures var s := Run(c, Initial, steps);
            var done := s.output[|s.output| - 1].event;
            var text := Concat(Deltas(s.emitted));
            && done.citations == Cited(text, sections, c.unicode)
            && done.invalidCitations == Invalid(text, sections, c.unicode)
            && done.runbooksRead == |sections|
  {
    var i := DoneComesFromEnd(c, steps);
    DoneAccountsForAll(c, steps);
    hide Run, TakesEnd, Cited, Invalid, Deltas, Concat;
  }

  /** An agent's answer cites what it read: a number shown with a section
      during the run, and mentioned in the answer, is cited as that section. */
  lemma AgentDoneCites(c: Setting, steps: seq<Step>, calls: seq<Call>, k: nat, j: nat) returns (at: nat)
    requires EndsDone(Run(c, Initial, steps))
    requires forall i | 0 <= i < |steps| && TakesEnd(c, steps, i) ::
               steps[i].closing.sections == AfterCalls(Context([], {}), calls).sections
    requires k < |calls| && calls[k].inTime && calls[k].work.Search? && j < |calls[k].work.hits|
    requires var shown := NumberOf(AfterCalls(Context([], {}), calls[..k + 1]).sections, calls[k].work.hits[j]);
             shown in Mentions(Concat(Deltas(Run(c, Initial, steps).emitted)), 0, c.unicode)
    ensures var s := Run(c, Initial, steps);
            var done := s.output[|s.output| - 1].event;
            var sections := AfterCalls(Context([], {}), calls).sections;
            var shown := NumberOf(AfterCalls(Context([], {}), calls[..k + 1]).sections, calls[k].work.hits[j]);
            && at < |done.citations| && 1 <= shown <= |sections|
            && sections[shown - 1].chunkId == calls[k].work.hits[j].chunkId
            && CitesSection(done.citations[at], shown, sections)
  {
    var sections := AfterCalls(Context([], {}), calls).sections;
    var text := Concat(Deltas(Run(c, Initial, steps).emitted));
    ShownNumbersStay(calls, k, j);
    DoneCitesSections(c, steps, sections);
    hide Run, TakesEnd, AfterCalls, Deltas, Concat, Mentions, Cited, Invalid, EndsDone;
    var shown := NumberOf(AfterCalls(Context([], {}), calls[..k + 1]).sections, calls[k].work.hits[j]);
    at := MentionIsCited(text, sections, c.unicode, shown);
  }

  lemma MentionIsCited(text: string, sections: seq<Hit>, u: Unicode, n: nat) returns (at: nat)
    requires n in Mentions(text, 0, u) && 1 <= n <= |sections|
    ensures at < |Cited(text, sections, u)| && CitesSection(Cited(text, sections, u)[at], n, sections)
  {
    var ps, qs := ListsShareNumbers(text, sections, u);
    DistinctKeepsFirsts(Mentions(text, 0, u));
    var numbers := Distinct(Mentions(text, 0, u));
    hide Mentions, Distinct, Cited, Invalid;
    var i :| 0 <= i < |numbers| && numbers[i] == n;
    at :| 0 <= at < |ps| && ps[at] == i;
  }

  /** Hung up while "meta" is still being sent, the generator ends
      outside its `try`: the gauge stays raised and no outcome is counted. It
      is the only ending that does, together with never having started. */
  lemma HangUpAtMetaLeaks(c: Setting, steps: seq<Step>)
    ensures var s := Run(c, Initial, steps);
            s.phase.Over? ==>
              (s.gauge != 0 <==> s.producer.NotStarted? && s.output == [Event(Metadata(c))])
              && (s.counted == [] <==> s.producer.NotStarted?)
    ensures Run(c, Initial, [Start, HangUp]).phase.Over? && Run(c, Initial, [Start, HangUp]).gauge == 1
            && Run(c, Initial, [Start, HangUp]).counted == []
  {
    Reachable(c, steps);
    var s := Run(c, Initial, steps);
    if s.phase.Over? && s.output != [] && |s.output| <= 1 { assert s.output == [s.output[0]]; }
    assert [Start, HangUp][..1] == [Start] && [Start][..0] == [];
  }

  /** How many steps at most still lead to the closing event. */
  function StepsLeft(s: State): nat {
    2 * |s.queue| + (if s.phase.AtYield? then 1 else 0) + (if s.producer.Ending? then 3 else 0)
  }

  /** The source has ended, and the answer is not closed yet. */
  ghost predicate Draining(c: Setting, s: State) {
    Inv(c, s) && (s.phase.Waiting? || s.phase.AtYield?) && (s.producer.Ending? || s.producer.Stopped?)
  }

  /** What happens next while draining. */
  function DrainStep(s: State, k: Closing): Step {
    if s.phase.AtYield? then Resume
    else if s.producer.Ending? && |s.queue| < QUEUE_SIZE then PutLast
    else Take(k)
  }

  /** Steps that lead from a state in which the source has ended, and the
      client keeps asking, to the closing event: backpressure cannot block
      the end of an answer. */
  lemma EndIsReached(c: Setting, s: State, k: Closing) returns (steps: seq<Step>)
    requires Draining(c, s)
    ensures Run(c, s, steps).phase.AtClosing?
    ensures forall i | 0 <= i < |steps| :: steps[i].PutLast? || steps[i].Take? || steps[i].Resume?
    ensures |steps| <= StepsLeft(s)
    decreases StepsLeft(s)
  {
    var step := DrainStep(s, k);
    var s' := Next(c, s, step);
    StepKeeps(c, s, step);
    DrainStepLeads(c, s, k);
    if s'.phase.AtClosing? {
      steps := [step];
      RunOne(c, s, step);
    } else {
      var rest := EndIsReached(c, s', k);
      steps := [step] + rest;
      RunFirst(c, s, step, rest);
    }
  }

  lemma StoppedQueueNonempty(s: State)
    requires QueueInv(s) && s.producer.Stopped? && !Terminated(s)
    ensures s.queue != []
  {
    assert s.queue == [] ==> s.taken + s.queue == s.taken;
  }

  lemma HandleGoesOn(s: State, item: Item)
    ensures var s' := Handle(s, item);
            s'.queue == s.queue && s'.producer == s.producer && (s'.phase == s.phase || s'.phase.AtYield?)
  {
    hide AddUsage;
  }

  /** Taking an item shortens the queue and keeps the producer. */
  lemma TakeShortens(c: Setting, s: State, k: Closing)
    requires Enabled(s, Take(k))
    ensures var s' := Next(c, s, Take(k));
            |s'.queue| == |s.queue| - 1 && s'.producer == s.producer
            && (s'.phase.Waiting? || s'.phase.AtYield? || s'.phase.AtClosing?)
  {
    NextTake(c, s, k);
    hide Next, Enabled, Handle, Conclude;
    if s.queue[0].Put? {
      HandleGoesOn(Dequeue(s), s.queue[0].item);
    } else {
      ConcludeFacts(c, Dequeue(s), s.queue[0], k);
    }
  }

  lemma DrainStepEnabled(c: Setting, s: State, k: Closing)
    requires Draining(c, s)
    ensures Enabled(s, DrainStep(s, k))
  {
    hide TotalsInv, OutputInv, Puts, Terminated, TakenItems;
    assert QueueInv(s) && PhaseInv(s);
    if s.producer.Stopped? && s.phase.Waiting? { StoppedQueueNonempty(s); }
  }

  lemma PutLastCounts(c: Setting, s: State)
    requires Enabled(s, PutLast) && (s.phase.Waiting? || s.phase.AtYield?)
    ensures var s' := Next(c, s, PutLast);
            StepsLeft(s') < StepsLeft(s) && s'.producer.Stopped? && (s'.phase.Waiting? || s'.phase.AtYield?)
  {
    NextPutLast(c, s);
    hide Next, Enabled;
  }

  lemma ResumeCounts(c: Setting, s: State)
    requires s.phase.AtYield?
    ensures var s' := Next(c, s, Resume);
            StepsLeft(s') < StepsLeft(s) && s'.producer == s.producer && s'.phase.Waiting?
  {
    NextResume(c, s);
    hide Next;
  }

  lemma TakeCounts(c: Setting, s: State, k: Closing)
    requires Enabled(s, Take(k))
    ensures var s' := Next(c, s, Take(k));
            StepsLeft(s') < StepsLeft(s) && s'.producer == s.producer
            && (s'.phase.AtClosing? || s'.phase.Waiting? || s'.phase.AtYield?)
  {
    NextTake(c, s, k);
    TakeShortens(c, s, k);
    hide Next, Enabled;
  }

  /** Each of the steps that drain counts, and leads to more of them or to the
      closing event. */
  lemma DrainingStepCounts(c: Setting, s: State, step: Step)
    requires Enabled(s, step) && (step.PutLast? || step.Take? || step.Resume?)
    requires (s.phase.Waiting? || s.phase.AtYield?) && (s.producer.Ending? || s.producer.Stopped?)
    ensures var s' := Next(c, s, step);
            && StepsLeft(s') < StepsLeft(s) && (s'.producer.Ending? || s'.producer.Stopped?)
            && (s'.phase.AtClosing? || s'.phase.Waiting? || s'.phase.AtYield?)
  {
    hide Next, StepsLeft;
    match step {
      case PutLast => PutLastCounts(c, s);
      case Take(k) => TakeCounts(c, s, k);
      case Resume => ResumeCounts(c, s);
    }
  }

  lemma DrainStepLeads(c: Setting, s: State, k: Closing)
    requires Draining(c, s)
    ensures Enabled(s, DrainStep(s, k))
    ensures var s' := Next(c, s, DrainStep(s, k));
            StepsLeft(s') < StepsLeft(s) && (s'.phase.AtClosing? || Draining(c, s'))
  {
    hide Inv, Next, Enabled, StepsLeft;
    DrainStepEnabled(c, s, k);
    StepKeeps(c, s, DrainStep(s, k));
    DrainingStepCounts(c, s, DrainStep(s, k));
  }

  /** The steps that drain: the terminal item put, an item taken, the client
      asking for more. */
  predicate Drains(s: State, step: Step) {
    (step.PutLast? || step.Take? || step.Resume?) && Enabled(s, step)
  }

  /** `steps` can happen one after the other. */
  predicate Schedule(c: Setting, s: State, steps: seq<Step>)
    decreases |steps|
  {
    steps == [] || (Drains(s, steps[0]) && Schedule(c, Next(c, s, steps[0]), steps[1..]))
  }

  lemma DrainCounts(c: Setting, s: State, step: Step)
    requires Draining(c, s) && Drains(s, step)
    ensures var s' := Next(c, s, step);
            StepsLeft(s') < StepsLeft(s) && (s'.phase.AtClosing? || Draining(c, s'))
  {
    StepKeeps(c, s, step);
    DrainingStepCounts(c, s, step);
    hide Inv, Next, Enabled, StepsLeft;
  }

  /** Whatever the order of those steps, the closing event comes within
      `StepsLeft` of them: none goes on without it, and until it comes one is
      always possible. */
  lemma {:induction false} EveryScheduleEnds(c: Setting, s: State, steps: seq<Step>, k: Closing)
    requires Draining(c, s) && Schedule(c, s, steps)
    ensures |steps| > StepsLeft(s) ==> exists n | 0 <= n <= |steps| :: Run(c, s, steps[..n]).phase.AtClosing?
    ensures (exists n | 0 <= n <= |steps| :: Run(c, s, steps[..n]).phase.AtClosing?)
            || (|steps| + StepsLeft(Run(c, s, steps)) <= StepsLeft(s)
                && Drains(Run(c, s, steps), DrainStep(Run(c, s, steps), k)))
    decreases |steps|
  {
    hide Next, Drains, Draining, StepsLeft, Run;
    if steps == [] {
      RunNone(c, s, steps);
      DrainStepLeads(c, s, k);
      CanDrain(s, k);
    } else {
      var step, rest := steps[0], steps[1..];
      var s' := Next(c, s, step);
      DrainCounts(c, s, step);
      assert steps == [step] + rest;
      if s'.phase.AtClosing? {
        RunOne(c, s, step);
        assert steps[..1] == [step];
      } else {
        EveryScheduleEnds(c, s', rest, k);
        RunFirst(c, s, step, rest);
        if exists n | 0 <= n <= |rest| :: Run(c, s', rest[..n]).phase.AtClosing? {
          var n :| 0 <= n <= |rest| && Run(c, s', rest[..n]).phase.AtClosing?;
          RunFirst(c, s, step, rest[..n]);
          assert steps[..n + 1] == [step] + rest[..n];
        }
      }
    }
  }

  lemma RunNone(c: Setting, s: State, steps: seq<Step>)
    requires |steps| == 0
    ensures Run(c, s, steps) == s
  {
  }

  lemma CanDrain(s: State, k: Closing)
    requires Enabled(s, DrainStep(s, k))
    ensures Drains(s, DrainStep(s, k))
  {
    hide Enabled;
  }

  lemma RunOne(c: Setting, s: State, step: Step)
    ensures Run(c, s, [step]) == Next(c, s, step)
  {
    assert [step][..0] == [];
  }

  lemma {:induction false} RunFirst(c: Setting, s: State, step: Step, rest: seq<Step>)
    ensures Run(c, s, [step] + rest) == Run(c, Next(c, s, step), rest)
  {
    if rest == [] {
      assert [step] + rest == [step];
      RunOne(c, s, step);
    } else {
      assert ([step] + rest)[..|rest|] == [step] + rest[..|rest| - 1];
      RunFirst(c, s, step, rest[..|rest| - 1]);
    }
  }
}
