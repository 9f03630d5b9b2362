/** The answer stream from end to end: the payloads of app/triage.py, printed
    by app/sse.py, read by apps/web/src/lib/sse.ts and turned into chat events
    by `streamChat` of apps/web/src/lib/api.ts. */
module ChatClient {
  import opened Common
  import opened Decimal
  import opened Json
  import opened EventStream
  import opened Sse
  import opened AnswerStream
  import C = Citations

  // ---- The api's side: names and payloads ---------------------------------------

  function NatJson(n: nat): Json {
    Num(NatText(n))
  }

  function OptNat(n: Option<nat>): Json {
    if n.Some? then NatJson(n.value) else Null
  }

  function OptStr(s: Option<string>): Json {
    if s.Some? then Str(s.value) else Null
  }

  function UsageJson(usage: Option<Usage>): Json {
    match usage
    case None => Null
    case Some(u) =>
      Obj([Field("prompt_tokens", NatJson(u.promptTokens)), Field("completion_tokens", NatJson(u.completionTokens))])
  }

  function CitationJson(c: C.Citation): Json {
    Obj([Field("ref", Str(c.ref)), Field("runbook_id", Num(IntText(c.runbookId))),
         Field("title", Str(c.title)), Field("heading", Str(c.heading))])
  }

  function CitationsJson(cited: seq<C.Citation>): seq<Json> {
    seq(|cited|, i requires 0 <= i < |cited| => CitationJson(cited[i]))
  }

  function EventName(e: ServerEvent): string {
    match e
    case MetaEvent(_, _, _, _, _, _, _) => "meta"
    case ToolEvent(_, _, _) => "tool"
    case TokenEvent(_) => "token"
    case DoneEvent(_, _, _, _, _, _, _, _, _, _) => "done"
    case ErrorEvent(_, _, _) => "error"
  }

  /** The fields of `done`. */
  function DoneTotals(e: ServerEvent): seq<Field>
    requires e.DoneEvent?
  {
    [Field("usage", UsageJson(e.usage)), Field("ttft_ms", Num(e.ttftMs)), Field("duration_ms", Num(e.durationMs)),
     Field("finish_reason", OptStr(e.finishReason))]
  }

  function DoneReading(e: ServerEvent): seq<Field>
    requires e.DoneEvent?
  {
    [Field("citations", Arr(CitationsJson(e.citations))),
     Field("invalid_citations", Arr(InvalidJson(e.invalidCitations))),
     Field("model_calls", NatJson(e.modelCalls)), Field("tool_calls", NatJson(e.toolCalls)),
     Field("alerts_in_context", OptNat(e.alertsRead)), Field("runbooks_in_context", NatJson(e.runbooksRead))]
  }

  function InvalidJson(invalid: seq<string>): seq<Json> {
    seq(|invalid|, i requires 0 <= i < |invalid| => Str(invalid[i]))
  }

  function Payload(e: ServerEvent): Json {
    match e
    case MetaEvent(requestId, traceId, model, mode, alerts, runbooks, retrieval) =>
      Obj([Field("request_id", Str(requestId)), Field("trace_id", OptStr(traceId)), Field("model", Str(model)),
           Field("mode", Str(mode)), Field("alerts_in_context", OptNat(alerts)),
           Field("runbooks_in_context", NatJson(runbooks)), Field("retrieval", OptStr(retrieval))])
    case ToolEvent(name, ok, summary) =>
      Obj([Field("name", Str(name)), Field("ok", Bool(ok)), Field("summary", Str(summary))])
    case TokenEvent(delta) => Obj([Field("delta", Str(delta))])
    case DoneEvent(_, _, _, _, _, _, _, _, _, _) => Obj(DoneTotals(e) + DoneReading(e))
    case ErrorEvent(code, message, requestId) =>
      Obj([Field("code", Str(code)), Field("message", Str(message)), Field("request_id", Str(requestId))])
  }

  function FrameOf(o: Output): Frame {
    match o
    case Heartbeat => Frame.Heartbeat
    case Event(e) => Frame.Event(EventName(e), DumpsCompact(Payload(e)))
  }

  function Frames(output: seq<Output>): seq<Frame> {
    seq(|output|, i requires 0 <= i < |output| => FrameOf(output[i]))
  }

  // ---- The client's side: streamChat -------------------------------------------------

  /** A JavaScript value read from a payload. */
  datatype Js = Undefined | Val(value: Json)

  datatype CitationView = CitationView(ref: Js, runbookId: Js, title: Js, heading: Js)

  datatype ChatEvent =
    | ChatMeta(requestId: Js, model: Js, alertsInContext: Js, runbooksInContext: Json, retrieval: Json)
    | ChatToken(delta: Js)
    | ChatTool(name: Js, ok: Js, summary: Js)
    | ChatDone(ttftMs: Js, durationMs: Js, completionTokens: Json, finishReason: Json, citations: seq<CitationView>)
    | ChatError(code: Js, message: Js, requestId: Js)

  /** How the generator ends: its loop ran out with a closing event seen, or
      without one (ApiError "stream_incomplete"), or reading a payload threw. */
  datatype Ending = Complete | StreamIncomplete | Threw

  /** `payload.name`, for a payload that is not null. */
  function Prop(payload: Json, name: string): Js {
    if payload.Obj? && LastIndex(payload.fields, name) >= 0 then
      Val(payload.fields[LastIndex(payload.fields, name)].value)
    else Undefined
  }

  /** `js ?? default` */
  function OrElse(js: Js, default: Json): Json {
    if js.Undefined? || js.value == Null then default else js.value
  }

  /** `js?.name` */
  function OptionalProp(js: Js, name: string): Js {
    if js.Undefined? || js.value == Null then Undefined else Prop(js.value, name)
  }

  datatype Views = Views(citations: seq<CitationView>) | NotCitations

  function ViewCitations(items: seq<Json>): Views {
    if items == [] then Views([])
    else
      match ViewCitations(items[..|items| - 1])
      case NotCitations => NotCitations
      case Views(citations) =>
        var c := items[|items| - 1];
        if c == Null then NotCitations
        else Views(citations + [CitationView(Prop(c, "ref"), Prop(c, "runbook_id"),
                                             Prop(c, "title"), Prop(c, "heading"))])
  }

  datatype Mapped = Ignored | Mapped(event: ChatEvent) | Throws

  function MetaFrom(payload: Json): ChatEvent {
    ChatMeta(Prop(payload, "request_id"), Prop(payload, "model"), Prop(payload, "alerts_in_context"),
             OrElse(Prop(payload, "runbooks_in_context"), Num("0")), OrElse(Prop(payload, "retrieval"), Null))
  }

  function DoneFrom(payload: Json): Mapped {
    var citations := OrElse(Prop(payload, "citations"), Arr([]));
    if !citations.Arr? then Throws else
    match ViewCitations(citations.items)
    case NotCitations => Throws
    case Views(views) =>
      Mapped(ChatDone(Prop(payload, "ttft_ms"), Prop(payload, "duration_ms"),
                      OrElse(OptionalProp(Prop(payload, "usage"), "completion_tokens"), Null),
                      OrElse(Prop(payload, "finish_reason"), Null), views))
  }

  function ErrorFrom(payload: Json): ChatEvent {
    ChatError(Prop(payload, "code"), Prop(payload, "message"), Prop(payload, "request_id"))
  }

  /** The `switch` over an event's name. */
  function ToChatEvent(name: string, payload: Json): Mapped {
    if name !in ["meta", "token", "tool", "done", "error"] then Ignored
    else if payload == Null then Throws
    else if name == "meta" then Mapped(MetaFrom(payload))
    else if name == "token" then Mapped(ChatToken(Prop(payload, "delta")))
    else if name == "tool" then
      Mapped(ChatTool(Prop(payload, "name"), Prop(payload, "ok"), Prop(payload, "summary")))
    else if name == "done" then DoneFrom(payload)
    else Mapped(ErrorFrom(payload))
  }

  predicate Closes(name: string) {
    name == "done" || name == "error"
  }

  datatype ChatState = Reading(chat: seq<ChatEvent>, finished: bool) | Broken(chat: seq<ChatEvent>)

  function ChatStep(state: ChatState, e: SseEvent): ChatState {
    if state.Broken? then state else
    match Loads(e.data)
    case Malformed => Broken(state.chat)
    case Value(payload) =>
      match ToChatEvent(e.event, payload)
      case Throws => Broken(state.chat)
      case Ignored => Reading(state.chat, state.finished || Closes(e.event))
      case Mapped(c) => Reading(state.chat + [c], state.finished || Closes(e.event))
  }

  function ChatRead(events: seq<SseEvent>): ChatState {
    if events == [] then Reading([], false)
    else ChatStep(ChatRead(events[..|events| - 1]), events[|events| - 1])
  }

  function ChatRun(events: seq<SseEvent>): (seq<ChatEvent>, Ending) {
    match ChatRead(events)
    case Broken(chat) => (chat, Threw)
    case Reading(chat, finished) => (chat, if finished then Complete else StreamIncomplete)
  }

  lemma ReadOneMore(events: seq<SseEvent>, k: nat)
    requires k < |events|
    ensures ChatRead(events[..k + 1]) == ChatStep(ChatRead(events[..k]), events[k])
  {
    assert events[..k + 1][..k] == events[..k];
  }

  lemma {:induction false} ThrowStays(events: seq<SseEvent>, k: nat)
    requires k <= |events| && ChatRead(events[..k]).Broken?
    ensures ChatRead(events) == ChatRead(events[..k])
    decreases |events| - k
  {
    if k == |events| {
      assert events[..k] == events;
    } else {
      ReadOneMore(events, k);
      ThrowStays(events, k + 1);
    }
  }

  /** `streamChat` over a whole body that arrived in the reads `chunks`. */
  method StreamChat(chunks: seq<string>, flush: string) returns (chat: seq<ChatEvent>, ending: Ending)
    ensures (chat, ending) == ChatRun(Meaning(Concat(chunks) + flush))
  {
    var events, after := ParseSSE(chunks, flush);
    chat, ending := [], Complete;
    var finished := false;
    assert events[..0] == [] && ChatRead([]) == Reading([], false);
    hide Meaning, Concat, ChatRead, ToChatEvent, Loads, Closes;
    for k := 0 to |events|
      invariant Reading(chat, finished) == ChatRead(events[..k])
    {
      ReadOneMore(events, k);
      match Loads(events[k].data) {
        case Malformed => ThrowStays(events, k + 1); return chat, Threw;
        case Value(payload) =>
          if Closes(events[k].event) { finished := true; }
          match ToChatEvent(events[k].event, payload) {
            case Throws => ThrowStays(events, k + 1); return chat, Threw;
            case Ignored =>
            case Mapped(e) => chat := chat + [e];
          }
      }
    }
    assert events[..|events|] == events;
    if !finished { ending := StreamIncomplete; }
  }

  // ---- What the client is meant to see of each server event -----------------------------

  function ViewOf(c: C.Citation): CitationView {
    CitationView(Val(Str(c.ref)), Val(Num(IntText(c.runbookId))), Val(Str(c.title)), Val(Str(c.heading)))
  }

  function ViewsOf(cited: seq<C.Citation>): seq<CitationView> {
    seq(|cited|, i requires 0 <= i < |cited| => ViewOf(cited[i]))
  }

  function ClientView(e: ServerEvent): ChatEvent {
    match e
    case MetaEvent(requestId, _, model, _, alerts, runbooks, retrieval) =>
      ChatMeta(Val(Str(requestId)), Val(Str(model)), Val(OptNat(alerts)), NatJson(runbooks), OptStr(retrieval))
    case ToolEvent(name, ok, summary) => ChatTool(Val(Str(name)), Val(Bool(ok)), Val(Str(summary)))
    case TokenEvent(delta) => ChatToken(Val(Str(delta)))
    case DoneEvent(usage, ttftMs, durationMs, finish, cited, _, _, _, _, _) =>
      ChatDone(Val(Num(ttftMs)), Val(Num(durationMs)),
               if usage.Some? then NatJson(usage.value.completionTokens) else Null, OptStr(finish),
               ViewsOf(cited))
    case ErrorEvent(code, message, requestId) => ChatError(Val(Str(code)), Val(Str(message)), Val(Str(requestId)))
  }

  /** The client's events for an output: heartbeats show nothing. */
  function ClientViews(output: seq<Output>): seq<ChatEvent> {
    if output == [] then []
    else
      var last := output[|output| - 1];
      ClientViews(output[..|output| - 1]) + (if last.Event? then [ClientView(last.event)] else [])
  }

  // ---- Payloads print and read back ------------------------------------------------------

  lemma {:induction false} DigitSpanAll(s: string)
    requires AllDigits(s)
    ensures DigitSpan(s) == |s|
  {
    if s != "" { DigitSpanAll(s[1..]); }
  }

  lemma NatIsNumber(n: nat)
    ensures IsNumber(NatText(n)) && IsNumber("-" + NatText(n))
  {
    var s := NatText(n);
    DigitSpanAll(s);
    assert s[|s|..] == "";
    assert ("-" + s)[1..] == s;
  }

  lemma IntIsNumber(n: int)
    ensures IsNumber(IntText(n))
  {
    NatIsNumber(if n < 0 then -n else n);
  }

  lemma FieldsPrintable(fields: seq<Field>)
    requires forall i | 0 <= i < |fields| :: Printable(fields[i].value)
    ensures Printable(Obj(fields))
  {
  }

  lemma OptNatPrintable(n: Option<nat>)
    ensures Printable(OptNat(n)) && (n.Some? ==> Printable(NatJson(n.value)))
  {
    if n.Some? { NatIsNumber(n.value); }
  }

  lemma UsagePrintable(usage: Option<Usage>)
    ensures Printable(UsageJson(usage))
  {
    if usage.Some? {
      OptNatPrintable(Some(usage.value.promptTokens));
      OptNatPrintable(Some(usage.value.completionTokens));
      hide NatJson;
      FieldsPrintable(UsageJson(usage).fields);
    }
  }

  lemma CitationPrintable(c: C.Citation)
    ensures Printable(CitationJson(c))
  {
    IntIsNumber(c.runbookId);
    hide IsNumber;
    FieldsPrintable(CitationJson(c).fields);
  }

  lemma DoneTotalsPrintable(e: ServerEvent)
    requires e.DoneEvent?
    ensures Printable(Obj(DoneTotals(e)))
  {
    UsagePrintable(e.usage);
    hide UsageJson, IsNumber;
    FieldsPrintable(DoneTotals(e));
  }

  lemma CitedPrintable(e: ServerEvent)
    requires e.DoneEvent?
    ensures Printable(Arr(CitationsJson(e.citations))) && Printable(Arr(InvalidJson(e.invalidCitations)))
  {
    forall i | 0 <= i < |e.citations| ensures Printable(CitationJson(e.citations[i])) {
      CitationPrintable(e.citations[i]);
    }
    hide CitationJson;
  }

  lemma DoneReadingPrintable(e: ServerEvent)
    requires e.DoneEvent?
    ensures Printable(Obj(DoneReading(e)))
  {
    hide CitationsJson, InvalidJson, NatJson, OptNat;
    CitedPrintable(e);
    OptNatPrintable(Some(e.modelCalls));
    OptNatPrintable(Some(e.toolCalls));
    OptNatPrintable(e.alertsRead);
    OptNatPrintable(Some(e.runbooksRead));
    FieldsPrintable(DoneReading(e));
  }

  lemma JoinedPrintable(a: seq<Field>, b: seq<Field>)
    requires Printable(Obj(a)) && Printable(Obj(b))
    ensures Printable(Obj(a + b))
  {
  }

  lemma DonePayload(e: ServerEvent)
    requires e.DoneEvent?
    ensures Payload(e) == Obj(DoneTotals(e) + DoneReading(e))
  {
    hide DoneTotals, DoneReading;
  }

  lemma DonePrintable(e: ServerEvent)
    requires e.DoneEvent?
    ensures Printable(Payload(e))
  {
    hide *;
    DonePayload(e);
    DoneTotalsPrintable(e);
    DoneReadingPrintable(e);
    JoinedPrintable(DoneTotals(e), DoneReading(e));
  }

  lemma PayloadPrintable(e: ServerEvent)
    ensures Printable(Payload(e))
  {
    if e.DoneEvent? {
      DonePrintable(e);
    } else {
      if e.MetaEvent? {
        OptNatPrintable(e.alertsInContext);
        OptNatPrintable(Some(e.runbooksInContext));
      }
      hide NatJson, OptNat;
      FieldsPrintable(Payload(e).fields);
    }
  }

  /** A field no later field repeats is the property's value. */
  lemma PropIs(fields: seq<Field>, i: nat, name: string)
    requires i < |fields| && fields[i].key == name
    requires forall j | i < j < |fields| :: fields[j].key != name
    ensures Prop(Obj(fields), name) == Val(fields[i].value)
  {
    LastIndexIs(fields, name, i);
  }

  lemma ViewOfCitation(c: C.Citation)
    ensures var j := CitationJson(c);
            CitationView(Prop(j, "ref"), Prop(j, "runbook_id"), Prop(j, "title"), Prop(j, "heading")) == ViewOf(c)
  {
    var fields := CitationJson(c).fields;
    PropIs(fields, 0, "ref");
    PropIs(fields, 1, "runbook_id");
    PropIs(fields, 2, "title");
    PropIs(fields, 3, "heading");
  }

  lemma OneMoreView(items: seq<Json>, item: Json, views: seq<CitationView>, c: C.Citation)
    requires ViewCitations(items) == Views(views) && item == CitationJson(c)
    ensures ViewCitations(items + [item]) == Views(views + [ViewOf(c)])
  {
    assert (items + [item])[..|items|] == items;
    ViewOfCitation(c);
    hide Prop;
  }

  lemma OneMoreCitation(cited: seq<C.Citation>, c: C.Citation)
    ensures CitationsJson(cited + [c]) == CitationsJson(cited) + [CitationJson(c)]
    ensures ViewsOf(cited + [c]) == ViewsOf(cited) + [ViewOf(c)]
  {
    hide CitationJson, ViewOf;
  }

  lemma {:induction false} ViewsOfCitations(cited: seq<C.Citation>)
    ensures ViewCitations(CitationsJson(cited)) == Views(ViewsOf(cited))
  {
    if cited != [] {
      hide *;
      var front, last := cited[..|cited| - 1], cited[|cited| - 1];
      assert cited == front + [last];
      ViewsOfCitations(front);
      OneMoreCitation(front, last);
      OneMoreView(CitationsJson(front), CitationJson(last), ViewsOf(front), last);
    }
  }

  lemma MetaProps(e: ServerEvent)
    requires e.MetaEvent?
    ensures var p := Payload(e);
            Prop(p, "request_id") == Val(Str(e.requestId)) && Prop(p, "model") == Val(Str(e.model))
  {
    var fields := Payload(e).fields;
    PropIs(fields, 0, "request_id");
    PropIs(fields, 2, "model");
    hide Prop;
  }

  lemma MoreMetaProps(e: ServerEvent)
    requires e.MetaEvent?
    ensures var p := Payload(e);
            Prop(p, "alerts_in_context") == Val(OptNat(e.alertsInContext))
            && Prop(p, "runbooks_in_context") == Val(NatJson(e.runbooksInContext))
            && Prop(p, "retrieval") == Val(OptStr(e.retrieval))
  {
    var fields := Payload(e).fields;
    PropIs(fields, 4, "alerts_in_context");
    PropIs(fields, 5, "runbooks_in_context");
    PropIs(fields, 6, "retrieval");
    hide Prop;
  }

  lemma MetaMaps(e: ServerEvent)
    requires e.MetaEvent?
    ensures MetaFrom(Payload(e)) == ClientView(e)
  {
    MetaProps(e);
    MoreMetaProps(e);
    hide Prop, Payload;
  }

  /** ... and no field of a second list. */
  lemma PropOfFirst(a: seq<Field>, b: seq<Field>, i: nat, name: string)
    requires i < |a| && a[i].key == name
    requires (forall j | i < j < |a| :: a[j].key != name) && forall j | 0 <= j < |b| :: b[j].key != name
    ensures Prop(Obj(a + b), name) == Val(a[i].value)
  {
    PropIs(a + b, i, name);
    hide Prop;
  }

  lemma PropOfSecond(a: seq<Field>, b: seq<Field>, i: nat, name: string)
    requires i < |b| && b[i].key == name && forall j | i < j < |b| :: b[j].key != name
    ensures Prop(Obj(a + b), name) == Val(b[i].value)
  {
    PropIs(a + b, |a| + i, name);
    hide Prop;
  }

  lemma DoneTotalsProps(e: ServerEvent)
    requires e.DoneEvent?
    ensures var p := Obj(DoneTotals(e) + DoneReading(e));
            && Prop(p, "usage") == Val(UsageJson(e.usage)) && Prop(p, "ttft_ms") == Val(Num(e.ttftMs))
            && Prop(p, "duration_ms") == Val(Num(e.durationMs))
            && Prop(p, "finish_reason") == Val(OptStr(e.finishReason))
  {
    hide Prop, UsageJson, OptStr, CitationsJson, InvalidJson, NatJson, OptNat;
    PropOfFirst(DoneTotals(e), DoneReading(e), 0, "usage");
    PropOfFirst(DoneTotals(e), DoneReading(e), 1, "ttft_ms");
    PropOfFirst(DoneTotals(e), DoneReading(e), 2, "duration_ms");
    PropOfFirst(DoneTotals(e), DoneReading(e), 3, "finish_reason");
  }

  lemma DoneCitations(e: ServerEvent)
    requires e.DoneEvent?
    ensures Prop(Obj(DoneTotals(e) + DoneReading(e)), "citations") == Val(Arr(CitationsJson(e.citations)))
  {
    hide Prop, DoneTotals, CitationsJson, InvalidJson, NatJson, OptNat;
    PropOfSecond(DoneTotals(e), DoneReading(e), 0, "citations");
  }

  lemma UsageProp(usage: Option<Usage>)
    ensures OrElse(OptionalProp(Val(UsageJson(usage)), "completion_tokens"), Null)
            == if usage.Some? then NatJson(usage.value.completionTokens) else Null
  {
    if usage.Some? { PropIs(UsageJson(usage).fields, 1, "completion_tokens"); }
  }

  lemma DoneMaps(e: ServerEvent)
    requires e.DoneEvent?
    ensures DoneFrom(Payload(e)) == Mapped(ClientView(e))
  {
    hide Prop, Payload, UsageJson, ViewCitations, CitationsJson, ViewsOf, OptionalProp, DoneTotals, DoneReading;
    DonePayload(e);
    DoneTotalsProps(e);
    DoneCitations(e);
    ViewsOfCitations(e.citations);
    UsageProp(e.usage);
  }

  // ---- What every field of a payload says ---------------------------------------------

  /** A number that reads as `n`. */
  ghost predicate IsInt(js: Js, n: int) {
    js.Val? && js.value.Num? && ReadInt(js.value.literal) == Read(n)
  }

  ghost predicate IsOptNat(js: Js, n: Option<nat>) {
    if n.Some? then IsInt(js, n.value) else js == Val(Null)
  }

  ghost predicate IsOptStr(js: Js, s: Option<string>) {
    js == Val(if s.Some? then Str(s.value) else Null)
  }

  lemma NatReads(n: nat)
    ensures IsInt(Val(NatJson(n)), n) && IsOptNat(Val(OptNat(Some(n))), Some(n))
  {
    IntTextReadsBack(n);
    assert IntText(n) == NatText(n);
    hide NatText, ReadInt;
  }

  lemma OptNatReads(n: Option<nat>)
    ensures IsOptNat(Val(OptNat(n)), n)
  {
    if n.Some? { NatReads(n.value); }
    hide NatJson, IsInt;
  }

  lemma RestOfMetaProps(e: ServerEvent)
    requires e.MetaEvent?
    ensures var p := Payload(e);
            Prop(p, "trace_id") == Val(OptStr(e.traceId)) && Prop(p, "mode") == Val(Str(e.mode))
  {
    var fields := Payload(e).fields;
    PropIs(fields, 1, "trace_id");
    PropIs(fields, 3, "mode");
    hide Prop;
  }

  /** `meta` says every setting under its own name. */
  lemma MetaPayloadSays(e: ServerEvent)
    requires e.MetaEvent?
    ensures var p := Payload(e);
            && Prop(p, "request_id") == Val(Str(e.requestId)) && IsOptStr(Prop(p, "trace_id"), e.traceId)
            && Prop(p, "model") == Val(Str(e.model)) && Prop(p, "mode") == Val(Str(e.mode))
            && IsOptNat(Prop(p, "alerts_in_context"), e.alertsInContext)
            && IsInt(Prop(p, "runbooks_in_context"), e.runbooksInContext)
            && IsOptStr(Prop(p, "retrieval"), e.retrieval)
  {
    hide Payload, Prop, NatJson, OptNat, IsInt, IsOptNat;
    MetaProps(e);
    MoreMetaProps(e);
    RestOfMetaProps(e);
    OptNatReads(e.alertsInContext);
    NatReads(e.runbooksInContext);
  }

  lemma ReadingProps(e: ServerEvent)
    requires e.DoneEvent?
    ensures var p := Obj(DoneTotals(e) + DoneReading(e));
            && Prop(p, "invalid_citations") == Val(Arr(InvalidJson(e.invalidCitations)))
            && Prop(p, "model_calls") == Val(NatJson(e.modelCalls))
            && Prop(p, "tool_calls") == Val(NatJson(e.toolCalls))
  {
    hide Prop, DoneTotals, CitationsJson, InvalidJson, NatJson, OptNat;
    PropOfSecond(DoneTotals(e), DoneReading(e), 1, "invalid_citations");
    PropOfSecond(DoneTotals(e), DoneReading(e), 2, "model_calls");
    PropOfSecond(DoneTotals(e), DoneReading(e), 3, "tool_calls");
  }

  lemma CountProps(e: ServerEvent)
    requires e.DoneEvent?
    ensures var p := Obj(DoneTotals(e) + DoneReading(e));
            && Prop(p, "alerts_in_context") == Val(OptNat(e.alertsRead))
            && Prop(p, "runbooks_in_context") == Val(NatJson(e.runbooksRead))
  {
    hide Prop, DoneTotals, CitationsJson, InvalidJson, NatJson, OptNat;
    PropOfSecond(DoneTotals(e), DoneReading(e), 4, "alerts_in_context");
    PropOfSecond(DoneTotals(e), DoneReading(e), 5, "runbooks_in_context");
  }

  /** `done` says the totals under their own names. */
  lemma DonePayloadSays(e: ServerEvent)
    requires e.DoneEvent?
    ensures var p := Payload(e);
            && Prop(p, "usage") == Val(UsageJson(e.usage))
            && Prop(p, "ttft_ms") == Val(Num(e.ttftMs)) && Prop(p, "duration_ms") == Val(Num(e.durationMs))
            && IsOptStr(Prop(p, "finish_reason"), e.finishReason)
            && Prop(p, "citations") == Val(Arr(CitationsJson(e.citations)))
            && Prop(p, "invalid_citations") == Val(Arr(InvalidJson(e.invalidCitations)))
            && IsInt(Prop(p, "model_calls"), e.modelCalls) && IsInt(Prop(p, "tool_calls"), e.toolCalls)
            && IsOptNat(Prop(p, "alerts_in_context"), e.alertsRead)
            && IsInt(Prop(p, "runbooks_in_context"), e.runbooksRead)
  {
    hide Payload, Prop, NatJson, OptNat, IsInt, IsOptNat, DoneTotals, DoneReading;
    hide CitationsJson, InvalidJson, UsageJson;
    DonePayload(e);
    DoneTotalsProps(e);
    DoneCitations(e);
    ReadingProps(e);
    CountProps(e);
    NatReads(e.modelCalls);
    NatReads(e.toolCalls);
    OptNatReads(e.alertsRead);
    NatReads(e.runbooksRead);
  }

  /** ... with the usage by kind, each citation's number, runbook, title and
      heading, and the numbers no section has. */
  lemma PartsSay(usage: Option<Usage>, cited: seq<C.Citation>, invalid: seq<string>)
    ensures if usage.None? then UsageJson(usage) == Null
            else IsInt(Prop(UsageJson(usage), "prompt_tokens"), usage.value.promptTokens)
                 && IsInt(Prop(UsageJson(usage), "completion_tokens"), usage.value.completionTokens)
    ensures |CitationsJson(cited)| == |cited|
    ensures forall i | 0 <= i < |cited| ::
              var c := CitationsJson(cited)[i];
              Prop(c, "ref") == Val(Str(cited[i].ref)) && IsInt(Prop(c, "runbook_id"), cited[i].runbookId)
              && Prop(c, "title") == Val(Str(cited[i].title)) && Prop(c, "heading") == Val(Str(cited[i].heading))
    ensures |InvalidJson(invalid)| == |invalid|
    ensures forall i | 0 <= i < |invalid| :: InvalidJson(invalid)[i] == Str(invalid[i])
  {
    if usage.Some? { UsageSays(usage.value); }
    hide UsageJson;
    forall i | 0 <= i < |cited|
      ensures var c := CitationsJson(cited)[i];
              Prop(c, "ref") == Val(Str(cited[i].ref)) && IsInt(Prop(c, "runbook_id"), cited[i].runbookId)
              && Prop(c, "title") == Val(Str(cited[i].title)) && Prop(c, "heading") == Val(Str(cited[i].heading))
    {
      CitationSays(cited[i]);
    }
    hide CitationJson, Prop, IsInt;
  }

  lemma UsageSays(u: Usage)
    ensures var j := UsageJson(Some(u));
            IsInt(Prop(j, "prompt_tokens"), u.promptTokens) && IsInt(Prop(j, "completion_tokens"), u.completionTokens)
  {
    hide Prop, NatJson, IsInt;
    PropIs(UsageJson(Some(u)).fields, 0, "prompt_tokens");
    PropIs(UsageJson(Some(u)).fields, 1, "completion_tokens");
    NatReads(u.promptTokens);
    NatReads(u.completionTokens);
  }

  lemma CitationSays(c: C.Citation)
    ensures var j := CitationJson(c);
            Prop(j, "ref") == Val(Str(c.ref)) && IsInt(Prop(j, "runbook_id"), c.runbookId)
            && Prop(j, "title") == Val(Str(c.title)) && Prop(j, "heading") == Val(Str(c.heading))
  {
    hide Prop, IntText, ReadInt;
    var fields := CitationJson(c).fields;
    PropIs(fields, 0, "ref");
    PropIs(fields, 1, "runbook_id");
    PropIs(fields, 2, "title");
    PropIs(fields, 3, "heading");
    IntTextReadsBack(c.runbookId);
  }

  // ---- Payloads the api does not send ----------------------------------------------------

  /** A property that is missing or null. */
  predicate Nullish(payload: Json, name: string) {
    Prop(payload, name).Undefined? || Prop(payload, name) == Val(Null)
  }

  lemma {:induction false} ViewsThrowExactly(items: seq<Json>)
    ensures ViewCitations(items).NotCitations? <==> exists i | 0 <= i < |items| :: items[i] == Null
    ensures ViewCitations(items).Views? ==> |ViewCitations(items).citations| == |items|
  {
    hide Prop;
    if items != [] {
      var n := |items| - 1;
      ViewsThrowExactly(items[..n]);
      assert forall i | 0 <= i < n :: items[i] == items[..n][i];
    }
  }

  /** Mapping fails exactly on the null payload of a known event, and on
      citations that are no list of things. */
  lemma ThrowsExactly(name: string, payload: Json)
    ensures var known := name == "meta" || name == "token" || name == "tool" || name == "done" || name == "error";
            && (ToChatEvent(name, payload).Ignored? <==> !known)
            && (ToChatEvent(name, payload).Throws? <==>
                  known && (payload == Null
                            || (name == "done" && !Nullish(payload, "citations")
                                && var list := Prop(payload, "citations").value;
                                   !list.Arr? || exists i | 0 <= i < |list.items| :: list.items[i] == Null)))
  {
    hide Prop, ViewCitations;
    var list := OrElse(Prop(payload, "citations"), Arr([]));
    if list.Arr? { ViewsThrowExactly(list.items); }
  }

  /** What a payload leaves out or has as null is read as nothing. */
  lemma DefaultsAre(payload: Json)
    requires payload != Null
    ensures Nullish(payload, "runbooks_in_context") ==> MetaFrom(payload).runbooksInContext == Num("0")
    ensures Nullish(payload, "retrieval") ==> MetaFrom(payload).retrieval == Null
    ensures Nullish(payload, "citations") ==> DoneFrom(payload).Mapped? && DoneFrom(payload).event.citations == []
    ensures DoneFrom(payload).Mapped? && Nullish(payload, "usage") ==> DoneFrom(payload).event.completionTokens == Null
    ensures DoneFrom(payload).Mapped? && Nullish(payload, "finish_reason") ==>
              DoneFrom(payload).event.finishReason == Null
  {
    hide Prop;
    assert ViewCitations([]) == Views([]);
    hide ViewCitations;
  }

  /** The client's field names are the api's, so every server event is mapped
      to what the client is meant to see of it. */
  lemma EventMaps(e: ServerEvent)
    ensures ToChatEvent(EventName(e), Payload(e)) == Mapped(ClientView(e))
    ensures Closes(EventName(e)) <==> IsClosing(e)
  {
    if e.MetaEvent? { MetaMaps(e); }
    else if e.DoneEvent? { DoneMaps(e); }
    else { SmallEventMaps(e); }
    hide MetaFrom, DoneFrom, ErrorFrom, Prop, ClientView;
    NameChooses(EventName(e), Payload(e));
  }

  lemma NameChooses(name: string, payload: Json)
    requires payload != Null
    ensures name == "meta" ==> ToChatEvent(name, payload) == Mapped(MetaFrom(payload)) && !Closes(name)
    ensures name == "token" ==> ToChatEvent(name, payload) == Mapped(ChatToken(Prop(payload, "delta"))) && !Closes(name)
    ensures name == "tool" ==>
              ToChatEvent(name, payload)
              == Mapped(ChatTool(Prop(payload, "name"), Prop(payload, "ok"), Prop(payload, "summary")))
              && !Closes(name)
    ensures name == "done" ==> ToChatEvent(name, payload) == DoneFrom(payload) && Closes(name)
    ensures name == "error" ==> ToChatEvent(name, payload) == Mapped(ErrorFrom(payload)) && Closes(name)
  {
    hide MetaFrom, DoneFrom, ErrorFrom, Prop;
  }

  lemma SmallEventMaps(e: ServerEvent)
    ensures e.ToolEvent? ==>
              var p := Payload(e);
              ChatTool(Prop(p, "name"), Prop(p, "ok"), Prop(p, "summary")) == ClientView(e)
    ensures e.TokenEvent? ==> ChatToken(Prop(Payload(e), "delta")) == ClientView(e)
    ensures e.ErrorEvent? ==> ErrorFrom(Payload(e)) == ClientView(e)
  {
    var fields := Payload(e).fields;
    if e.ToolEvent? {
      PropIs(fields, 0, "name");
      PropIs(fields, 1, "ok");
      PropIs(fields, 2, "summary");
    } else if e.TokenEvent? {
      PropIs(fields, 0, "delta");
    } else if e.ErrorEvent? {
      PropIs(fields, 0, "code");
      PropIs(fields, 1, "message");
      PropIs(fields, 2, "request_id");
    }
    hide Prop;
  }

  // ---- End to end ---------------------------------------------------------------------------

  lemma FramesWellFormed(output: seq<Output>)
    ensures AllWellFormed(Frames(output))
  {
    forall i | 0 <= i < |output| ensures WellFormed(FrameOf(output[i])) {
      FrameWellFormed(output[i]);
    }
    hide FrameOf;
  }

  lemma NameIsOneLine(e: ServerEvent)
    ensures OneLine(EventName(e))
  {
  }

  lemma FrameWellFormed(o: Output)
    ensures WellFormed(FrameOf(o))
  {
    hide Payload, DumpsCompact, OneLine;
    if o.Event? {
      PayloadPrintable(o.event);
      PayloadIsOneLine(Payload(o.event));
      NameIsOneLine(o.event);
    }
  }

  ghost predicate HasClosing(output: seq<Output>) {
    exists i | 0 <= i < |output| :: output[i].Event? && IsClosing(output[i].event)
  }

  function EventOf(frame: Frame): seq<SseEvent> {
    if frame.Event? then [SseEvent(frame.name, frame.payload, None)] else []
  }

  lemma EventsOfFirst(frames: seq<Frame>)
    requires |frames| > 0
    ensures EventsOf(frames) == EventOf(frames[0]) + EventsOf(frames[1..])
  {
  }

  lemma EventsOfNone(frames: seq<Frame>)
    requires |frames| == 0
    ensures EventsOf(frames) == []
  {
  }

  lemma FirstAndLast<T>(s: seq<T>)
    requires |s| > 1
    ensures s[..|s| - 1][1..] == s[1..][..|s| - 2] && s[..|s| - 1][0] == s[0] && s[1..][|s| - 2] == s[|s| - 1]
  {
  }

  lemma {:induction false} EventsOfLast(frames: seq<Frame>)
    requires |frames| > 0
    ensures EventsOf(frames) == EventsOf(frames[..|frames| - 1]) + EventOf(frames[|frames| - 1])
  {
    hide *;
    var front := frames[..|frames| - 1];
    EventsOfFirst(frames);
    if |frames| > 1 {
      FirstAndLast(frames);
      EventsOfFirst(front);
      EventsOfLast(frames[1..]);
      Grouped(EventOf(frames[0]), EventsOf(front[1..]), EventOf(frames[|frames| - 1]));
    } else {
      EventsOfNone(front);
      EventsOfNone(frames[1..]);
      assert EventOf(frames[0]) + [] == [] + EventOf(frames[0]);
    }
  }

  lemma SentShowsView(state: ChatState, e: ServerEvent)
    requires state.Reading?
    ensures ChatStep(state, EventSent(e))
            == Reading(state.chat + [ClientView(e)], state.finished || IsClosing(e))
  {
    PayloadPrintable(e);
    LoadsDumpsCompact(Payload(e));
    EventMaps(e);
    hide Payload, EventName, ClientView, ToChatEvent, Loads, DumpsCompact, Closes, IsClosing;
  }

  function EventSent(e: ServerEvent): SseEvent {
    SseEvent(EventName(e), DumpsCompact(Payload(e)), None)
  }

  lemma EventsOfOutput(output: seq<Output>)
    requires output != []
    ensures var last := output[|output| - 1];
            EventsOf(Frames(output))
            == EventsOf(Frames(output[..|output| - 1])) + (if last.Event? then [EventSent(last.event)] else [])
  {
    EventsOfLast(Frames(output));
    assert Frames(output)[..|output| - 1] == Frames(output[..|output| - 1]);
    hide EventsOf, Payload, EventName, DumpsCompact;
  }

  lemma ReadAppend(before: seq<SseEvent>, event: SseEvent)
    ensures ChatRead(before + [event]) == ChatStep(ChatRead(before), event)
  {
    assert (before + [event])[..|before|] == before;
    hide ChatStep;
  }

  lemma ClientViewsLast(output: seq<Output>)
    requires output != []
    ensures var last := output[|output| - 1];
            ClientViews(output)
            == ClientViews(output[..|output| - 1]) + (if last.Event? then [ClientView(last.event)] else [])
  {
    hide ClientView;
  }

  lemma NothingSent()
    ensures ChatRead(EventsOf(Frames([]))) == Reading(ClientViews([]), HasClosing([]))
  {
    assert Frames([]) == [];
  }

  lemma {:induction false} ReadsViews(output: seq<Output>)
    ensures ChatRead(EventsOf(Frames(output))) == Reading(ClientViews(output), HasClosing(output))
  {
    hide *;
    if |output| == 0 {
      NothingSent();
      assert output == [];
    } else {
      var front, last := output[..|output| - 1], output[|output| - 1];
      ReadsViews(front);
      HasClosingLast(output);
      ClientViewsLast(output);
      EventsOfOutput(output);
      var before := EventsOf(Frames(front));
      if last.Event? {
        SentShowsView(ChatRead(before), last.event);
        ReadAppend(before, EventSent(last.event));
      } else {
        assert before + [] == before && ClientViews(front) + [] == ClientViews(front);
      }
    }
  }

  lemma HasClosingLast(output: seq<Output>)
    requires output != []
    ensures var last := output[|output| - 1];
            HasClosing(output) <==> HasClosing(output[..|output| - 1]) || (last.Event? && IsClosing(last.event))
  {
    var front := output[..|output| - 1];
    if HasClosing(front) {
      var i :| 0 <= i < |front| && front[i].Event? && IsClosing(front[i].event);
      assert output[i] == front[i];
    }
    if HasClosing(output) {
      var i :| 0 <= i < |output| && output[i].Event? && IsClosing(output[i].event);
      if i < |front| { assert front[i] == output[i]; }
    }
  }

  /** The stream an answer puts on the wire. */
  function AnswerWire(output: seq<Output>): string {
    Wire(Frames(output))
  }

  /** Whatever part of an answer's stream arrives - `n` characters, then
      possibly what the decoder makes of half a character - and however it is
      cut into reads: the client sees exactly the events that arrived whole,
      and the answer counts as complete exactly when the closing event did. */
  lemma ClientSeesWholeEvents(output: seq<Output>, n: nat, tail: string)
    requires n <= |AnswerWire(output)| && OneLine(tail)
    ensures var k := Whole(Frames(output), n);
            ChatRun(Meaning(AnswerWire(output)[..n] + tail))
            == (ClientViews(output[..k]), if HasClosing(output[..k]) then Complete else StreamIncomplete)
  {
    FramesWellFormed(output);
    CutWireMeans(Frames(output), n, tail);
    var k := Whole(Frames(output), n);
    assert Frames(output)[..k] == Frames(output[..k]);
    ReadsViews(output[..k]);
  }

  /** The two ends together: of an answer produced in any interleaving, cut
      off anywhere and read in any pieces, the client sees the events that
      arrived whole, never chokes on one, and reports the answer complete
      exactly when all of it, closing event included, has arrived. */
  lemma AnswerReceived(c: Setting, steps: seq<Step>, n: nat, tail: string)
    requires n <= |AnswerWire(Run(c, Initial, steps).output)| && OneLine(tail)
    ensures var output := Run(c, Initial, steps).output;
            var k := Whole(Frames(output), n);
            var (chat, ending) := ChatRun(Meaning(AnswerWire(output)[..n] + tail));
            && chat == ClientViews(output[..k])
            && ending != Threw
            && (ending == Complete <==> k == |output| && HasClosing(output))
  {
    var output := Run(c, Initial, steps).output;
    ClientSeesWholeEvents(output, n, tail);
    OutputInOrder(c, steps);
    ClosingIsLast(c, output, Whole(Frames(output), n));
  }

  lemma ClosingIsNotMiddle(e: ServerEvent)
    requires IsClosing(e)
    ensures !Middle(Output.Event(e)) && !e.MetaEvent?
  {
  }

  lemma ClosingAt(c: Setting, output: seq<Output>, i: nat)
    requires InOrder(c, output) && i < |output| && output[i].Event? && IsClosing(output[i].event)
    ensures i == |output| - 1
  {
    ClosingIsNotMiddle(output[i].event);
    assert Metadata(c).MetaEvent?;
    hide Metadata, Middle;
  }

  lemma ClosingIsLast(c: Setting, output: seq<Output>, k: nat)
    requires InOrder(c, output) && k <= |output|
    ensures HasClosing(output[..k]) <==> k == |output| && HasClosing(output)
  {
    hide InOrder, IsClosing;
    if k == |output| {
      assert output[..k] == output;
    } else if HasClosing(output[..k]) {
      var i :| 0 <= i < k && output[..k][i].Event? && IsClosing(output[..k][i].event);
      assert output[i] == output[..k][i];
      ClosingAt(c, output, i);
    }
  }
}
