# Triage assistant: a verified model of its algorithmic core

A Dafny model of the parts of the triage assistant that branch, loop or keep
state over a whole run, with proofs of what they promise. The service answers
on-call questions about alerts from a team's runbooks; the model covers how an
answer is produced, sent, read and cut off, how runbooks are split and
searched, how alerts are read and paged through, what the agent may do, how
evaluation runs are compared, who may see what, and how requests are limited.

`dafny verify dfyconfig.toml` checks everything.

## How it is laid out

One module per file. Code that the repository writes step by step is a method
or a class here, with its loops; each is tied to a specification function or
state machine, and the properties are proved about that.

| file | models |
|---|---|
| `Common.dfy`, `Decimal.dfy`, `Whitespace.dfy`, `Ranking.dfy` | lists and texts, decimal numbers, Python's words and white space, sorting by a two-part key |
| `Json.dfy`, `JsonGrammar.dfy`, `JsonPrint.dfy` | JSON text as `json.dumps`, `json.loads` and `JSON.parse` print and read it (RFC 8259), against the grammar and the printed form said without them |
| `EventStream.dfy`, `Sse.dfy` | `parseSSE`, and the wire format of `sse()` (WHATWG HTML Standard, sections 9.2.5 and 9.2.6) |
| `AnswerStream.dfy` | `answer_events`: producer, bounded queue, generator, hang-ups |
| `ChatClient.dfy` | the payloads, `streamChat`, and the stream from end to end |
| `Citations.dfy` | section numbers over a run, and `citations` |
| `Canonical.dfy`, `Agent.dfy`, `ToolAssembly.dfy` | `_canonical`, the agent loop, tool calls put together from fragments |
| `Packing.dfy`, `Runbooks.dfy` | `_limit` and `split_sections` |
| `Fusion.dfy` | reciprocal rank fusion and the search's modes |
| `Alerts.dfy` | `newest_alerts` and the pages of `list_alerts` |
| `Fisher.dfy` | `fisher_worse` and `regressions` |
| `Access.dfy`, `Sessions.dfy` | roles, row policies, settings on pooled connections |
| `Limiter.dfy` | the fixed-window limiter |

## What is proved, in short

- **Reading a stream.** However a body is cut into reads, also between `\r`
  and `\n`, `parseSSE` yields what the whole text means, and never takes back
  what it yielded early. Whatever prefix of an answer's stream arrives, the
  client sees exactly the events that arrived whole, and reports completion
  exactly when the closing event did (`EventStream.ParseSSE`,
  `ChatClient.AnswerReceived`).
- **JSON.** The reader accepts exactly the grammar of RFC 8259 and reads each
  text as the one value it writes; the printer's two forms are read back
  (`JsonGrammar.LoadsExactly`, `JsonPrint.DumpsIs`).
- **Producing an answer.** In every interleaving of source, queue, heartbeats,
  time limit and hang-up: the order of events, one counted outcome per ending,
  conservation through the queue of 64, and totals that account for all the
  source emitted (`AnswerStream`).
- **Runbooks.** The heading stack equals its look-back definition; words are
  conserved and bounded; the packing is optimal among all groupings
  (`Runbooks`, `Packing`). Fusion ranks agreement above any single list
  exactly when lists are less than two longer than the constant (`Fusion`).
- **Alerts.** The per-team merge equals filter, sort and take; a cursor walk
  over changing tables misses nothing and repeats nothing (`Alerts`).
- **The agent.** Bounded model calls, well-formed transcripts, no repeated
  call, stable citation numbers, fragment-proof tool calls (`Agent`,
  `Citations`, `ToolAssembly`).
- **Fisher's test** counts the draws it is meant to count, with Vandermonde's
  identity as a consequence (`Fisher`).
- **Who is asking.** In every interleaving over shared connections, the row
  policies agree with `require_role` (`Sessions.RowsFollowRoles`).
- **The limiter.** No counter expires inside its own window; in any interval of
  a window's length at most twice the limit is allowed when no request finds
  its counter expired, fewer than four times in every run with requests at most
  half a window's length on their way, and at most four times with requests
  less than a window's length on theirs (`Limiter`).

## Where a promise holds only under a condition

- A hang-up while `meta` is being sent ends the generator before its `try`:
  the gauge of active streams stays raised and no outcome is counted. Every
  other ending counts (`AnswerStream.HangUpAtMetaLeaks`).
- `[Rn]` in an answer is recognised exactly when n is below 100: the pattern
  takes two digits (`Citations.ShownNumberRecognised`).
- Keys of calls tell exactly whether they repeat each other unless one name,
  with a colon after it, begins the other; then two different calls can share
  a key (`Agent.KeysDecideExactly`). No tool's name has a colon.
- The LATERAL merge is right on every table exactly when no team is listed
  twice or at most one row is asked for (`Alerts.RightWhenTeamsDistinct`).
- `role_in` takes a team's first entry and `team_ids` any: policies and roles
  agree exactly when no later entry of a team has a higher role than its first
  (`Access.PoliciesAgreeExactly`). Memberships have one row per team.
- A session's current settings, and no others, are in force exactly when no
  other name was given a value within its transaction
  (`Sessions.OwnSettingsInForceExactly`): earlier names stay until it ends.
  Every caller gives a session one set of names.
- A window stays within every limit exactly when none of its requests finds its
  counter expired (`Limiter.WindowHoldsExactly`); a request made at the end of
  its window can, however soon it reaches the store. The module comment of
  `ratelimit.py` says a client can send up to twice the limit across a window
  boundary: that holds of every run exactly when requests take no time to reach
  the store (`Limiter.TwiceHoldsExactly`). With delays of at most half a
  window, as the code's 0.4 s is of its windows, 4 * limit - 1 holds
  (`Limiter.FewerThanFourTimes`), which is 3 at limit 1, and reached. With
  delays near a window's length four times the limit is reached
  (`Limiter.FourTimesIsReached`), and no more
  (`Limiter.AtMostFourTimesTheLimit`).

## Model

| member | source | states |
|---|---|---|
| Json.LoadsAnySpelling | apps/api/app/agent.py:131-135 | any text of a JSON value - any white space between tokens, every character of every string written in any of its ways, `\/`, `\u0041` and surrogate pairs included - loads as that value |
| Json.LoadsDumpsCompact | apps/api/app/sse.py:30-32 | a payload printed compactly loads as itself |
| Json.LoadsDumps | apps/api/app/agent.py:131-135 | a value printed by `json.dumps` loads as itself |
| Json.RawEndIsMalformed | apps/api/app/agent.py:131-135 | a text that ends with U+0001 is never JSON |
| JsonGrammar.NumbersAre | apps/api/app/agent.py:131-135 | the number literals read are those of section 6 of RFC 8259: an optional minus, a whole part without leading zeros, an optional fraction and exponent |
| JsonGrammar.LoadsExactly | apps/web/src/lib/api.ts:94 | a text loads as a value exactly when it is a text of it: tokens of the value with white space between them, every string in any of its spellings; anything else is malformed |
| JsonGrammar.WrittenOnce | apps/api/app/agent.py:131-135 | no text is a text of two values |
| JsonPrint.EscapeCharIs | apps/api/app/sse.py:30-32 | which characters a printed string shows as they are, which by a letter, and which by their code in lower-case digits, a pair of codes outside the Basic Multilingual Plane |
| JsonPrint.DumpsCompactIs | apps/api/app/sse.py:30-32 | the compact form has "," and ":" alone between members |
| JsonPrint.DumpsIs | apps/api/app/agent.py:131-135 | the default form has ", " and ": " |
| JsonPrint.DumpsIsAscii | apps/api/app/agent.py:131-135 | the default form is printable ASCII whatever the value |
| Canonical.SameSortsEqual | apps/api/app/agent.py:131-135 | two values are the same up to key order exactly when sorting their keys makes them equal |
| Canonical.CanonicalDecidesSameness | apps/api/app/agent.py:131-135 | two argument texts have one canonical form exactly when they are the same arguments - numbers by what Python prints for them, so 1e2 is 100.0 - and unreadable texts only when identical |
| Canonical.SpacingAndKeyOrderIgnored | apps/api/app/agent.py:131-135 | the canonical form ignores spacing, how characters and numbers are written, and key order |
| Canonical.EmptyAndNumbers | apps/api/app/agent.py:131-135 | no arguments are the empty object, and a number is what Python reads |
| Canonical.KeysAscend | apps/api/app/agent.py:131-135 | the keys of a sorted object ascend by code point |
| Canonical.NumberedReprints | apps/api/app/agent.py:131-135 | every number in the arguments, at any depth, is printed as Python does, in its place |
| Canonical.NumberedElse | apps/api/app/agent.py:131-135 | and nothing else in them changes |
| EventStream.ParseSSE | apps/web/src/lib/sse.ts:22-64 | for every way of cutting a text into reads, the events are those of the whole text read in one go, and after each read they are those of its settled part |
| EventStream.CutExtends | apps/web/src/lib/sse.ts:33-41 | cutting lines can stop at any read and go on with what is left in the buffer |
| EventStream.CutFindsLines | apps/web/src/lib/sse.ts:35-40 | the lines cut are those of the text with every line end made "\n", a trailing "\r" held back until its other half is known |
| EventStream.DispatchesEvents | apps/web/src/lib/sse.ts:42-57 | line by line the code yields what the blocks between blank lines mean: last event name, joined data, last id so far |
| EventStream.SettledIsPrefix | apps/web/src/lib/sse.ts:36-59 | what is yielded early is a prefix of what any continuation of the text means |
| Sse.PayloadIsOneLine | apps/api/app/sse.py:27-32 | a printed payload holds no line end, so one data line carries it |
| Sse.WireMeans | apps/api/app/sse.py:27-32 | events and heartbeats printed one after another read back as the events |
| Sse.CutWireMeans | apps/web/src/lib/sse.ts:36-59 | cut after any number of characters, even inside a character, the stream means exactly its whole frames |
| Sse.Whole | apps/api/app/sse.py:27-32 | which frames lie wholly in a prefix of the stream |
| AnswerStream.Answer.constructor | apps/api/app/triage.py:237-260 | the generator's variables before its first step |
| AnswerStream.Answer.Begin | apps/api/app/triage.py:261-277 | the first step raises the gauge and yields `meta` |
| AnswerStream.Answer.PutItem | apps/api/app/triage.py:239-248 | the source's item goes to the end of a queue that has room |
| AnswerStream.Answer.SourceEnds | apps/api/app/triage.py:239-248 | return, exception and time limit each leave their terminal item to be put, the time limit as `llm_timeout` |
| AnswerStream.Answer.PutTerminal | apps/api/app/triage.py:239-248 | the terminal item waits for room like any other |
| AnswerStream.Answer.GetItem | apps/api/app/triage.py:279-354 | what taking the head of the queue does, for every kind of item |
| AnswerStream.Answer.HandleItem | apps/api/app/triage.py:291-307 | usage added to what there was, prompt and completion tokens each; finish and calls counted; tools and tokens yielded |
| AnswerStream.Answer.FinishAnswer | apps/api/app/triage.py:308-354 | an answer without a word is an error; otherwise `done` with totals and citations, truncated at finish "length" |
| AnswerStream.Answer.SendHeartbeat | apps/api/app/triage.py:280-284 | a silent source makes the generator yield a heartbeat |
| AnswerStream.Answer.Continue | apps/api/app/triage.py:277-281 | what asking for the next event resumes, the producer's start included |
| AnswerStream.Answer.Close | apps/api/app/triage.py:355-379 | a hang-up runs the cleanup, except before and at `meta` |
| AnswerStream.Answer.CleanUp | apps/api/app/triage.py:371-379 | the producer cancelled, the gauge lowered once, one outcome counted, the usage counted |
| AnswerStream.StepKeeps | apps/api/app/triage.py:237-379 | every step of every interleaving keeps the invariant on queue, totals, output and phase |
| AnswerStream.Reachable | apps/api/app/triage.py:237-379 | every reachable state meets the invariant |
| AnswerStream.OutputInOrder | apps/api/app/triage.py:261-354 | `meta` first, then tokens, tools and heartbeats, then at most one `done` or `error` and nothing after it |
| AnswerStream.MetaTells | apps/api/app/triage.py:261-276 | in every run `meta` says the request, trace, model, mode, counts and retrieval it was set up with |
| AnswerStream.ErrorTells | apps/api/app/triage.py:285-315 | in every run `error` says the code and message of the failure the source ended with, or that an answer without text ended, with its finish, and the request |
| AnswerStream.OneEventPerAsking | apps/api/app/triage.py:261-354 | in every run each event and heartbeat answers one asking of the client: none is yielded unasked |
| AnswerStream.EveryEndingCounted | apps/api/app/triage.py:355-379 | past `meta` every ending stops the producer, lowers the gauge once, counts the tokens of all usage taken and one outcome, which the last event decides |
| AnswerStream.QueueConserves | apps/api/app/triage.py:237-248 | what was taken and what is queued are what was put, in order; at most 64 queued; at most one terminal item, last |
| AnswerStream.DoneAccountsForAll | apps/api/app/triage.py:317-354 | at `done` the tokens are the source's whole text; usage is None exactly when the source reported none, else the sums of all prompt and of all completion tokens; counts are all its model and tool calls |
| AnswerStream.DoneComesFromEnd | apps/api/app/triage.py:285-354 | `done` is sent by the step that takes the end of the source, with the sections of that moment |
| AnswerStream.DoneCitesSections | apps/api/app/triage.py:317-354 | `done` cites and counts the sections there when the source has ended, the pipeline's fixed list or the agent's |
| AnswerStream.AgentDoneCites | apps/api/app/triage.py:317-354 | a number shown with a section during an agent's run and mentioned in its answer is cited with that section's runbook, title and heading |
| AnswerStream.HangUpAtMetaLeaks | apps/api/app/triage.py:261-278 | an ending leaves the gauge raised exactly when it came while `meta` was being sent, and counts no outcome exactly when the producer never started |
| AnswerStream.EndIsReached | apps/api/app/triage.py:239-289 | once the source has ended and the client keeps asking, a bounded number of steps leads to the closing event, from a full queue too |
| AnswerStream.EveryScheduleEnds | apps/api/app/triage.py:239-289 | once the source has ended, every order of the steps that drain the queue reaches the closing event within a bounded number of them, and until then one is possible |
| ChatClient.StreamChat | apps/web/src/lib/api.ts:92-142 | over any reads, the events mapped and the ending: complete, `stream_incomplete`, or an exception at a payload it cannot read |
| ChatClient.EventMaps | apps/web/src/lib/api.ts:94-134 | each of the api's payloads maps to the chat event meant for it, and exactly `done` and `error` finish |
| ChatClient.PayloadPrintable | apps/api/app/triage.py:262-389 | every payload is printable JSON |
| ChatClient.MetaPayloadSays | apps/api/app/triage.py:262-276 | `meta` has every setting under its own name, numbers read back |
| ChatClient.DonePayloadSays | apps/api/app/triage.py:336-353 | `done` has every total under its own name, numbers read back |
| ChatClient.PartsSay | apps/api/app/triage.py:336-353 | usage by kind, every citation with its number, runbook, title and heading, and every number without a section |
| ChatClient.ThrowsExactly | apps/web/src/lib/api.ts:94-134 | mapping any payload fails exactly for null under a known event, or for citations that are no list or have a null in it |
| ChatClient.DefaultsAre | apps/web/src/lib/api.ts:96-127 | what any payload leaves out or has as null is mapped to 0, null or no citations |
| ChatClient.ClientSeesWholeEvents | apps/web/src/lib/api.ts:92-141 | of any received part of a stream, exactly the events wholly received, and `stream_incomplete` exactly when no closing event was whole |
| ChatClient.AnswerReceived | apps/web/src/lib/api.ts:92-141 | end to end over every interleaving and cut: the client never fails on an event, and completes exactly when everything, closing event included, arrived |
| Citations.ToolContext.SectionsResult | apps/api/app/tools.py:305-318 | hits are shown in order with numbers that name them; new chunks are appended once, nothing moves |
| Citations.ToolContext.AlertsResult | apps/api/app/tools.py:267-274 | the ids read are added to those read before |
| Citations.ToolContext.Run | apps/api/app/tools.py:201-235 | a call in time changes the context by what it found; work that raises in time makes the call raise and changes nothing; a late one, an unknown tool or invalid arguments change nothing, and late work stays running |
| Citations.ToolContext.Finished | apps/api/app/tools.py:238-241 | late work that ends, by returning or raising, changes nothing but what is running |
| Citations.NumberedGrows | apps/api/app/tools.py:305-318 | the section list only grows at its end, chunk ids stay distinct, every hit has a number |
| Citations.ContextGrows | apps/api/app/tools.py:201-216 | over any run of calls the context only grows |
| Citations.LateCallsChangeNothing | apps/api/app/tools.py:210-216 | a run leaves what it would have left had its late calls never been made |
| Citations.ShownNumbersStay | apps/api/app/tools.py:305-318 | a number ever shown names the same section at the end of the run, and no other number does |
| Citations.Citations | apps/api/app/triage.py:175-193 | the method computes the cited and the invalid numbers of an answer |
| Citations.DistinctKeepsFirsts | apps/api/app/triage.py:180 | distinct numbers in order of first mention |
| Citations.ListsShareNumbers | apps/api/app/triage.py:180-193 | the two lists share out the distinct numbers by whether they name a section, each in order of first mention; a citation is R and its number with the runbook, title and heading of that section |
| Citations.ShownNumberRecognised | apps/api/app/triage.py:175-180 | wherever "[Rn]" stands in an answer, it is recognised exactly when n is below 100, and the text around it mentions what it does without it |
| Citations.MentionsAreWords | apps/api/app/triage.py:90-93 | the numbers mentioned are those of the words - longest runs of word characters - that are R with one or two digits: any standalone R and number |
| Agent.Loop | apps/api/app/agent.py:87-135 | at most max_steps + 1 model calls, tools offered in all but the last; each transcript is the one before plus the model's turn and one result per call - a repeat refused, a first call's own result; however it ends, the calls looked at are those of the transcript and a first part of the last round's, none when no tools were offered, the first call of each key among them ran, and what was emitted is each round's items and the tool events of those calls; it ends answered, or because the model, a tool or the reading of a call's arguments raised - then just there - and never at the trailing return |
| Agent.ReadStream | apps/api/app/agent.py:97-105 | a model call's stream parted into calls, text and emitted items |
| Agent.TurnsJoin | apps/api/app/agent.py:108-127 | transcripts of complete turns can be put together |
| Agent.OneMoreTurn | apps/api/app/agent.py:108-127 | a turn with one result per call, same ids, same order, keeps the transcript well formed |
| Agent.RoundTells | apps/api/app/agent.py:112-127 | what model and client are told of each call of a round: of a repeat that it is refused; of any other the text, success and summary its tool gave, the name only if it is a tool's |
| Agent.StreamIsEmitted | apps/api/app/agent.py:97-105 | all a model call streams but its tool calls is emitted as it is, in order |
| Agent.FirstCallsOncePerKey | apps/api/app/agent.py:115-125 | the calls that run have each key once, and no key is missed |
| Agent.KeyDecidesRepeat | apps/api/app/agent.py:116-117 | between names that cannot be confused, equal keys mean the same name and the same arguments, and the other way round |
| Agent.NamesShareKeysExactly | apps/api/app/agent.py:116-117 | calls of two different names can share a key exactly when one name, with a colon after it, begins the other |
| Agent.KeysDecideExactly | apps/api/app/agent.py:116-117 | keys of two names tell the same calls apart from all others, whatever their arguments, exactly when the names cannot be confused |
| Agent.ToolNamesAreClear | apps/api/app/agent.py:116-117 | names without a colon, as every tool's, cannot be confused |
| Agent.ColonInNameCollides | apps/api/app/agent.py:115-122 | for any two names that can be confused, two calls that share a key, the second refused though it never ran |
| ToolAssembly.Stream | apps/api/app/llm.py:236-276 | chunk by chunk the code yields what the whole stream's events stand for: texts and usage at once, whole calls in index order just before each finish |
| ToolAssembly.SameCallsYieldTheSame | apps/api/app/llm.py:258-274 | fragments of the same indexes whose names, arguments and ids amount to the same make the same calls |
| ToolAssembly.CallsComeBack | apps/api/app/llm.py:258-274 | however the calls a model made are cut and interleaved, those put together have its names and arguments, its ids or else "call_" and the index, "{}" for no arguments, in index order |
| ToolAssembly.StreamYields | apps/api/app/llm.py:236-276 | text and usage are yielded at once; a finish yields the calls put together since the last one, then its reason, and leaves none |
| ToolAssembly.AlikeStreamsYieldTheSame | apps/api/app/llm.py:236-276 | whole streams with the same texts, usage and finish reasons, and fragments that amount to the same before each finish, however cut and interleaved with anything, yield the same items in the same order |
| ToolAssembly.PartsExchanged | apps/api/app/llm.py:258-276 | within a stream, fragments can be exchanged for others that amount to the same |
| ToolAssembly.IndexesAscend | apps/api/app/llm.py:267 | each index seen, once, ascending |
| ToolAssembly.CutMakesNoDifference | apps/api/app/llm.py:258-276 | a fragment may be cut anywhere in name and arguments: the stream yields the same |
| ToolAssembly.InterleavingMakesNoDifference | apps/api/app/llm.py:258-276 | neighbouring fragments of different calls may change places: the stream yields the same |
| Whitespace.WordsOfJoin | apps/api/app/runbooks.py:80-85 | joining texts with white space changes no word |
| Whitespace.WordsOfStrip | apps/api/app/runbooks.py:81-82 | stripping keeps the words, and empties exactly the texts without one |
| Packing.Limit | apps/api/app/runbooks.py:104-126 | the loops of `_limit` compute the specified sections |
| Packing.CutPieces | apps/api/app/runbooks.py:107-113 | paragraphs that fit stay whole, longer ones are cut into runs of `max_words` words |
| Packing.Pack | apps/api/app/runbooks.py:114-125 | the packing loop computes the greedy parts |
| Packing.ParagraphsHaveNoBlankLine | apps/api/app/runbooks.py:108 | no paragraph holds a blank line |
| Packing.ParagraphsAreCut | apps/api/app/runbooks.py:108 | put back between the paragraphs, the gaps give the text; each is a newline, white space and a newline, as long as it can be |
| Packing.ParagraphsKeepWords | apps/api/app/runbooks.py:108 | splitting at blank lines keeps every word, in order |
| Packing.PiecesKeepWords | apps/api/app/runbooks.py:107-113 | pieces keep every word, in order, and none is over the bound |
| Packing.PackedKeepsAll | apps/api/app/runbooks.py:114-125 | the parts hold all pieces, in order, and none is over the bound |
| Packing.PackedIsFull | apps/api/app/runbooks.py:117-125 | no part could also take the first piece of the next |
| Packing.PackedIsFewest | apps/api/app/runbooks.py:117-125 | any other grouping in order, of these pieces and any before them, has at least as many groups |
| Packing.PackingIsOptimal | apps/api/app/runbooks.py:104-126 | greedy packing uses the fewest parts of all order-preserving groupings within the bound |
| Packing.LimitKeepsWords | apps/api/app/runbooks.py:104-126 | the sections hold the content's words, in order, none over `max_words` |
| Packing.PartsAreMany | apps/api/app/runbooks.py:105-126 | a text over the bound is split into two parts or more |
| Runbooks.SplitSections | apps/api/app/runbooks.py:68-101 | the loop with its heading stack and fence flag computes the sections of the look-back definition |
| Runbooks.Flush | apps/api/app/runbooks.py:80-85 | the lines kept become sections under the title and path, unless they are blank |
| Runbooks.LinesKeepWords | apps/api/app/runbooks.py:87 | splitting into lines keeps every word, in order |
| Runbooks.LinesAreCut | apps/api/app/runbooks.py:87 | put back after the lines, the ends give the text; each is one of `splitlines`' ends, "\r\n" counting as one, and no line has one in it |
| Runbooks.HeadingReads | apps/api/app/runbooks.py:57 | every spelling of a heading - indent, gap, closing marks - reads as its level and text |
| Runbooks.OnlyHeadings | apps/api/app/runbooks.py:57 | only such lines are headings |
| Runbooks.TailIs | apps/api/app/runbooks.py:57 | what a heading may end with is white space, marks and white space |
| Runbooks.BlankHeadingReads | apps/api/app/runbooks.py:57 | marks followed by white space alone are a heading exactly when there are two or more characters of it |
| Runbooks.FenceReads | apps/api/app/runbooks.py:58 | three backticks or tildes after at most three spaces are a fence, whatever follows |
| Runbooks.OnlyFences | apps/api/app/runbooks.py:58 | only such lines are |
| Runbooks.PathStep | apps/api/app/runbooks.py:94-97 | the code's stack step computes the look-back path: headings outside fences that no later heading of the same or a higher rank has closed |
| Runbooks.PathRises | apps/api/app/runbooks.py:94-97 | levels strictly increase along a path |
| Runbooks.PathUntilHeading | apps/api/app/runbooks.py:87-99 | all lines up to the next heading have one path |
| Runbooks.LineStep | apps/api/app/runbooks.py:87-99 | what each kind of line does to path, lines and sections; a repeated title does nothing |
| Runbooks.SplitKeepsWords | apps/api/app/runbooks.py:68-126 | all sections' words, in order, are those of the lines that are neither headings nor the repeated title; no section is over `max_words` |
| Runbooks.HeadingTextIs | apps/api/app/runbooks.py:83 | a section's name is the title, then " > " and the text of each heading on its path |
| Runbooks.SectionsAtAreNamed | apps/api/app/runbooks.py:80-126 | the lines since the last heading give no section without a word; one, named by the title and " > " and each heading on the path, if they fit; else two or more with that name and " (n/total)" in order |
| Runbooks.EverySectionEnds | apps/api/app/runbooks.py:87-101 | every section is made of the lines that end at a heading or at the end |
| Ranking.SortedIsUnique | apps/api/app/queries.py:60-73 | two lists sorted by distinct keys with the same rows are equal |
| Ranking.InTop | apps/api/app/queries.py:60-73 | a row is among the first n exactly when fewer than n rank above it |
| Alerts.CountLateral | apps/api/app/queries.py:61-73 | cutting each team to `limit` rows loses none that could matter below `limit` |
| Alerts.LateralMeansWhere | apps/api/app/queries.py:61-73 | for distinct teams the merge of each team's newest is the newest of all: later first, then higher id first, every row left out older |
| Alerts.NewestIsFilterSortTake | apps/api/app/queries.py:49-76 | every form of the query gives the rows of the teams, with the severity and older than the cursor by (created_at, id), latest first, then highest id first, at most `limit`, every one left out older than all of these |
| Alerts.RightWhenTeamsDistinct | apps/api/app/queries.py:61-76 | a team list is read right on every table exactly when it repeats no team or at most one row is asked for |
| Alerts.RepeatedTeamShowsTwice | apps/api/app/queries.py:61-76 | a table on which a repeated team's alert is shown twice |
| Alerts.PageIs | apps/api/app/routes/alerts.py:65-79 | a page is the newest `limit` of those wanted, every wanted row left out is older than all on it, and the next cursor, there exactly when some are left out, has the last item's created_at and id |
| Alerts.WalkDescends | apps/api/app/routes/alerts.py:65-79 | whatever changes between pages, over the whole walk each alert is later than the next, or as late with a higher id, and older than the first cursor |
| Alerts.WalkMissesNothing | apps/api/app/routes/alerts.py:65-79 | in a completed walk an alert the caller may see and that was there throughout appears exactly once |
| Alerts.WalkEnds | apps/api/app/routes/alerts.py:65-79 | on a fixed table the walk ends within the pages its rows fill and shows exactly the rows wanted, latest first |
| Fusion.KeywordCandidates | apps/api/app/runbooks.py:329-339 | keyword candidates are distinct, at most 20, match the words and are sections of the asked teams |
| Fusion.SemanticCandidates | apps/api/app/runbooks.py:342-352 | the semantic ones are distinct, at most 20, have a current vector and are sections of the asked teams, whatever the index finds |
| Fusion.KeywordsInOrder | apps/api/app/runbooks.py:329-339 | of two matching sections the one ranked higher, or as high with a lower id, comes first; one is left out only for 20 others |
| Fusion.NearestFirst | apps/api/app/runbooks.py:340-352 | of two sections found the nearer, or as near with a lower id, comes first |
| Fusion.HybridHitsAreBest | apps/api/app/runbooks.py:353-384 | hits are distinct, sorted by summed reciprocal rank then id, at most k; each is a candidate with its scores and ranks, and every candidate left out ranks below them |
| Fusion.AgreementOutranksExactly | apps/api/app/runbooks.py:48-53 | sections in both lists rank above all in only one exactly when lists are shorter than the constant plus two; with 20 and 60 they do |
| Fusion.LongListsMislead | apps/api/app/runbooks.py:48-53 | longer lists for which they do not |
| Fusion.AheadInBoth | apps/api/app/runbooks.py:366-367 | ahead in both lists is ahead in the fused one |
| Fusion.OneListKeepsOrder | apps/api/app/runbooks.py:353-393 | a keyword or a semantic search gives the first k of its candidates in their order, each with its place and 1/(constant + place) |
| Fusion.HybridWithoutVectors | apps/api/app/runbooks.py:371-393 | a hybrid search with an empty semantic list gives exactly the keyword search's hits |
| Fusion.SearchDegrades | apps/api/app/runbooks.py:486-532 | which mode a search ends in, which reason it gives - embeddings off, the provider's code, or no current vectors - and what it returns then |
| Fusion.HitsTell | apps/api/app/runbooks.py:281-286 | in every mode and however it degrades, a hit tells its place in each list searched, its score is the sum of 1/(60 + place) over them, and hits come by falling score, then id |
| Fusion.HitsAreReadable | apps/api/app/runbooks.py:316-384 | in every mode, every hit is a section of an asked team, sorted and at most k |
| Fisher.CombCountsDraws | apps/api/evals/run.py:325 | the binomial counts the sets of k of n runs |
| Fisher.TermCountsDraws | apps/api/evals/run.py:328 | a term's product counts the draws with x failures |
| Fisher.TailCountsDraws | apps/api/evals/run.py:327-330 | the sum counts the draws with at least as many failures as there are now |
| Fisher.FisherIsShareOfDraws | apps/api/evals/run.py:320-332 | the value is the share of such draws among all draws |
| Fisher.AllTermsCountAllDraws | apps/api/evals/run.py:325-330 | all terms together count all draws: Vandermonde's identity |
| Fisher.FisherBounds | apps/api/evals/run.py:320-332 | the value is above 0 and at most 1, and 1 exactly when nothing fails now or the baseline never passed |
| Fisher.FisherFalls | apps/api/evals/run.py:320-332 | at fixed totals more failures now never raise the value |
| Fisher.Regressions | apps/api/evals/run.py:335-351 | the loop reports exactly the cases with a usable baseline and a value under 0.05, against the last baseline case of their id |
| Fisher.RegressedAre | apps/api/evals/run.py:335-351 | what is reported is exactly each case whose failures against the last baseline case of its id have a value under 0.05, with the failures and runs of both |
| Fisher.ReportedCasesFail | apps/api/evals/run.py:335-351 | a reported case fails now, its baseline passed at least once, and it is a case of the report |
| Access.ArrayReadsBack | apps/api/app/access.py:113-126 | a printed array literal reads back as the ids, the empty one included |
| Access.PoliciesAre | apps/api/migrations/versions/20260923_ce83ff21ab01_row_level_security_on_alerts.py:37-67 | under a principal's settings no policy fails; any member of a team reads its alerts, its responders and admins add to them, its admins delete them, an org admin does all of it in every team, and nobody else does |
| Access.AlertmanagerIngests | apps/api/app/routes/alerts.py:109 | under Alertmanager's settings every team's alerts may be read and added to, none deleted, and nothing fails |
| Access.SettingsNameUser | apps/api/app/access.py:121 | the user id read back from the settings is the principal's |
| Access.TeamIdsAgree | apps/api/app/access.py:67-75 | `team_ids` is None exactly for an org admin, and otherwise lists what `require_role` lets pass, which is 404 exactly for those not in the team |
| Access.PoliciesAgreeExactly | apps/api/app/access.py:67-126 | policies and `require_role` agree on every team exactly when no later entry of a team has a higher role than its first |
| Access.PoliciesAgree | apps/api/app/access.py:67-126 | with one entry per team they agree for viewer, responder and admin |
| Access.NoContextNoRows | apps/api/migrations/versions/20260923_ce83ff21ab01_row_level_security_on_alerts.py:10-20 | without settings, or with empty ones, no row is admitted and nothing fails |
| Access.AccessFromClaims | apps/api/app/access.py:83-100 | each team gets the highest role any group grants it and no other; org admin exactly when its group is there |
| Access.GroupGrants | apps/api/app/access.py:79-98 | "team:", a slug, ":" and viewer, responder or admin, with or without a slash before and a newline after, grants that role in that team |
| Access.OrgAdminGrants | apps/api/app/access.py:80-95 | "org:admin", with or without a slash, makes an org admin, and nothing else does |
| Access.OnlyGroupsGrant | apps/api/app/access.py:79-98 | nothing else grants a role |
| Access.OrderOfGroupsDoesNotMatter | apps/api/app/access.py:83-100 | neither the order of groups nor repeats matter |
| Sessions.Pool.BeginTransaction | apps/api/app/db.py:122-128 | as a transaction begins, the session's values are made on its connection |
| Sessions.Pool.SetTransactionSettings | apps/api/app/db.py:131-135 | values are kept for later transactions and made on the open one, if any |
| Sessions.Pool.EndTransaction | apps/api/app/db.py:104-116 | at the end of a transaction the connection keeps none of its values |
| Sessions.RunKeeps | apps/api/app/db.py:104-135 | in every interleaving, sessions and connections stay paired and a transaction's values are its session's |
| Sessions.SeesItsOwn | apps/api/app/db.py:104-116 | a statement sees its session's current values, and otherwise nothing, "" or a value that session was itself given |
| Sessions.SeenExactly | apps/api/app/db.py:104-135 | in every interleaving a setting shows its value if it was given one since the transaction began, "" if it ever was on that connection, else NULL |
| Sessions.FreshSeesNothing | apps/api/app/db.py:104-128 | a new session on a new connection begins with every setting NULL |
| Sessions.CloseForgets | apps/api/app/db.py:104-116 | a session closes exactly outside a transaction, and alone |
| Sessions.EndFrees | apps/api/app/db.py:104-116 | the end of a transaction frees its connection with "" for the names it knew, and the session keeps its values |
| Sessions.LossEnds | apps/api/app/db.py:104-116 | a lost connection ends the transaction on it and forgets every name |
| Sessions.OthersChangeNothing | apps/api/app/db.py:104-116 | no step of another session changes what a session sees |
| Sessions.LocalIsMade | apps/api/app/db.py:119-135 | what a connection holds for a session is what was made for it since its transaction began |
| Sessions.OwnSettingsInForceExactly | apps/api/app/db.py:119-135 | in every interleaving a session's current values, and no others, are in force exactly when no other name was given a value since its transaction began |
| Sessions.OwnSettingsInForce | apps/api/app/db.py:119-135 | so they are when a session is always given the same names, across commits within a request |
| Sessions.OtherNamesStay | apps/api/app/db.py:131-135 | values with other names, given within one transaction, leave the earlier ones in force until it ends |
| Sessions.RowsFollowRoles | apps/api/app/db.py:104-135 | end to end: in every interleaving, with a principal's values and no others made in the transaction, rows are admitted exactly as `require_role` decides; before authentication none are |
| Limiter.Store.IncrExpire | apps/api/app/ratelimit.py:71-74 | INCR and EXPIRE NX as one transaction: a live counter keeps its expiry, an expired one starts anew |
| Limiter.RateLimiter.Hit | apps/api/app/ratelimit.py:60-88 | the decision for every count, and failing open or closed when the store does not answer |
| Limiter.ResetReachesNextWindow | apps/api/app/ratelimit.py:63-65 | the reported wait is 1 to window_s seconds and always lands in the next window |
| Limiter.KeysAreApart | apps/api/app/ratelimit.py:66 | requests share a counter exactly when scope, client and window are the same |
| Limiter.CountRestartsExactly | apps/api/app/ratelimit.py:71-74 | over every run a request is told how many its counter has counted, and the count restarts exactly when the request is its window's first or reaches the store a window's length or more after the one that started the counter |
| Limiter.CounterIs | apps/api/app/ratelimit.py:71-74 | over every run a counter counts the requests since its start and expires a window's length after it |
| Limiter.CounterOutlivesWindow | apps/api/app/ratelimit.py:71-74 | over every run no counter expires inside its own window |
| Limiter.PromptIsNeverLate | apps/api/app/ratelimit.py:63-74 | requests that reach the store within their own window find no counter expired |
| Limiter.WindowAllows | apps/api/app/ratelimit.py:86-88 | a counter no request finds expired allows its first `limit` requests and no more, whatever other clients do |
| Limiter.WindowHoldsExactly | apps/api/app/ratelimit.py:71-88 | a window stays within every limit at every moment of a run exactly when none of its requests finds its counter expired |
| Limiter.AtMostTwiceTheLimit | apps/api/app/ratelimit.py:60-88 | any interval of length window_s has at most twice `limit` allowed requests of a client, when none of its requests in the two windows met finds its counter expired |
| Limiter.TwiceHoldsExactly | apps/api/app/ratelimit.py:1-7 | "up to 2x the limit" holds in every run with delays up to a bound exactly when that bound is zero |
| Limiter.LateRequestExceedsTwice | apps/api/app/ratelimit.py:63-74 | for any window and delays however small, a run in which three requests are allowed at limit 1 within a window's length |
| Limiter.WindowAllowsTwice | apps/api/app/ratelimit.py:60-88 | with requests less than a window's length on their way, a window has at most two counters and allows at most twice `limit` |
| Limiter.AtMostFourTimesTheLimit | apps/api/app/ratelimit.py:60-88 | then any interval of length window_s has at most four times `limit`, late requests included |
| Limiter.FewerThanFourTimes | apps/api/app/ratelimit.py:60-88 | with delays of at most half a window, any interval of length window_s has at most 4 * `limit` - 1; LateRequestExceedsTwice reaches it at limit 1 |
| Limiter.FourTimesIsReached | apps/api/app/ratelimit.py:60-88 | a run with requests almost a window's length on their way that reaches four times the limit |

## Left out

- Limiter.AtMostTwiceTheLimit: store and api share a clock, and the store works: a request whose reply is lost is not part of a run.
- Limiter.AtMostFourTimesTheLimit: asks that requests be less than a window's length on their way, as twice the timeout is unless a window is that short.
- Fusion.HybridHitsAreBest: scores are exact rationals; the database rounds its quotients to many digits.
- Fusion.SemanticCandidates: what the approximate index finds is any set of sections in reach, at most 20.
- Fisher.FisherIsShareOfDraws: an exact rational where the code divides into a float.
- Sessions.OwnSettingsInForce: asks that the session always be given the same names, as every caller does; OwnSettingsInForceExactly has the exact condition.
- Access.AccessFromClaims: a group list is finite text; where the claim comes from is not modelled.
- Citations.Citations: what counts as a word character and a digit is a parameter, as Unicode tables are.
- Json.LoadsAnySpelling: a lone half of a surrogate pair and the spellings NaN and Infinity are not modelled; numbers are kept as their literals; object members keep their order and the last of a repeated key counts.
- Canonical.CanonicalDecidesSameness: what Python prints for a number is a parameter, and a number again: a float too large for one, printed as Infinity, is excluded; the texts on which reading raises something else are a parameter of the agent loop.
- Agent.Loop: a tool is a function of the call and of how many ran before; schema validation and redaction of its texts are not modelled. Which argument texts have too many digits or too much nesting to read is a parameter.
- AnswerStream.EveryEndingCounted: a second cancellation while the cleanup waits for the producer is not modelled; latency metrics, log lines and span attributes are not either.
- ChatClient.StreamChat: decoding bytes to characters, a failed request before the stream, and aborting it are not modelled; half a character at a cut is any text without a line end.
- EventStream.ParseSSE: cancelling the reader at the end.
- Runbooks.SplitSections: case folding is a parameter.
- Alerts.WalkMissesNothing: the cursor's text (base64 of an ISO time and an id) and the error for a malformed one; a cursor is the key it stands for, and times are reals.
- Creating, deleting and ingesting alerts, auditing, embeddings and their storage, the ranking inside full-text search: only their results enter the model.
- HTTP routing, sign-in, token checks, rate-limit headers, cookies, dashboards, deployment: plumbing around the modelled core.
- Postgres also reads array literals with spaces, quotes and NULL; the app prints none.
