/** Citation numbers: which section a number names over a whole answer
    (app/tools.py), and which numbers an answer cites (app/triage.py). */
module Citations {
  import opened Decimal

  /** A runbook section a search returned. */
  datatype Hit = Hit(chunkId: int, runbookId: int, title: string, heading: string)

  datatype Citation = Citation(ref: string, runbookId: int, title: string, heading: string)

  // ---- Numbering: _sections_result -------------------------------------------

  function IndexOfChunk(sections: seq<Hit>, chunkId: int): (i: nat)
    ensures i <= |sections|
    ensures i < |sections| ==> sections[i].chunkId == chunkId
    ensures forall j | 0 <= j < i :: sections[j].chunkId != chunkId
  {
    if sections == [] || sections[0].chunkId == chunkId then 0
    else 1 + IndexOfChunk(sections[1..], chunkId)
  }

  lemma FoundOrNot(sections: seq<Hit>, chunkId: int, n: nat)
    requires n <= |sections| && (n < |sections| ==> sections[n].chunkId == chunkId)
    requires forall j | 0 <= j < n :: sections[j].chunkId != chunkId
    ensures IndexOfChunk(sections, chunkId) == n
  {
  }

  /** The sections after a search returned `hits`: new ones at the end. */
  function Numbered(sections: seq<Hit>, hits: seq<Hit>): seq<Hit> {
    if hits == [] then sections
    else
      var before := Numbered(sections, hits[..|hits| - 1]);
      var hit := hits[|hits| - 1];
      if IndexOfChunk(before, hit.chunkId) < |before| then before else before + [hit]
  }

  ghost predicate DistinctChunks(sections: seq<Hit>) {
    forall i, j | 0 <= i < j < |sections| :: sections[i].chunkId != sections[j].chunkId
  }

  /** Number `n` names the section of that chunk: [R1] is sections[0]. */
  predicate Names(sections: seq<Hit>, n: nat, chunkId: int) {
    1 <= n <= |sections| && sections[n - 1].chunkId == chunkId
  }

  /** A number and the chunk it was shown with: "[R3] heading ...". */
  datatype Shown = Shown(number: nat, chunkId: int)

  /** Each block shows its hit with a number that names it. */
  ghost predicate ShownRight(sections: seq<Hit>, hits: seq<Hit>, blocks: seq<Shown>) {
    |blocks| == |hits| &&
    forall i | 0 <= i < |hits| ::
      blocks[i].chunkId == hits[i].chunkId && Names(sections, blocks[i].number, hits[i].chunkId)
  }

  lemma OneMoreShown(before: seq<Hit>, after: seq<Hit>, hits: seq<Hit>, hit: Hit, blocks: seq<Shown>, number: nat)
    requires ShownRight(before, hits, blocks) && before <= after
    requires Names(after, number, hit.chunkId)
    ensures ShownRight(after, hits + [hit], blocks + [Shown(number, hit.chunkId)])
  {
  }

  lemma NumberedOneMore(sections: seq<Hit>, hits: seq<Hit>, hit: Hit)
    ensures var before := Numbered(sections, hits);
            Numbered(sections, hits + [hit])
            == if IndexOfChunk(before, hit.chunkId) < |before| then before else before + [hit]
  {
    assert (hits + [hit])[..|hits|] == hits;
  }

  lemma NothingShown(sections: seq<Hit>)
    ensures ShownRight(sections, [], []) && Numbered(sections, []) == sections
  {
  }

  lemma OneMoreDistinct(sections: seq<Hit>, hit: Hit)
    requires DistinctChunks(sections) && IndexOfChunk(sections, hit.chunkId) == |sections|
    ensures DistinctChunks(sections + [hit])
  {
  }

  /** What a tool call does: it searches or lists, and finds these; or that
      work raises; or it is of no tool, or its arguments are invalid. */
  datatype Work = Search(hits: seq<Hit>) | List(ids: seq<int>) | Raising | UnknownTool | InvalidArguments

  /** Whether a call gets as far as starting its work. */
  predicate Starts(work: Work) {
    work.Search? || work.List? || work.Raising?
  }

  /** A call, and whether its work ends before the deadline. */
  datatype Call = Call(work: Work, inTime: bool)

  datatype Context = Context(sections: seq<Hit>, alertIds: set<int>)

  function AfterCall(c: Context, call: Call): Context {
    if !call.inTime then c else
    match call.work
    case Search(hits) => c.(sections := Numbered(c.sections, hits))
    case List(ids) => c.(alertIds := c.alertIds + set i | i in ids)
    case _ => c
  }

  /** What the tools read so far. */
  class ToolContext {
    var sections: seq<Hit>
    var alertIds: set<int>
    var running: nat  // how many calls are at work, late ones included

    constructor ()
      ensures sections == [] && alertIds == {} && running == 0
    {
      sections, alertIds, running := [], {}, 0;
    }

    /** `_run`: a search or a list starts its work and waits for it until the
        deadline. Work in time has ended by then, and if it raised, so does the
        call; late work goes on, and what it finds or raises is used by
        nobody. */
    method Run(call: Call) returns (raised: bool, ok: bool, blocks: seq<Shown>)
      requires DistinctChunks(sections)
      modifies this
      ensures DistinctChunks(sections)
      ensures Context(sections, alertIds) == AfterCall(old(Context(sections, alertIds)), call)
      ensures raised <==> call.inTime && call.work.Raising?
      ensures ok <==> call.inTime && (call.work.Search? || call.work.List?)
      ensures call.inTime && call.work.Search? ==> ShownRight(sections, call.work.hits, blocks)
      ensures !(call.inTime && call.work.Search?) ==> blocks == []
      ensures running == old(running) + if !call.inTime && Starts(call.work) then 1 else 0
    {
      raised, ok, blocks := false, false, [];
      if call.work.UnknownTool? || call.work.InvalidArguments? { return; }
      running := running + 1;
      if !call.inTime { return; }
      running := running - 1;
      match call.work {
        case Search(hits) =>
          ok := true;
          blocks := SectionsResult(hits);
        case List(ids) =>
          ok := true;
          AlertsResult(ids);
        case Raising => raised := true;
      }
    }

    /** `_finished`: late work ends, whenever and however it does. */
    method Finished()
      requires running > 0
      modifies this`running
      ensures running == old(running) - 1
    {
      running := running - 1;
    }

    /** `_sections_result` for a search that arrived in time. */
    method SectionsResult(hits: seq<Hit>) returns (blocks: seq<Shown>)
      requires DistinctChunks(sections)
      modifies this`sections
      ensures DistinctChunks(sections)
      ensures sections == Numbered(old(sections), hits)
      ensures old(sections) <= sections
      ensures ShownRight(sections, hits, blocks)
    {
      hide Numbered, ShownRight, DistinctChunks;
      blocks := [];
      NothingShown(sections);
      assert hits[..0] == [];
      for k := 0 to |hits|
        invariant DistinctChunks(sections)
        invariant sections == Numbered(old(sections), hits[..k])
        invariant old(sections) <= sections
        invariant ShownRight(sections, hits[..k], blocks)
      {
        var hit := hits[k];
        ghost var before := sections;
        var number := 0;
        while number < |sections| && sections[number].chunkId != hit.chunkId
          invariant number <= |sections|
          invariant forall j | 0 <= j < number :: sections[j].chunkId != hit.chunkId
        {
          number := number + 1;
        }
        FoundOrNot(sections, hit.chunkId, number);
        if number == |sections| {
          OneMoreDistinct(sections, hit);
          sections := sections + [hit];
        }
        NumberedOneMore(old(sections), hits[..k], hit);
        OneMoreShown(before, sections, hits[..k], hit, blocks, number + 1);
        blocks := blocks + [Shown(number + 1, hit.chunkId)];
        assert hits[..k + 1] == hits[..k] + [hit];
      }
      assert hits[..|hits|] == hits;
    }

    /** `_alerts_result` for a list that arrived in time. */
    method AlertsResult(ids: seq<int>)
      modifies this`alertIds
      ensures alertIds == old(alertIds) + set i | i in ids
    {
      alertIds := alertIds + set i | i in ids;
    }
  }

  function AfterCalls(c: Context, calls: seq<Call>): Context {
    if calls == [] then c else AfterCall(AfterCalls(c, calls[..|calls| - 1]), calls[|calls| - 1])
  }

  /** The number a hit is shown with: where its chunk stands afterwards. */
  function NumberOf(sections: seq<Hit>, hit: Hit): nat {
    1 + IndexOfChunk(sections, hit.chunkId)
  }

  lemma NumberedStep(before: seq<Hit>, hit: Hit)
    requires DistinctChunks(before)
    ensures var after := if IndexOfChunk(before, hit.chunkId) < |before| then before else before + [hit];
            before <= after && DistinctChunks(after) && Names(after, NumberOf(after, hit), hit.chunkId)
  {
    if IndexOfChunk(before, hit.chunkId) == |before| {
      var after := before + [hit];
      NameStays(after, after, |after|, hit.chunkId);
    }
  }

  /** Every hit has a number. */
  ghost predicate AllNamed(sections: seq<Hit>, hits: seq<Hit>) {
    forall i | 0 <= i < |hits| :: Names(sections, NumberOf(sections, hits[i]), hits[i].chunkId)
  }

  lemma OneMoreNamed(before: seq<Hit>, after: seq<Hit>, front: seq<Hit>, last: Hit)
    requires AllNamed(before, front) && before <= after && DistinctChunks(after)
    requires Names(after, NumberOf(after, last), last.chunkId)
    ensures AllNamed(after, front + [last])
  {
    var hits := front + [last];
    hide DistinctChunks, IndexOfChunk;
    forall i | 0 <= i < |hits| ensures Names(after, NumberOf(after, hits[i]), hits[i].chunkId) {
      if i < |front| {
        assert front[i] == hits[i];
        NameStays(before, after, NumberOf(before, front[i]), front[i].chunkId);
      }
    }
  }

  lemma {:induction false} NumberedGrows(sections: seq<Hit>, hits: seq<Hit>)
    requires DistinctChunks(sections)
    ensures sections <= Numbered(sections, hits) && DistinctChunks(Numbered(sections, hits))
    ensures AllNamed(Numbered(sections, hits), hits)
  {
    if hits != [] {
      var front, last := hits[..|hits| - 1], hits[|hits| - 1];
      var before := Numbered(sections, front);
      NumberedGrows(sections, front);
      NumberedStep(before, last);
      assert hits == front + [last];
      NumberedOneMore(sections, front, last);
      hide *;
      OneMoreNamed(before, Numbered(sections, hits), front, last);
    }
  }

  /** A number that names a chunk is that chunk's number, then and later. */
  lemma NameStays(before: seq<Hit>, after: seq<Hit>, n: nat, chunkId: int)
    requires before <= after && DistinctChunks(after) && Names(before, n, chunkId)
    ensures Names(after, n, chunkId) && IndexOfChunk(after, chunkId) == n - 1
  {
  }

  lemma {:induction false} ContextGrows(c: Context, calls: seq<Call>)
    requires DistinctChunks(c.sections)
    ensures c.sections <= AfterCalls(c, calls).sections && DistinctChunks(AfterCalls(c, calls).sections)
    ensures c.alertIds <= AfterCalls(c, calls).alertIds
  {
    if calls != [] {
      var front := calls[..|calls| - 1];
      ContextGrows(c, front);
      var last := calls[|calls| - 1];
      if last.inTime && last.work.Search? { NumberedGrows(AfterCalls(c, front).sections, last.work.hits); }
    }
  }

  /** The calls of a run whose work ended in time. */
  function InTime(calls: seq<Call>): seq<Call> {
    if calls == [] then []
    else
      var last := calls[|calls| - 1];
      InTime(calls[..|calls| - 1]) + (if last.inTime then [last] else [])
  }

  /** A run leaves what it would have left had its late calls never been
      made. */
  lemma {:induction false} LateCallsChangeNothing(c: Context, calls: seq<Call>)
    ensures AfterCalls(c, calls) == AfterCalls(c, InTime(calls))
  {
    if calls != [] {
      var front, last := calls[..|calls| - 1], calls[|calls| - 1];
      LateCallsChangeNothing(c, front);
      assert (InTime(front) + [last])[..|InTime(front)|] == InTime(front);
      assert InTime(front) + [] == InTime(front);
    }
  }

  lemma {:induction false} AfterCallsInTwo(c: Context, a: seq<Call>, b: seq<Call>)
    ensures AfterCalls(c, a + b) == AfterCalls(AfterCalls(c, a), b)
  {
    if b == [] {
      assert a + b == a;
    } else {
      assert (a + b)[..|a + b| - 1] == a + b[..|b| - 1];
      AfterCallsInTwo(c, a, b[..|b| - 1]);
    }
  }

  /** Every number ever shown keeps naming its section: whatever call `k`
      showed, the section the number names at the end of the run is the one
      it was shown with, and no other number names it. */
  lemma ShownNumbersStay(calls: seq<Call>, k: nat, i: nat)
    requires k < |calls| && calls[k].inTime && calls[k].work.Search? && i < |calls[k].work.hits|
    ensures var hit := calls[k].work.hits[i];
            var shown := NumberOf(AfterCalls(Context([], {}), calls[..k + 1]).sections, hit);
            var end := AfterCalls(Context([], {}), calls).sections;
            Names(end, shown, hit.chunkId) && forall n: nat :: Names(end, n, hit.chunkId) ==> n == shown
  {
    var start := Context([], {});
    var hit := calls[k].work.hits[i];
    var before, after := AfterCalls(start, calls[..k]), AfterCalls(start, calls[..k + 1]);
    assert DistinctChunks(start.sections);
    assert calls[..k + 1][..k] == calls[..k];
    assert after == AfterCall(before, calls[k]);
    assert after.sections == Numbered(before.sections, calls[k].work.hits);
    assert calls == calls[..k + 1] + calls[k + 1..];
    hide AfterCalls, AfterCall, Numbered;
    ContextGrows(start, calls[..k]);
    ContextGrows(start, calls[..k + 1]);
    NumberedGrows(before.sections, calls[k].work.hits);
    AfterCallsInTwo(start, calls[..k + 1], calls[k + 1..]);
    ContextGrows(after, calls[k + 1..]);
    NameStays(after.sections, AfterCalls(start, calls).sections, NumberOf(after.sections, hit), hit.chunkId);
  }

  // ---- The numbers an answer mentions: the pattern \bR(\d{1,2})\b -------------

  /** The Unicode tables behind \w and \d: `digit(c)` is a decimal digit's
      value, or -1. */
  datatype Unicode = Unicode(word: char -> bool, digit: char -> int)

  ghost predicate ValidTables(u: Unicode) {
    && (forall c: char :: -1 <= u.digit(c) <= 9)
    && (forall c: char :: u.digit(c) >= 0 ==> u.word(c))
    && (forall c: char :: IsDigit(c) ==> u.digit(c) == DigitValue(c))
    && u.word('R') && !u.word('[') && !u.word(']')
    && u.digit('R') == -1 && u.digit(']') == -1
  }

  function DigitRun(s: string, u: Unicode): (n: nat)
    ensures n <= |s|
    ensures forall i | 0 <= i < n :: u.digit(s[i]) >= 0
    ensures n < |s| ==> u.digit(s[n]) < 0
  {
    if s == "" || u.digit(s[0]) < 0 then 0 else 1 + DigitRun(s[1..], u)
  }

  /** A match starts at `i`: R between word boundaries, with all the digits
      after it, one or two. */
  predicate MentionAt(s: string, i: nat, u: Unicode)
    requires i < |s|
  {
    s[i] == 'R' && (i == 0 || !u.word(s[i - 1])) &&
    var d := DigitRun(s[i + 1..], u);
    1 <= d <= 2 && (i + 1 + d == |s| || !u.word(s[i + 1 + d]))
  }

  function NumberAt(s: string, i: nat, u: Unicode): nat
    requires i < |s| && MentionAt(s, i, u)
  {
    var d := DigitRun(s[i + 1..], u);
    assert s[i + 1..][0] == s[i + 1];
    if d == 1 then u.digit(s[i + 1]) else
    assert s[i + 1..][1] == s[i + 2];
    10 * u.digit(s[i + 1]) + u.digit(s[i + 2])
  }

  /** `findall` from position `i`, each match as a number. */
  function Mentions(s: string, i: nat, u: Unicode): seq<nat>
    requires i <= |s|
    decreases |s| - i
  {
    if i == |s| then []
    else if MentionAt(s, i, u) then
      [NumberAt(s, i, u)] + Mentions(s, i + 1 + DigitRun(s[i + 1..], u), u)
    else Mentions(s, i + 1, u)
  }

  /** First occurrences, in order: `dict.fromkeys`. */
  function Distinct(xs: seq<nat>): seq<nat> {
    if xs == [] then []
    else
      var front := Distinct(xs[..|xs| - 1]);
      var x := xs[|xs| - 1];
      if x in front then front else front + [x]
  }

  function Cite(n: nat, sections: seq<Hit>): Citation
    requires 1 <= n <= |sections|
  {
    var hit := sections[n - 1];
    Citation("R" + NatText(n), hit.runbookId, hit.title, hit.heading)
  }

  function CitedOf(numbers: seq<nat>, sections: seq<Hit>): seq<Citation> {
    if numbers == [] then []
    else
      var n := numbers[|numbers| - 1];
      CitedOf(numbers[..|numbers| - 1], sections)
      + (if 1 <= n <= |sections| then [Cite(n, sections)] else [])
  }

  function InvalidOf(numbers: seq<nat>, sections: seq<Hit>): seq<string> {
    if numbers == [] then []
    else
      var n := numbers[|numbers| - 1];
      InvalidOf(numbers[..|numbers| - 1], sections)
      + (if 1 <= n <= |sections| then [] else ["R" + NatText(n)])
  }

  function Cited(answer: string, sections: seq<Hit>, u: Unicode): seq<Citation> {
    CitedOf(Distinct(Mentions(answer, 0, u)), sections)
  }

  function Invalid(answer: string, sections: seq<Hit>, u: Unicode): seq<string> {
    InvalidOf(Distinct(Mentions(answer, 0, u)), sections)
  }

  /** `citations(answer, sections)`. */
  method Citations(answer: string, sections: seq<Hit>, u: Unicode)
    returns (cited: seq<Citation>, invalid: seq<string>)
    ensures cited == Cited(answer, sections, u) && invalid == Invalid(answer, sections, u)
  {
    cited, invalid := [], [];
    var found := Mentions(answer, 0, u);
    var numbers := [];
    for k := 0 to |found|
      invariant numbers == Distinct(found[..k])
      invariant cited == CitedOf(numbers, sections) && invalid == InvalidOf(numbers, sections)
    {
      assert found[..k + 1][..k] == found[..k];
      var number := found[k];
      if number !in numbers {
        assert (numbers + [number])[..|numbers|] == numbers;
        numbers := numbers + [number];
        if 1 <= number <= |sections| {
          cited := cited + [Cite(number, sections)];
        } else {
          invalid := invalid + ["R" + NatText(number)];
        }
      }
    }
    assert found[..|found|] == found;
  }

  /** `p` is where `xs` first has `x`. */
  ghost predicate FirstAt(xs: seq<nat>, x: nat, p: nat) {
    p < |xs| && xs[p] == x && x !in xs[..p]
  }

  lemma {:induction false} DistinctKeepsFirsts(xs: seq<nat>)
    ensures forall x :: x in Distinct(xs) <==> x in xs
    ensures forall i, j | 0 <= i < j < |Distinct(xs)| :: Distinct(xs)[i] != Distinct(xs)[j]
    ensures forall i, j, p: nat, q: nat | 0 <= i < |Distinct(xs)| && 0 <= j < |Distinct(xs)|
                                && FirstAt(xs, Distinct(xs)[i], p) && FirstAt(xs, Distinct(xs)[j], q) ::
              i < j <==> p < q
  {
    if xs != [] {
      var front, x := xs[..|xs| - 1], xs[|xs| - 1];
      DistinctKeepsFirsts(front);
      var d, d' := Distinct(front), Distinct(xs);
      forall i, j, p: nat, q: nat | 0 <= i < |d'| && 0 <= j < |d'| && FirstAt(xs, d'[i], p) && FirstAt(xs, d'[j], q)
        ensures i < j <==> p < q
      {
        if p < |front| { assert xs[..p] == front[..p]; assert FirstAt(front, d'[i], p); }
        if q < |front| { assert xs[..q] == front[..q]; assert FirstAt(front, d'[j], q); }
        if p == |front| { assert xs[..p] == front; }
        if q == |front| { assert xs[..q] == front; }
      }
    }
  }

  ghost predicate Increasing(ps: seq<nat>, bound: nat) {
    (forall k | 0 <= k < |ps| :: ps[k] < bound) && forall i, j | 0 <= i < j < |ps| :: ps[i] < ps[j]
  }

  predicate InRange(n: nat, total: nat) {
    1 <= n <= total
  }

  /** The places of the numbers that are, or are not, in range. */
  function Places(numbers: seq<nat>, total: nat, inside: bool): seq<nat> {
    if numbers == [] then []
    else
      var front := numbers[..|numbers| - 1];
      Places(front, total, inside) + (if InRange(numbers[|front|], total) == inside then [|front|] else [])
  }

  lemma {:induction false} PlacesInOrder(numbers: seq<nat>, total: nat, inside: bool)
    ensures Increasing(Places(numbers, total, inside), |numbers|)
    ensures forall i | 0 <= i < |numbers| ::
              InRange(numbers[i], total) == inside <==> i in Places(numbers, total, inside)
  {
    if numbers != [] {
      var front := numbers[..|numbers| - 1];
      PlacesInOrder(front, total, inside);
      forall i | 0 <= i < |front|
        ensures InRange(numbers[i], total) == inside <==> i in Places(numbers, total, inside)
      {
        assert front[i] == numbers[i];
      }
    }
  }

  lemma {:induction false} CitedAtPlaces(numbers: seq<nat>, sections: seq<Hit>)
    ensures var ps := Places(numbers, |sections|, true);
            var cited := CitedOf(numbers, sections);
            |cited| == |ps| &&
            forall k | 0 <= k < |ps| ::
              ps[k] < |numbers| && InRange(numbers[ps[k]], |sections|) && cited[k] == Cite(numbers[ps[k]], sections)
  {
    hide Cite;
    if numbers != [] { CitedAtPlaces(numbers[..|numbers| - 1], sections); }
  }

  lemma {:induction false} InvalidAtPlaces(numbers: seq<nat>, sections: seq<Hit>)
    ensures var qs := Places(numbers, |sections|, false);
            var invalid := InvalidOf(numbers, sections);
            |invalid| == |qs| &&
            forall k | 0 <= k < |qs| ::
              qs[k] < |numbers| && !InRange(numbers[qs[k]], |sections|) && invalid[k] == "R" + NatText(numbers[qs[k]])
  {
    hide NatText;
    if numbers != [] { InvalidAtPlaces(numbers[..|numbers| - 1], sections); }
  }

  /** The citation is "R" and the number, with what the section of that number
      shows. */
  ghost predicate CitesSection(c: Citation, n: nat, sections: seq<Hit>)
    requires 1 <= n <= |sections|
  {
    && c.ref == "R" + NatText(n) && c.runbookId == sections[n - 1].runbookId
    && c.title == sections[n - 1].title && c.heading == sections[n - 1].heading
  }

  /** The two lists share out the answer's distinct numbers: the cited ones
      are those that name a section, with that section, the invalid ones all
      the others, and each list keeps the order of first mention. `ps` and
      `qs` are their places among the distinct numbers. */
  lemma ListsShareNumbers(answer: string, sections: seq<Hit>, u: Unicode)
    returns (ps: seq<nat>, qs: seq<nat>)
    ensures var numbers := Distinct(Mentions(answer, 0, u));
            var cited, invalid := Cited(answer, sections, u), Invalid(answer, sections, u);
            && Increasing(ps, |numbers|) && Increasing(qs, |numbers|)
            && (forall i | 0 <= i < |numbers| :: if 1 <= numbers[i] <= |sections| then i in ps else i in qs)
            && |cited| == |ps| && |invalid| == |qs|
            && (forall k | 0 <= k < |ps| ::
                  1 <= numbers[ps[k]] <= |sections| && CitesSection(cited[k], numbers[ps[k]], sections))
            && (forall k | 0 <= k < |qs| ::
                  !(1 <= numbers[qs[k]] <= |sections|) && invalid[k] == "R" + NatText(numbers[qs[k]]))
  {
    var numbers := Distinct(Mentions(answer, 0, u));
    ps, qs := Places(numbers, |sections|, true), Places(numbers, |sections|, false);
    PlacesInOrder(numbers, |sections|, true);
    PlacesInOrder(numbers, |sections|, false);
    CitedAtPlaces(numbers, sections);
    InvalidAtPlaces(numbers, sections);
  }

  // ---- A shown number is recognised only below 100 ------------------------------

  function ShownText(n: nat): string {
    "[R" + NatText(n) + "]"
  }

  lemma {:induction false} DigitRunOfDigits(s: string, rest: string, u: Unicode)
    requires ValidTables(u) && AllDigits(s) && (rest != "" ==> u.digit(rest[0]) < 0)
    ensures DigitRun(s + rest, u) == |s|
  {
    if s == "" {
      assert s + rest == rest;
    } else {
      assert (s + rest)[1..] == s[1..] + rest;
      DigitRunOfDigits(s[1..], rest, u);
    }
  }

  lemma NoMentions(s: string, i: nat, u: Unicode)
    requires i <= |s| && forall j | i <= j < |s| :: s[j] != 'R'
    ensures Mentions(s, i, u) == []
    decreases |s| - i
  {
    if i < |s| { NoMentions(s, i + 1, u); }
  }

  lemma MentionStep(s: string, i: nat, u: Unicode)
    requires i < |s|
    ensures !MentionAt(s, i, u) ==> Mentions(s, i, u) == Mentions(s, i + 1, u)
    ensures MentionAt(s, i, u) ==>
              Mentions(s, i, u) == [NumberAt(s, i, u)] + Mentions(s, i + 1 + DigitRun(s[i + 1..], u), u)
  {
  }

  lemma ShownTextParts(n: nat, u: Unicode)
    requires ValidTables(u)
    ensures var s, d := ShownText(n), |NatText(n)|;
            |s| == 3 + d && s[0] == '[' && s[1] == 'R' && s[2 + d] == ']'
            && (forall j | 0 <= j < d :: s[2 + j] == NatText(n)[j])
            && DigitRun(s[2..], u) == d && Mentions(s, 2, u) == [] && Mentions(s, 2 + d, u) == []
  {
    var s, digits := ShownText(n), NatText(n);
    assert s[2..] == digits + "]";
    DigitRunOfDigits(digits, "]", u);
    NoMentions(s, 2, u);
    NoMentions(s, 2 + |digits|, u);
  }

  /** Digits of a prefix that a non-word character ends. */
  lemma {:induction false} DigitRunBefore(s: string, t: string, u: Unicode)
    requires ValidTables(u) && t != "" && !u.word(t[0])
    ensures DigitRun(s + t, u) == DigitRun(s, u)
  {
    if s == "" {
      assert s + t == t;
    } else {
      assert (s + t)[1..] == s[1..] + t;
      DigitRunBefore(s[1..], t, u);
    }
  }

  lemma SliceInTwo(s: string, t: string, i: nat)
    requires i <= |s|
    ensures (s + t)[i..] == s[i..] + t
    ensures forall j | 0 <= j < |s| :: (s + t)[j] == s[j]
    ensures forall j | |s| <= j < |s| + |t| :: (s + t)[j] == t[j - |s|]
  {
  }

  /** A mention before a non-word character does not depend on what follows. */
  lemma MentionBefore(s: string, t: string, i: nat, u: Unicode)
    requires ValidTables(u) && t != "" && !u.word(t[0]) && i < |s|
    ensures DigitRun((s + t)[i + 1..], u) == DigitRun(s[i + 1..], u)
    ensures MentionAt(s + t, i, u) <==> MentionAt(s, i, u)
    ensures MentionAt(s, i, u) ==> NumberAt(s + t, i, u) == NumberAt(s, i, u)
  {
    hide DigitRun;
    SliceInTwo(s, t, i + 1);
    DigitRunBefore(s[i + 1..], t, u);
  }

  lemma MentionsEnd(s: string, u: Unicode)
    ensures Mentions(s, |s|, u) == []
  {
  }

  lemma {:induction false} MentionsBefore(s: string, t: string, i: nat, u: Unicode)
    requires ValidTables(u) && t != "" && !u.word(t[0]) && i <= |s|
    ensures Mentions(s + t, i, u) == Mentions(s, i, u) + Mentions(s + t, |s|, u)
    decreases |s| - i
  {
    hide Mentions, MentionAt, NumberAt, DigitRun, ValidTables;
    if i == |s| {
      MentionsEnd(s, u);
    } else {
      MentionBefore(s, t, i, u);
      MentionStep(s, i, u);
      MentionStep(s + t, i, u);
      MentionsBefore(s, t, if MentionAt(s, i, u) then i + 1 + DigitRun(s[i + 1..], u) else i + 1, u);
    }
  }

  /** Past a non-word character mentions do not depend on what came before. */
  lemma {:induction false} MentionsAfter(s: string, t: string, i: nat, u: Unicode)
    requires s != "" && !u.word(s[|s| - 1]) && i <= |t|
    ensures Mentions(s + t, |s| + i, u) == Mentions(t, i, u)
    decreases |t| - i
  {
    hide Mentions, MentionAt, NumberAt, DigitRun;
    if i == |t| {
      MentionsEnd(t, u);
      MentionsEnd(s + t, u);
    } else {
      MentionAfter(s, t, i, u);
      MentionStep(t, i, u);
      MentionStep(s + t, |s| + i, u);
      MentionsAfter(s, t, if MentionAt(t, i, u) then i + 1 + DigitRun(t[i + 1..], u) else i + 1, u);
    }
  }

  lemma SliceAfter(s: string, t: string, i: nat)
    requires i <= |t|
    ensures (s + t)[|s| + i..] == t[i..]
  {
  }

  lemma MentionAfter(s: string, t: string, i: nat, u: Unicode)
    requires s != "" && !u.word(s[|s| - 1]) && i < |t|
    ensures (s + t)[|s| + i + 1..] == t[i + 1..]
    ensures MentionAt(s + t, |s| + i, u) <==> MentionAt(t, i, u)
    ensures MentionAt(t, i, u) ==> NumberAt(s + t, |s| + i, u) == NumberAt(t, i, u)
  {
    SliceAfter(s, t, i + 1);
    SliceInTwo(s, t, 0);
    var all := s + t;
    assert forall j | 0 <= j < |t| :: all[|s| + j] == t[j];
    assert all[|s| - 1] == s[|s| - 1];
    hide DigitRun;
  }

  /** A non-word character keeps the mentions of two texts apart. */
  lemma MentionsApart(a: string, c: char, b: string, u: Unicode)
    requires ValidTables(u) && !u.word(c)
    ensures Mentions(a + [c] + b, 0, u) == Mentions(a, 0, u) + Mentions(b, 0, u)
  {
    var all := a + [c] + b;
    assert all == a + ([c] + b) && all[|a|] == c && c != 'R';
    SkipOne(all, |a|, u);
    hide Mentions, ValidTables;
    MentionsBefore(a, [c] + b, 0, u);
    MentionsAfter(a + [c], b, 0, u);
  }

  // ---- Another way to say what is mentioned: whole words ---------------------------

  function WordRun(s: string, u: Unicode): (n: nat)
    ensures n <= |s|
    ensures forall i | 0 <= i < n :: u.word(s[i])
    ensures n < |s| ==> !u.word(s[n])
  {
    if |s| == 0 || !u.word(s[0]) then 0 else 1 + WordRun(s[1..], u)
  }

  /** The longest runs of word characters, in order. */
  function WordRuns(s: string, u: Unicode): seq<string>
    decreases |s|
  {
    if |s| == 0 then []
    else if !u.word(s[0]) then WordRuns(s[1..], u)
    else [s[..WordRun(s, u)]] + WordRuns(s[WordRun(s, u)..], u)
  }

  /** R and one or two digits. */
  predicate IsNumber(run: string, u: Unicode) {
    2 <= |run| <= 3 && run[0] == 'R' && forall i | 1 <= i < |run| :: u.digit(run[i]) >= 0
  }

  function NumberOfRun(run: string, u: Unicode): int
    requires 2 <= |run| <= 3
  {
    if |run| == 2 then u.digit(run[1]) else 10 * u.digit(run[1]) + u.digit(run[2])
  }

  function NumbersOf(runs: seq<string>, u: Unicode): seq<int> {
    if runs == [] then []
    else (if IsNumber(runs[0], u) then [NumberOfRun(runs[0], u)] else []) + NumbersOf(runs[1..], u)
  }

  lemma {:induction false} InsideRun(w: string, i: nat, u: Unicode)
    requires (forall k | 0 <= k < |w| :: u.word(w[k])) && 1 <= i <= |w|
    ensures Mentions(w, i, u) == []
    decreases |w| - i
  {
    hide DigitRun;
    if i < |w| { InsideRun(w, i + 1, u); }
  }

  /** A run of word characters mentions a number where it starts, if at all. */
  lemma RunMentions(w: string, u: Unicode)
    requires ValidTables(u) && |w| > 0 && forall k | 0 <= k < |w| :: u.word(w[k])
    ensures MentionAt(w, 0, u) <==> IsNumber(w, u)
    ensures MentionAt(w, 0, u) ==> DigitRun(w[1..], u) == |w| - 1 && NumberAt(w, 0, u) == NumberOfRun(w, u)
  {
    var d := DigitRun(w[1..], u);
    assert forall k | 0 <= k < d :: u.digit(w[1..][k]) >= 0 && w[1..][k] == w[k + 1];
    assert d < |w| - 1 ==> w[1..][d] == w[d + 1] && u.digit(w[d + 1]) < 0;
    hide DigitRun, ValidTables;
  }

  lemma OneNumber(w: string, u: Unicode)
    ensures NumbersOf([w], u) == if IsNumber(w, u) then [NumberOfRun(w, u)] else []
  {
    assert NumbersOf([w][1..], u) == [];
    hide IsNumber, NumberOfRun;
  }

  lemma OneRun(w: string, u: Unicode)
    requires ValidTables(u) && |w| > 0 && forall k | 0 <= k < |w| :: u.word(w[k])
    ensures Mentions(w, 0, u) == NumbersOf([w], u)
  {
    hide DigitRun, ValidTables, MentionAt, NumberAt, NumberOfRun, IsNumber, Mentions, NumbersOf;
    RunMentions(w, u);
    OneNumber(w, u);
    MentionStep(w, 0, u);
    InsideRun(w, 1, u);
    MentionsEnd(w, u);
  }

  lemma NothingMentioned(u: Unicode)
    ensures Mentions("", 0, u) == [] && NumbersOf([], u) == []
  {
  }

  lemma RunFirst(run: string, runs: seq<string>, u: Unicode)
    ensures NumbersOf([run] + runs, u) == NumbersOf([run], u) + NumbersOf(runs, u)
  {
    assert ([run] + runs)[1..] == runs && [run][1..] == [];
    NothingMentioned(u);
    hide IsNumber, NumberOfRun;
  }

  /** The numbers an answer mentions are those of its words - longest runs of
      word characters - that are R with one or two digits. */
  lemma {:induction false} MentionsAreWords(s: string, u: Unicode)
    requires ValidTables(u)
    ensures Mentions(s, 0, u) == NumbersOf(WordRuns(s, u), u)
    decreases |s|
  {
    hide Mentions, NumbersOf, ValidTables, WordRun;
    if |s| == 0 {
      assert s == "";
      NothingMentioned(u);
    } else if !u.word(s[0]) {
      assert s == "" + [s[0]] + s[1..];
      MentionsApart("", s[0], s[1..], u);
      NothingMentioned(u);
      MentionsAreWords(s[1..], u);
    } else {
      var n := WordRun(s, u);
      RunNotEmpty(s, u);
      var w, t := s[..n], s[n..];
      OneRun(w, u);
      RunFirst(w, WordRuns(t, u), u);
      if n == |s| {
        assert w == s && t == "";
        NothingMentioned(u);
      } else {
        assert s == w + [s[n]] + s[n + 1..] && t[0] == s[n] && t[1..] == s[n + 1..];
        MentionsApart(w, s[n], s[n + 1..], u);
        MentionsAreWords(s[n + 1..], u);
      }
    }
  }

  lemma RunNotEmpty(s: string, u: Unicode)
    requires |s| > 0 && u.word(s[0])
    ensures WordRun(s, u) > 0
  {
  }

  lemma SkipOne(s: string, i: nat, u: Unicode)
    requires i < |s| && s[i] != 'R'
    ensures Mentions(s, i, u) == Mentions(s, i + 1, u)
  {
  }

  lemma TwoDigitsMention(n: nat, u: Unicode)
    requires ValidTables(u) && n < 100
    ensures var s := ShownText(n); MentionAt(s, 1, u) && NumberAt(s, 1, u) == n && DigitRun(s[2..], u) == |NatText(n)|
  {
    ShownTextParts(n, u);
    TwoDigits(n);
    hide Mentions, ShownText, NatText, DigitRun;
  }

  lemma MoreDigitsDoNot(n: nat, u: Unicode)
    requires ValidTables(u) && n >= 100
    ensures !MentionAt(ShownText(n), 1, u)
  {
    ShownTextParts(n, u);
    ThreeDigits(n);
    hide Mentions, ShownText, NatText, DigitRun, ValidTables;
  }

  /** "[Rn]" on its own. */
  lemma ShownTextMentions(n: nat, u: Unicode)
    requires ValidTables(u)
    ensures Mentions(ShownText(n), 0, u) == if n < 100 then [n] else []
  {
    hide Mentions, ShownText, NatText, ValidTables, DigitRun;
    var s := ShownText(n);
    ShownTextParts(n, u);
    MentionStep(s, 0, u);
    MentionStep(s, 1, u);
    if n < 100 { TwoDigitsMention(n, u); } else { MoreDigitsDoNot(n, u); }
  }

  lemma Brackets(a: string, mark: string, b: string)
    ensures a + ((['['] + mark + [']']) + b) == a + ['['] + (mark + [']'] + b)
  {
  }

  /** Between brackets a text mentions what it does alone. */
  lemma MentionsInBrackets(a: string, mark: string, b: string, u: Unicode)
    requires ValidTables(u)
    ensures Mentions(a + ((['['] + mark + [']']) + b), 0, u)
            == Mentions(a, 0, u) + Mentions(mark, 0, u) + Mentions(b, 0, u)
  {
    assert !u.word('[') && !u.word(']');
    hide Mentions, ValidTables;
    Brackets(a, mark, b);
    MentionsApart(a, '[', mark + [']'] + b, u);
    MentionsApart(mark, ']', b, u);
  }

  lemma MarkMentions(n: nat, u: Unicode)
    requires ValidTables(u)
    ensures Mentions("R" + NatText(n), 0, u) == if n < 100 then [n] else []
  {
    var mark := "R" + NatText(n);
    ShownTextMentions(n, u);
    assert ShownText(n) == ['['] + mark + [']'];
    hide Mentions, ValidTables, ShownText, NatText;
    MentionsEnd([], u);
    MentionsInBrackets([], mark, [], u);
    assert [] + ((['['] + mark + [']']) + []) == ['['] + mark + [']'];
  }

  /** Wherever it stands in an answer, a section's "[Rn]" counts as a mention
      of it exactly when n < 100 - the pattern takes at most two digits - and
      changes nothing of what the text around it mentions. */
  lemma ShownNumberRecognised(a: string, n: nat, b: string, u: Unicode)
    requires ValidTables(u)
    ensures Mentions(a + (ShownText(n) + b), 0, u)
            == Mentions(a, 0, u) + (if n < 100 then [n] else []) + Mentions(b, 0, u)
  {
    assert ShownText(n) == ['['] + ("R" + NatText(n)) + [']'];
    hide Mentions, ValidTables, ShownText, NatText;
    MarkMentions(n, u);
    MentionsInBrackets(a, "R" + NatText(n), b, u);
  }

  lemma ThreeDigits(n: nat)
    requires n >= 100
    ensures |NatText(n)| >= 3
  {
    assert n / 10 >= 10;
    assert |NatText(n / 10)| >= 2;
  }

  lemma TwoDigits(n: nat)
    requires n < 100
    ensures n < 10 ==> NatText(n) == [Digit(n)]
    ensures n >= 10 ==> NatText(n) == [Digit(n / 10), Digit(n % 10)]
    ensures n >= 10 ==> 10 * DigitValue(Digit(n / 10)) + DigitValue(Digit(n % 10)) == n
  {
  }
}
