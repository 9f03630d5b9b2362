/** `RateLimiter.hit` of app/ratelimit.py: a fixed-window counter with an
    expiry, in a store that runs INCR and EXPIRE NX as one transaction. */
module Limiter {
  import opened Common
  import opened Decimal

  datatype Decision = Decision(allowed: bool, limit: nat, remaining: nat, resetS: int, degraded: bool)

  datatype Counter = Counter(count: nat, expires: real)

  /** int(now // window_s) */
  function Window(now: real, windowS: nat): int
    requires windowS > 0
  {
    (now / windowS as real).Floor
  }

  /** now % window_s */
  function IntoWindow(now: real, windowS: nat): real
    requires windowS > 0
  {
    now - Window(now, windowS) as real * windowS as real
  }

  function ResetS(now: real, windowS: nat): int
    requires windowS > 0
  {
    windowS - IntoWindow(now, windowS).Floor
  }

  function StoreKey(scope: string, client: string, window: int): string {
    "rl:" + scope + ":" + client + ":" + IntText(window)
  }

  // ---- The store ---------------------------------------------------------------

  predicate Live(counters: map<string, Counter>, key: string, at: real) {
    key in counters && at < counters[key].expires
  }

  /** INCR key; EXPIRE key ttl NX, at the store's time `at`: an expired
      counter is gone, a new one gets its expiry, a live one keeps it. */
  function Increased(counters: map<string, Counter>, key: string, at: real, ttl: nat): Counter {
    if Live(counters, key, at) then Counter(counters[key].count + 1, counters[key].expires)
    else Counter(1, at + ttl as real)
  }

  class Store {
    var counters: map<string, Counter>

    constructor ()
      ensures counters == map[]
    {
      counters := map[];
    }

    method IncrExpire(key: string, at: real, ttl: nat) returns (count: nat)
      modifies this
      ensures counters == old(counters)[key := Increased(old(counters), key, at, ttl)]
      ensures count == counters[key].count
    {
      count := 1;
      var expires := at + ttl as real;
      if key in counters && at < counters[key].expires {
        count := counters[key].count + 1;
        expires := counters[key].expires;
      }
      counters := counters[key := Counter(count, expires)];
    }
  }

  /** What one request asks: `at` is when the store runs its transaction. */
  datatype Request = Request(now: real, at: real, scope: string, client: string)

  function KeyOf(r: Request, windowS: nat): string
    requires windowS > 0
  {
    StoreKey(r.scope, r.client, Window(r.now, windowS))
  }

  function After(counters: map<string, Counter>, r: Request, windowS: nat): map<string, Counter>
    requires windowS > 0
  {
    counters[KeyOf(r, windowS) := Increased(counters, KeyOf(r, windowS), r.at, windowS)]
  }

  function CountOf(counters: map<string, Counter>, r: Request, windowS: nat): nat
    requires windowS > 0
  {
    Increased(counters, KeyOf(r, windowS), r.at, windowS).count
  }

  class RateLimiter {
    const store: Store

    constructor (store: Store)
      ensures this.store == store
    {
      this.store := store;
    }

    /** `answers`: the store replied in time. If it did not, it may still have
        run the transaction (`ran`). */
    method Hit(r: Request, limit: nat, windowS: nat, failClosed: bool, answers: bool, ran: bool)
      returns (d: Decision)
      requires windowS > 0
      modifies store
      ensures d.limit == limit && d.resetS == ResetS(r.now, windowS) && d.degraded == !answers
      ensures !answers ==> d.allowed == !failClosed && d.remaining == if failClosed then 0 else limit
      ensures answers ==>
                var count := CountOf(old(store.counters), r, windowS);
                d.allowed == (count <= limit) && d.remaining == if count <= limit then limit - count else 0
      ensures store.counters
              == if answers || ran then After(old(store.counters), r, windowS) else old(store.counters)
    {
      var window := Window(r.now, windowS);
      var resetS := windowS - IntoWindow(r.now, windowS).Floor;
      var key := StoreKey(r.scope, r.client, window);
      var count := 0;
      if answers || ran { count := store.IncrExpire(key, r.at, windowS); }
      if !answers {
        d := if failClosed then Decision(false, limit, 0, resetS, true) else Decision(true, limit, limit, resetS, true);
      } else {
        d := Decision(count <= limit, limit, if count <= limit then limit - count else 0, resetS, false);
      }
    }
  }

  // ---- Windows ---------------------------------------------------------------------

  lemma WindowHolds(now: real, windowS: nat)
    requires windowS > 0
    ensures var q, w := Window(now, windowS), windowS as real;
            q as real * w <= now < (q + 1) as real * w && 0.0 <= IntoWindow(now, windowS) < w
  {
    var w := windowS as real;
    var x := now / w;
    assert x * w == now;
    var q := x.Floor;
    assert q as real <= x < (q + 1) as real;
    Scaled(q as real, x, w);
    Scaled(x, (q + 1) as real, w);
    assert q as real * w <= now;
    assert now < (q + 1) as real * w;
    assert (q + 1) as real * w == q as real * w + w;
  }

  lemma Scaled(a: real, b: real, w: real)
    requires a <= b && w > 0.0
    ensures a * w <= b * w && (a < b ==> a * w < b * w)
  {
    assert (b - a) * w == b * w - a * w;
  }

  lemma WindowIs(now: real, windowS: nat, q: int)
    requires windowS > 0 && q as real * windowS as real <= now < (q + 1) as real * windowS as real
    ensures Window(now, windowS) == q
  {
    WindowHolds(now, windowS);
    var p, w := Window(now, windowS), windowS as real;
    hide Window;
    NotBefore(p, q, w, now);
    NotBefore(q, p, w, now);
  }

  lemma NotBefore(p: int, q: int, w: real, now: real)
    requires w > 0.0 && q as real * w <= now < (p + 1) as real * w
    ensures q <= p
  {
    var a, b := (p + 1) as real, q as real;
    if a <= b { Scaled(a, b, w); }
    assert b < a;
  }

  /** Waiting the reported time always lands in the next window, and the time
      is at least one second and at most the window. */
  lemma ResetReachesNextWindow(now: real, windowS: nat)
    requires windowS > 0
    ensures 1 <= ResetS(now, windowS) <= windowS
    ensures Window(now + ResetS(now, windowS) as real, windowS) == Window(now, windowS) + 1
  {
    WindowHolds(now, windowS);
    var q, w := Window(now, windowS), windowS as real;
    assert (q + 1) as real * w == q as real * w + w;
    assert (q + 2) as real * w == (q + 1) as real * w + w;
    WindowIs(now + ResetS(now, windowS) as real, windowS, q + 1);
  }

  // ---- Keys --------------------------------------------------------------------------

  lemma {:induction false} IntTextHasNoColon(n: int)
    ensures ':' !in IntText(n)
  {
    var digits := NatText(if n < 0 then -n else n);
    assert forall i | 0 <= i < |digits| :: IsDigit(digits[i]);
  }

  /** Two requests share a counter exactly when scope, client and window are
      the same, whatever colons a client's name has; scopes have none. */
  lemma KeysAreApart(scope: string, client: string, window: int, scope': string, client': string, window': int)
    requires ':' !in scope && ':' !in scope'
    ensures StoreKey(scope, client, window) == StoreKey(scope', client', window')
            <==> scope == scope' && client == client' && window == window'
  {
    if StoreKey(scope, client, window) == StoreKey(scope', client', window') {
      var x, y := IntText(window), IntText(window');
      var a, b := client + ":" + x, client' + ":" + y;
      assert StoreKey(scope, client, window) == "rl:" + (scope + ":" + a);
      assert StoreKey(scope', client', window') == "rl:" + (scope' + ":" + b);
      SamePrefix("rl:", scope + ":" + a, scope' + ":" + b);
      ColonSplits(scope, a, scope', b);
      IntTextHasNoColon(window);
      IntTextHasNoColon(window');
      ColonSplitsLast(client, x, client', y);
      IntTextInjective(window, window');
    }
  }

  lemma SamePrefix(p: string, a: string, b: string)
    requires p + a == p + b
    ensures a == b
  {
    assert (p + a)[|p|..] == a && (p + b)[|p|..] == b;
  }

  // ---- Runs of requests ----------------------------------------------------------------

  /** The counters after `n` requests, in the order the store runs them. */
  function CountersAfter(requests: seq<Request>, n: nat, windowS: nat): map<string, Counter>
    requires windowS > 0 && n <= |requests|
  {
    if n == 0 then map[] else After(CountersAfter(requests, n - 1, windowS), requests[n - 1], windowS)
  }

  /** What request `i` is told. */
  function CountAt(requests: seq<Request>, i: nat, windowS: nat): nat
    requires windowS > 0 && i < |requests|
  {
    CountOf(CountersAfter(requests, i, windowS), requests[i], windowS)
  }

  /** The store runs transactions in order, none before its request is made. */
  ghost predicate InOrder(requests: seq<Request>) {
    && (forall i | 0 <= i < |requests| :: requests[i].now <= requests[i].at && ':' !in requests[i].scope)
    && (forall i, j | 0 <= i < j < |requests| :: requests[i].at <= requests[j].at)
  }

  predicate Same(a: Request, b: Request, windowS: nat)
    requires windowS > 0
  {
    a.scope == b.scope && a.client == b.client && Window(a.now, windowS) == Window(b.now, windowS)
  }

  lemma SameWindow(a: Request, b: Request, windowS: nat)
    requires windowS > 0 && Same(a, b, windowS)
    ensures Window(a.now, windowS) == Window(b.now, windowS) && a.scope == b.scope && a.client == b.client
  {
  }

  /** How many of the first `n` requests share the counter of `r`. */
  function Sharing(requests: seq<Request>, n: nat, r: Request, windowS: nat): nat
    requires windowS > 0 && n <= |requests|
  {
    if n == 0 then 0 else Sharing(requests, n - 1, r, windowS) + (if Same(requests[n - 1], r, windowS) then 1 else 0)
  }

  /** Request `i` reaches the store a window's length or more after request
      `start`. */
  predicate Expired(requests: seq<Request>, start: nat, i: nat, windowS: nat)
    requires start < |requests| && i < |requests|
  {
    requests[i].at >= requests[start].at + windowS as real
  }

  /** The first of the requests counted in the counter of `r` that stands
      after `n` requests, or -1: a request that finds no live counter starts
      one, which lives for a window's length. */
  function Start(requests: seq<Request>, n: nat, r: Request, windowS: nat): (i: int)
    requires windowS > 0 && n <= |requests|
    ensures -1 <= i < n && (i >= 0 ==> Same(requests[i], r, windowS))
    ensures i >= 0 <==> Sharing(requests, n, r, windowS) > 0
  {
    if n == 0 then -1
    else
      var before := Start(requests, n - 1, r, windowS);
      if !Same(requests[n - 1], r, windowS) then before
      else if before < 0 || Expired(requests, before, n - 1, windowS) then n - 1
      else before
  }

  lemma {:induction false} SharingGrows(requests: seq<Request>, m: nat, n: nat, r: Request, windowS: nat)
    requires windowS > 0 && m <= n <= |requests|
    ensures Sharing(requests, m, r, windowS) <= Sharing(requests, n, r, windowS)
    ensures m < n && Same(requests[m], r, windowS) ==>
              Sharing(requests, m, r, windowS) < Sharing(requests, n, r, windowS)
    decreases n
  {
    hide Same;
    if m < n { SharingGrows(requests, m, n - 1, r, windowS); }
  }

  /** How many of the first `n` requests the counter of `r` counts: those
      from its start on. */
  function Counted(requests: seq<Request>, n: nat, r: Request, windowS: nat): nat
    requires windowS > 0 && n <= |requests|
  {
    var start := Start(requests, n, r, windowS);
    if start < 0 then 0
    else
      SharingGrows(requests, start, n, r, windowS);
      Sharing(requests, n, r, windowS) - Sharing(requests, start, r, windowS)
  }

  lemma NoneCounted(requests: seq<Request>, r: Request, windowS: nat)
    requires windowS > 0
    ensures Counted(requests, 0, r, windowS) == 0
  {
  }

  lemma CountedOneMore(requests: seq<Request>, i: nat, r: Request, windowS: nat)
    requires windowS > 0 && i < |requests|
    ensures var start := Start(requests, i, r, windowS);
            Counted(requests, i + 1, r, windowS)
            == if !Same(requests[i], r, windowS) then Counted(requests, i, r, windowS)
               else if start < 0 || Expired(requests, start, i, windowS) then 1
               else Counted(requests, i, r, windowS) + 1
  {
    hide Same;
  }

  /** Over every run: the counter of `r` counts the requests since its start,
      and expires a window's length after it. */
  lemma {:induction false} CounterIs(requests: seq<Request>, n: nat, r: Request, windowS: nat)
    requires windowS > 0 && n <= |requests| && InOrder(requests) && ':' !in r.scope
    ensures var counters := CountersAfter(requests, n, windowS);
            var key := KeyOf(r, windowS);
            var start := Start(requests, n, r, windowS);
            if start < 0 then key !in counters
            else key in counters
                 && counters[key] == Counter(Counted(requests, n, r, windowS), requests[start].at + windowS as real)
  {
    hide Window, StoreKey, Counted;
    if n > 0 {
      CounterIs(requests, n - 1, r, windowS);
      var last := requests[n - 1];
      KeysAreApart(last.scope, last.client, Window(last.now, windowS), r.scope, r.client, Window(r.now, windowS));
      CountedOneMore(requests, n - 1, r, windowS);
    }
  }

  /** Over every run: a request is told how many requests its counter has
      counted. The count restarts exactly when none is live: the request is
      the first of its window, or reaches the store a window's length or more
      after the one that started the counter. */
  lemma CountRestartsExactly(requests: seq<Request>, i: nat, windowS: nat)
    requires windowS > 0 && i < |requests| && InOrder(requests)
    ensures var r := requests[i];
            var start := Start(requests, i, r, windowS);
            CountAt(requests, i, windowS)
            == if start < 0 || Expired(requests, start, i, windowS) then 1
               else Counted(requests, i, r, windowS) + 1
  {
    hide CountersAfter, Counted, Start, StoreKey, Window;
    CounterIs(requests, i, requests[i], windowS);
  }

  /** Over every run: no counter expires inside its own window. */
  lemma {:induction false} CounterOutlivesWindow(requests: seq<Request>, n: nat, r: Request, windowS: nat)
    requires windowS > 0 && n <= |requests| && InOrder(requests) && ':' !in r.scope
    ensures var counters := CountersAfter(requests, n, windowS);
            KeyOf(r, windowS) in counters ==>
              counters[KeyOf(r, windowS)].expires >= (Window(r.now, windowS) + 1) as real * windowS as real
  {
    CounterIs(requests, n, r, windowS);
    var start := Start(requests, n, r, windowS);
    if start >= 0 { StartIsInWindow(requests, start, r, windowS); }
    hide CountersAfter, Start, Sharing, StoreKey, Window;
  }

  lemma NextWindowStart(q: int, w: real)
    ensures (q + 1) as real * w == q as real * w + w
  {
  }

  lemma StartIsInWindow(requests: seq<Request>, i: nat, r: Request, windowS: nat)
    requires windowS > 0 && i < |requests| && InOrder(requests) && Same(requests[i], r, windowS)
    ensures requests[i].at + windowS as real >= (Window(r.now, windowS) + 1) as real * windowS as real
  {
    WindowHolds(requests[i].now, windowS);
    NextWindowStart(Window(r.now, windowS), windowS as real);
    hide Window;
  }

  // ---- What a window allows ----------------------------------------------------------

  /** Among the first `n` requests, none that shares the counter of `r`
      reached the store when that counter had expired. */
  ghost predicate NoneLate(requests: seq<Request>, n: nat, r: Request, windowS: nat)
    requires windowS > 0 && n <= |requests|
  {
    forall i | 0 <= i < n && Same(requests[i], r, windowS) && Start(requests, i, r, windowS) >= 0 ::
      !Expired(requests, Start(requests, i, r, windowS), i, windowS)
  }

  /** How many of the first `n` requests that share the counter of `r` are
      allowed. */
  function Allowed(requests: seq<Request>, n: nat, r: Request, limit: nat, windowS: nat): nat
    requires windowS > 0 && n <= |requests|
  {
    if n == 0 then 0
    else Allowed(requests, n - 1, r, limit, windowS)
         + (if Same(requests[n - 1], r, windowS) && CountAt(requests, n - 1, windowS) <= limit then 1 else 0)
  }

  lemma {:induction false} SharedAlike(requests: seq<Request>, n: nat, a: Request, b: Request, windowS: nat)
    requires windowS > 0 && n <= |requests| && Same(a, b, windowS)
    ensures Sharing(requests, n, a, windowS) == Sharing(requests, n, b, windowS)
    ensures Start(requests, n, a, windowS) == Start(requests, n, b, windowS)
    ensures Counted(requests, n, a, windowS) == Counted(requests, n, b, windowS)
  {
    hide Window;
    if n > 0 {
      SharedAlike(requests, n - 1, a, b, windowS);
      CountedOneMore(requests, n - 1, a, windowS);
      CountedOneMore(requests, n - 1, b, windowS);
    }
    hide Counted;
  }

  /** What the next request of the counter of `r` is told. */
  lemma CountIs(requests: seq<Request>, i: nat, r: Request, windowS: nat)
    requires windowS > 0 && i < |requests| && InOrder(requests) && Same(requests[i], r, windowS)
    ensures var start := Start(requests, i, r, windowS);
            CountAt(requests, i, windowS)
            == if start < 0 || Expired(requests, start, i, windowS) then 1
               else Counted(requests, i, r, windowS) + 1
  {
    hide Start, Sharing, Same, InOrder, Counted, Window, CountAt;
    CountRestartsExactly(requests, i, windowS);
    SharedAlike(requests, i, requests[i], r, windowS);
  }

  lemma StartOneMore(requests: seq<Request>, i: nat, r: Request, windowS: nat)
    requires windowS > 0 && i < |requests|
    ensures var before := Start(requests, i, r, windowS);
            Start(requests, i + 1, r, windowS)
            == if !Same(requests[i], r, windowS) then before
               else if before < 0 || Expired(requests, before, i, windowS) then i
               else before
  {
    hide Same, Expired;
  }

  lemma SharingOneMore(requests: seq<Request>, i: nat, r: Request, windowS: nat)
    requires windowS > 0 && i < |requests|
    ensures Sharing(requests, i + 1, r, windowS)
            == Sharing(requests, i, r, windowS) + (if Same(requests[i], r, windowS) then 1 else 0)
  {
  }

  lemma NoneLateBefore(requests: seq<Request>, i: nat, r: Request, windowS: nat)
    requires windowS > 0 && i < |requests| && NoneLate(requests, i + 1, r, windowS)
    ensures NoneLate(requests, i, r, windowS)
    ensures var start := Start(requests, i, r, windowS);
            Same(requests[i], r, windowS) && start >= 0 ==> !Expired(requests, start, i, windowS)
  {
    hide Same, Expired, Start;
  }

  lemma {:induction false} StartIsFirst(requests: seq<Request>, n: nat, r: Request, windowS: nat)
    requires windowS > 0 && n <= |requests| && NoneLate(requests, n, r, windowS)
    ensures var start := Start(requests, n, r, windowS); start >= 0 ==> Sharing(requests, start, r, windowS) == 0
    ensures Counted(requests, n, r, windowS) == Sharing(requests, n, r, windowS)
  {
    if n > 0 {
      var i := n - 1;
      hide *;
      NoneLateBefore(requests, i, r, windowS);
      StartIsFirst(requests, i, r, windowS);
      CountedOneMore(requests, i, r, windowS);
      StartOneMore(requests, i, r, windowS);
      SharingOneMore(requests, i, r, windowS);
    } else {
      NoneCounted(requests, r, windowS);
    }
  }

  /** A counter that no request finds expired allows its first `limit`
      requests and no more. */
  lemma {:induction false} WindowAllows(requests: seq<Request>, n: nat, r: Request, limit: nat, windowS: nat)
    requires windowS > 0 && n <= |requests| && InOrder(requests) && NoneLate(requests, n, r, windowS)
    ensures var c := Sharing(requests, n, r, windowS);
            Allowed(requests, n, r, limit, windowS) == if c <= limit then c else limit
  {
    hide Same, CountAt, InOrder, Start;
    if n > 0 {
      WindowAllows(requests, n - 1, r, limit, windowS);
      if Same(requests[n - 1], r, windowS) {
        CountIs(requests, n - 1, r, windowS);
        StartIsFirst(requests, n - 1, r, windowS);
      }
    }
  }

  /** At most `limit` of a window's requests are allowed, at every moment of
      the run and for every limit. */
  ghost predicate HoldsEveryLimit(requests: seq<Request>, n: nat, r: Request, windowS: nat)
    requires windowS > 0 && n <= |requests|
  {
    forall limit: nat, m: nat | limit > 0 && m <= n :: Allowed(requests, m, r, limit, windowS) <= limit
  }

  /** ... exactly when no request of it finds its counter expired. */
  lemma {:induction false} WindowHoldsExactly(requests: seq<Request>, n: nat, r: Request, windowS: nat)
    requires windowS > 0 && n <= |requests| && InOrder(requests)
    ensures HoldsEveryLimit(requests, n, r, windowS) <==> NoneLate(requests, n, r, windowS)
  {
    hide Allowed, Start, Sharing, Same, InOrder;
    if NoneLate(requests, n, r, windowS) {
      forall limit: nat, m: nat | limit > 0 && m <= n ensures Allowed(requests, m, r, limit, windowS) <= limit {
        WindowAllows(requests, m, r, limit, windowS);
      }
    } else {
      LateExceeds(requests, n, r, windowS);
    }
  }

  lemma {:induction false} LateExceeds(requests: seq<Request>, n: nat, r: Request, windowS: nat)
    requires windowS > 0 && n <= |requests| && InOrder(requests) && !NoneLate(requests, n, r, windowS)
    ensures !HoldsEveryLimit(requests, n, r, windowS)
  {
    hide Allowed, Start, Sharing, Same, InOrder, CountAt;
    if !NoneLate(requests, n - 1, r, windowS) {
      LateExceeds(requests, n - 1, r, windowS);
      var limit: nat, m: nat :| limit > 0 && m <= n - 1 && Allowed(requests, m, r, limit, windowS) > limit;
      assert m <= n;
    } else {
      var limit := Sharing(requests, n - 1, r, windowS);
      WindowAllows(requests, n - 1, r, limit, windowS);
      CountIs(requests, n - 1, r, windowS);
      OneMoreAllowed(requests, n, r, limit, windowS);
      assert Allowed(requests, n, r, limit, windowS) > limit;
    }
  }

  lemma OneMoreAllowed(requests: seq<Request>, n: nat, r: Request, limit: nat, windowS: nat)
    requires windowS > 0 && 0 < n <= |requests|
    requires Same(requests[n - 1], r, windowS) && CountAt(requests, n - 1, windowS) <= limit
    ensures Allowed(requests, n, r, limit, windowS) == Allowed(requests, n - 1, r, limit, windowS) + 1
  {
    hide Same, CountAt;
  }

  // ---- The bound over an interval --------------------------------------------------------

  /** The requests of a client made in an interval and allowed. */
  function AllowedIn(requests: seq<Request>, n: nat, scope: string, client: string, from: real, limit: nat,
                     windowS: nat): nat
    requires windowS > 0 && n <= |requests|
  {
    if n == 0 then 0
    else
      var r := requests[n - 1];
      AllowedIn(requests, n - 1, scope, client, from, limit, windowS)
      + (if r.scope == scope && r.client == client && from <= r.now < from + windowS as real
            && CountAt(requests, n - 1, windowS) <= limit then 1 else 0)
  }

  lemma IntervalMeetsTwoWindows(from: real, now: real, windowS: nat)
    requires windowS > 0 && from <= now < from + windowS as real
    ensures Window(now, windowS) == Window(from, windowS) || Window(now, windowS) == Window(from, windowS) + 1
    ensures Window(from + windowS as real, windowS) == Window(from, windowS) + 1
  {
    var q, w := Window(from, windowS), windowS as real;
    WindowHolds(from, windowS);
    NextWindowStart(q, w);
    NextWindowStart(q + 1, w);
    WindowIs(from + w, windowS, q + 1);
    if now < (q + 1) as real * w { WindowIs(now, windowS, q); } else { WindowIs(now, windowS, q + 1); }
  }

  /** A client's request at the start of the interval, and one a window's
      length later: the interval meets their windows and no other. */
  function Early(scope: string, client: string, from: real): Request {
    Request(from, from, scope, client)
  }

  function Later(scope: string, client: string, from: real, windowS: nat): Request {
    Request(from + windowS as real, from + windowS as real, scope, client)
  }

  /** The requests that share the counter of `r`, are made in the interval and
      are allowed. */
  function AllowedOf(requests: seq<Request>, n: nat, r: Request, from: real, limit: nat, windowS: nat): nat
    requires windowS > 0 && n <= |requests|
  {
    if n == 0 then 0
    else AllowedOf(requests, n - 1, r, from, limit, windowS)
         + (if Same(requests[n - 1], r, windowS) && from <= requests[n - 1].now < from + windowS as real
               && CountAt(requests, n - 1, windowS) <= limit then 1 else 0)
  }

  lemma {:induction false} AllowedOfIsFewer(requests: seq<Request>, n: nat, r: Request, from: real, limit: nat,
                                            windowS: nat)
    requires windowS > 0 && n <= |requests|
    ensures AllowedOf(requests, n, r, from, limit, windowS) <= Allowed(requests, n, r, limit, windowS)
  {
    hide CountAt, Same;
    if n > 0 { AllowedOfIsFewer(requests, n - 1, r, from, limit, windowS); }
  }

  lemma {:induction false} AllowedInTwoWindows(requests: seq<Request>, n: nat, scope: string, client: string,
                                               from: real, limit: nat, windowS: nat)
    requires windowS > 0 && n <= |requests|
    ensures AllowedIn(requests, n, scope, client, from, limit, windowS)
            == AllowedOf(requests, n, Early(scope, client, from), from, limit, windowS)
               + AllowedOf(requests, n, Later(scope, client, from, windowS), from, limit, windowS)
  {
    hide Window, CountAt;
    if n > 0 {
      AllowedInTwoWindows(requests, n - 1, scope, client, from, limit, windowS);
      var now := requests[n - 1].now;
      IntervalMeetsTwoWindows(from, from, windowS);
      if from <= now < from + windowS as real { IntervalMeetsTwoWindows(from, now, windowS); }
    }
  }

  /** In any interval of a window's length a client has at most twice the
      limit, when none of its requests of those two windows finds its counter
      expired. */
  lemma AtMostTwiceTheLimit(requests: seq<Request>, scope: string, client: string, from: real, limit: nat, windowS: nat)
    requires windowS > 0 && InOrder(requests)
    requires NoneLate(requests, |requests|, Early(scope, client, from), windowS)
    requires NoneLate(requests, |requests|, Later(scope, client, from, windowS), windowS)
    ensures AllowedIn(requests, |requests|, scope, client, from, limit, windowS) <= 2 * limit
  {
    hide Window, Allowed, AllowedOf, Sharing, AllowedIn, NoneLate, InOrder, Start;
    AllowedInTwoWindows(requests, |requests|, scope, client, from, limit, windowS);
    AllowedOfIsFewer(requests, |requests|, Early(scope, client, from), from, limit, windowS);
    AllowedOfIsFewer(requests, |requests|, Later(scope, client, from, windowS), from, limit, windowS);
    WindowAllows(requests, |requests|, Early(scope, client, from), limit, windowS);
    WindowAllows(requests, |requests|, Later(scope, client, from, windowS), limit, windowS);
  }

  /** Requests that reach the store within their own window find no counter
      expired. */
  lemma PromptIsNeverLate(requests: seq<Request>, n: nat, r: Request, windowS: nat)
    requires windowS > 0 && n <= |requests| && InOrder(requests)
    requires forall i | 0 <= i < n && Same(requests[i], r, windowS) ::
               requests[i].at < (Window(requests[i].now, windowS) + 1) as real * windowS as real
    ensures NoneLate(requests, n, r, windowS)
  {
    hide Window, InOrder, Start, Sharing, Same;
    forall i | 0 <= i < n && Same(requests[i], r, windowS) && Start(requests, i, r, windowS) >= 0
      ensures !Expired(requests, Start(requests, i, r, windowS), i, windowS)
    {
      SameWindow(requests[i], r, windowS);
      StartIsInWindow(requests, Start(requests, i, r, windowS), r, windowS);
    }
  }

  lemma OneMoreIn(requests: seq<Request>, i: nat, scope: string, client: string, from: real, limit: nat, windowS: nat)
    requires windowS > 0 && i < |requests|
    ensures var r := requests[i];
            r.scope == scope && r.client == client && from <= r.now < from + windowS as real
            && CountAt(requests, i, windowS) <= limit ==>
              AllowedIn(requests, i + 1, scope, client, from, limit, windowS)
              == AllowedIn(requests, i, scope, client, from, limit, windowS) + 1
  {
    hide CountAt;
  }

  /** A request just before the end of its window that reaches the store just
      after: past the expiry of that window's counter, so it starts a new one. */
  function LateRun(scope: string, client: string, windowS: nat, e: real): seq<Request> {
    var w := windowS as real;
    [Request(e, e, scope, client), Request(w - e, w + e, scope, client), Request(w + e / 2.0, w + e, scope, client)]
  }

  lemma LateWindows(scope: string, client: string, windowS: nat, e: real)
    requires windowS > 0 && 0.0 < 4.0 * e <= windowS as real
    ensures var r := LateRun(scope, client, windowS, e);
            Same(r[0], r[1], windowS) && !Same(r[0], r[2], windowS) && !Same(r[1], r[2], windowS)
            && Expired(r, 0, 1, windowS)
  {
    WindowIs(e, windowS, 0);
    WindowIs(windowS as real - e, windowS, 0);
    WindowIs(windowS as real + e / 2.0, windowS, 1);
    hide Window;
  }

  lemma LateInOrder(scope: string, client: string, windowS: nat, e: real)
    requires 0.0 < 4.0 * e <= windowS as real && ':' !in scope
    ensures InOrder(LateRun(scope, client, windowS, e))
  {
  }

  lemma LateCounts(scope: string, client: string, windowS: nat, e: real)
    requires windowS > 0 && 0.0 < 4.0 * e <= windowS as real && ':' !in scope
    ensures var r := LateRun(scope, client, windowS, e);
            CountAt(r, 0, windowS) == 1 && CountAt(r, 1, windowS) == 1 && CountAt(r, 2, windowS) == 1
  {
    var r := LateRun(scope, client, windowS, e);
    LateInOrder(scope, client, windowS, e);
    LateWindows(scope, client, windowS, e);
    assert Start(r, 0, r[1], windowS) == -1 && Start(r, 0, r[2], windowS) == -1;
    hide LateRun, Same, Expired, InOrder, CountAt, Start;
    StartOneMore(r, 0, r[1], windowS);
    StartOneMore(r, 0, r[2], windowS);
    StartOneMore(r, 1, r[2], windowS);
    CountIs(r, 0, r[1], windowS);
    CountIs(r, 1, r[1], windowS);
    CountIs(r, 2, r[2], windowS);
  }

  /** However small the delays: such a run has three of a client's requests
      allowed at limit 1 within a window's length. */
  lemma LateRequestExceedsTwice(scope: string, client: string, windowS: nat, delay: real) returns (from: real)
    requires windowS > 0 && delay > 0.0 && ':' !in scope
    ensures var r := LateRun(scope, client, windowS, from);
            InOrder(r) && AtMostLate(r, delay) && AllowedIn(r, 3, scope, client, from, 1, windowS) == 3
  {
    from := (if delay < windowS as real then delay else windowS as real) / 4.0;
    var r := LateRun(scope, client, windowS, from);
    LateInOrder(scope, client, windowS, from);
    LateCounts(scope, client, windowS, from);
    assert AllowedIn(r, 0, scope, client, from, 1, windowS) == 0;
    hide CountAt, AllowedIn, InOrder;
    OneMoreIn(r, 0, scope, client, from, 1, windowS);
    OneMoreIn(r, 1, scope, client, from, 1, windowS);
    OneMoreIn(r, 2, scope, client, from, 1, windowS);
  }

  /** Every request reaches the store at most `delay` seconds after it was
      made. */
  ghost predicate AtMostLate(requests: seq<Request>, delay: real) {
    forall i | 0 <= i < |requests| :: requests[i].at <= requests[i].now + delay
  }

  /** In every run with such delays, every interval of a window's length has at
      most twice the limit of a client's requests allowed. */
  ghost predicate TwiceHolds(windowS: nat, delay: real)
    requires windowS > 0
  {
    forall requests: seq<Request>, scope: string, client: string, from: real, limit: nat |
      InOrder(requests) && AtMostLate(requests, delay) ::
      AllowedIn(requests, |requests|, scope, client, from, limit, windowS) <= 2 * limit
  }

  /** Twice the limit holds of every run exactly when requests take no time to
      reach the store. */
  lemma TwiceHoldsExactly(windowS: nat, delay: real)
    requires windowS > 0 && delay >= 0.0
    ensures TwiceHolds(windowS, delay) <==> delay == 0.0
  {
    hide AllowedIn, InOrder, AtMostLate;
    if delay > 0.0 {
      var from := LateRequestExceedsTwice("", "", windowS, delay);
      var r := LateRun("", "", windowS, from);
      assert AllowedIn(r, |r|, "", "", from, 1, windowS) == 3;
    } else {
      forall requests: seq<Request>, scope: string, client: string, from: real, limit: nat |
        InOrder(requests) && AtMostLate(requests, delay)
        ensures AllowedIn(requests, |requests|, scope, client, from, limit, windowS) <= 2 * limit
      {
        AtOnceIsNeverLate(requests, Early(scope, client, from), windowS);
        AtOnceIsNeverLate(requests, Later(scope, client, from, windowS), windowS);
        AtMostTwiceTheLimit(requests, scope, client, from, limit, windowS);
      }
    }
  }

  lemma AtOnceIsNeverLate(requests: seq<Request>, r: Request, windowS: nat)
    requires windowS > 0 && InOrder(requests) && AtMostLate(requests, 0.0)
    ensures NoneLate(requests, |requests|, r, windowS)
  {
    hide Window, Same, NoneLate;
    forall i | 0 <= i < |requests| && Same(requests[i], r, windowS)
      ensures requests[i].at < (Window(requests[i].now, windowS) + 1) as real * windowS as real
    {
      WindowHolds(requests[i].now, windowS);
      assert requests[i].at <= requests[i].now + 0.0;
    }
    PromptIsNeverLate(requests, |requests|, r, windowS);
  }

  // ---- What holds of late requests too ---------------------------------------------------

  /** Every request of the client reaches the store less than `delay` seconds
      after it was made. The code waits for the reply twice its timeout, 0.4 s
      by default. */
  ghost predicate Within(requests: seq<Request>, scope: string, client: string, delay: real) {
    forall i | 0 <= i < |requests| && requests[i].scope == scope && requests[i].client == client ::
      requests[i].at < requests[i].now + delay
  }

  /** A request no later than that finds the second counter of its window
      live: the second started when the window was over. */
  lemma SecondCounterIsLive(requests: seq<Request>, i: nat, start: nat, r: Request, windowS: nat)
    requires windowS > 0 && i < |requests| && start < |requests| && Within(requests, r.scope, r.client, windowS as real)
    requires Same(requests[i], r, windowS)
    requires requests[start].at >= (Window(r.now, windowS) + 1) as real * windowS as real
    ensures !Expired(requests, start, i, windowS)
  {
    WindowHolds(requests[i].now, windowS);
    hide Window;
  }

  /** A window allows at most twice the limit: it has at most two counters. */
  lemma {:induction false} WindowAllowsTwice(requests: seq<Request>, n: nat, r: Request, limit: nat, windowS: nat)
    requires windowS > 0 && n <= |requests| && InOrder(requests)
    requires Within(requests, r.scope, r.client, windowS as real)
    ensures var start := Start(requests, n, r, windowS);
            var allowed := Allowed(requests, n, r, limit, windowS);
            if start < 0 then allowed == 0
            else
              var c := Counted(requests, n, r, windowS);
              var now := if c <= limit then c else limit;
              if Sharing(requests, start, r, windowS) == 0 then allowed == now
              else requests[start].at >= (Window(r.now, windowS) + 1) as real * windowS as real
                   && allowed <= limit + now
  {
    hide Window, CountAt, InOrder, Within, Counted;
    if n > 0 {
      var i := n - 1;
      WindowAllowsTwice(requests, i, r, limit, windowS);
      CountedOneMore(requests, i, r, windowS);
      if Same(requests[i], r, windowS) {
        CountIs(requests, i, r, windowS);
        var before := Start(requests, i, r, windowS);
        if before >= 0 {
          StartIsInWindow(requests, before, r, windowS);
          SharingGrows(requests, before, i, r, windowS);
          if Sharing(requests, before, r, windowS) > 0 { SecondCounterIsLive(requests, i, before, r, windowS); }
        }
      }
      hide Same;
    }
  }

  /** In any interval of a window's length a client has at most four times the
      limit, late requests included. */
  lemma AtMostFourTimesTheLimit(requests: seq<Request>, scope: string, client: string, from: real, limit: nat,
                                windowS: nat)
    requires windowS > 0 && InOrder(requests) && Within(requests, scope, client, windowS as real)
    ensures AllowedIn(requests, |requests|, scope, client, from, limit, windowS) <= 4 * limit
  {
    hide Window, Allowed, AllowedOf, Sharing, AllowedIn, InOrder, Within, Start;
    AllowedInTwoWindows(requests, |requests|, scope, client, from, limit, windowS);
    AllowedOfIsFewer(requests, |requests|, Early(scope, client, from), from, limit, windowS);
    AllowedOfIsFewer(requests, |requests|, Later(scope, client, from, windowS), from, limit, windowS);
    WindowAllowsTwice(requests, |requests|, Early(scope, client, from), limit, windowS);
    WindowAllowsTwice(requests, |requests|, Later(scope, client, from, windowS), limit, windowS);
  }

  /** Four requests, one for each of the two counters of both windows. Two of
      them are about a minute on their way. */
  function FourLate(scope: string, client: string): seq<Request> {
    [Request(59.0, 59.0, scope, client), Request(60.0, 60.0, scope, client),
     Request(59.9, 119.5, scope, client), Request(118.9, 120.0, scope, client)]
  }

  lemma FourWindows(scope: string, client: string)
    ensures var r := FourLate(scope, client);
            && Same(r[0], r[2], 60) && Same(r[1], r[3], 60) && !Same(r[0], r[3], 60) && !Same(r[1], r[2], 60)
            && !Same(r[2], r[3], 60)
            && Expired(r, 0, 2, 60) && Expired(r, 1, 3, 60)
  {
    WindowIs(59.0, 60, 0);
    WindowIs(60.0, 60, 1);
    WindowIs(59.9, 60, 0);
    WindowIs(118.9, 60, 1);
    hide Window;
  }

  lemma FourInOrder(scope: string, client: string)
    requires ':' !in scope
    ensures InOrder(FourLate(scope, client)) && Within(FourLate(scope, client), scope, client, 60.0)
  {
  }

  lemma FourCounts(scope: string, client: string)
    requires ':' !in scope
    ensures var r := FourLate(scope, client);
            CountAt(r, 0, 60) == 1 && CountAt(r, 1, 60) == 1 && CountAt(r, 2, 60) == 1 && CountAt(r, 3, 60) == 1
  {
    var r := FourLate(scope, client);
    FourInOrder(scope, client);
    FourWindows(scope, client);
    assert Start(r, 0, r[2], 60) == -1 && Start(r, 0, r[3], 60) == -1;
    hide FourLate, Same, Expired, InOrder, Within, CountAt, Start;
    StartOneMore(r, 0, r[2], 60);
    StartOneMore(r, 1, r[2], 60);
    StartOneMore(r, 0, r[3], 60);
    StartOneMore(r, 1, r[3], 60);
    StartOneMore(r, 2, r[3], 60);
    CountIs(r, 0, r[2], 60);
    CountIs(r, 1, r[3], 60);
    CountIs(r, 2, r[2], 60);
    CountIs(r, 3, r[3], 60);
  }

  /** ... and with such delays no smaller multiple bounds it. */
  lemma FourTimesIsReached(scope: string, client: string)
    requires ':' !in scope
    ensures var r := FourLate(scope, client);
            InOrder(r) && Within(r, scope, client, 60.0) && AllowedIn(r, 4, scope, client, 59.0, 1, 60) == 4
  {
    var r := FourLate(scope, client);
    FourInOrder(scope, client);
    FourCounts(scope, client);
    assert AllowedIn(r, 0, scope, client, 59.0, 1, 60) == 0;
    hide CountAt, AllowedIn, InOrder, Within;
    OneMoreIn(r, 0, scope, client, 59.0, 1, 60);
    OneMoreIn(r, 1, scope, client, 59.0, 1, 60);
    OneMoreIn(r, 2, scope, client, 59.0, 1, 60);
    OneMoreIn(r, 3, scope, client, 59.0, 1, 60);
  }

  // ---- ... and when delays are at most half a window ------------------------------------

  /** A counter that is not its window's first started when the window was
      over. */
  lemma {:induction false} SecondStart(requests: seq<Request>, n: nat, r: Request, windowS: nat)
    requires windowS > 0 && n <= |requests| && InOrder(requests)
    ensures var start := Start(requests, n, r, windowS);
            start >= 0 && Sharing(requests, start, r, windowS) > 0 ==>
              requests[start].at >= (Window(r.now, windowS) + 1) as real * windowS as real
  {
    hide Window, InOrder, Same;
    if n > 0 {
      var i := n - 1;
      SecondStart(requests, i, r, windowS);
      StartOneMore(requests, i, r, windowS);
      var before := Start(requests, i, r, windowS);
      if before >= 0 { StartIsInWindow(requests, before, r, windowS); }
    }
  }

  /** A request that reaches the store when its window is over was made after
      an interval that ends a delay or more before the window does. */
  lemma OutOfInterval(requests: seq<Request>, i: nat, r: Request, from: real, windowS: nat, delay: real)
    requires windowS > 0 && i < |requests| && Within(requests, r.scope, r.client, delay)
    requires Same(requests[i], r, windowS) && from + delay <= Window(r.now, windowS) as real * windowS as real
    requires requests[i].at >= (Window(r.now, windowS) + 1) as real * windowS as real
    ensures requests[i].now >= from + windowS as real
  {
    NextWindowStart(Window(r.now, windowS), windowS as real);
    hide Window;
  }

  lemma AfterSecondStart(requests: seq<Request>, i: nat, r: Request, windowS: nat)
    requires windowS > 0 && i < |requests| && InOrder(requests) && Same(requests[i], r, windowS)
    requires var start := Start(requests, i, r, windowS);
             start >= 0 && (Expired(requests, start, i, windowS) || Sharing(requests, start, r, windowS) > 0)
    ensures requests[i].at >= (Window(r.now, windowS) + 1) as real * windowS as real
  {
    var start := Start(requests, i, r, windowS);
    SecondStart(requests, i, r, windowS);
    StartIsInWindow(requests, start, r, windowS);
    hide Window, Start, Sharing, Same;
  }

  /** The second window of such an interval has one counter in it. */
  lemma {:induction false} LastCounterIsOut(requests: seq<Request>, n: nat, r: Request, from: real, limit: nat,
                                            windowS: nat, delay: real)
    requires windowS > 0 && n <= |requests| && InOrder(requests) && Within(requests, r.scope, r.client, delay)
    requires from + delay <= Window(r.now, windowS) as real * windowS as real
    ensures var start := Start(requests, n, r, windowS);
            var allowed := AllowedOf(requests, n, r, from, limit, windowS);
            if start < 0 then allowed == 0
            else
              var c := Counted(requests, n, r, windowS);
              allowed <= if Sharing(requests, start, r, windowS) == 0 && c <= limit then c else limit
  {
    hide Window, CountAt, InOrder, Within, Counted, Expired, Same;
    if n > 0 {
      var i := n - 1;
      LastCounterIsOut(requests, i, r, from, limit, windowS, delay);
      CountedOneMore(requests, i, r, windowS);
      if Same(requests[i], r, windowS) {
        CountIs(requests, i, r, windowS);
        var before := Start(requests, i, r, windowS);
        if before >= 0 {
          SharingGrows(requests, before, i, r, windowS);
          if Expired(requests, before, i, windowS) || Sharing(requests, before, r, windowS) > 0 {
            AfterSecondStart(requests, i, r, windowS);
            OutOfInterval(requests, i, r, from, windowS, delay);
          }
        }
      }
    }
  }

  /** A counter that a request of its window finds expired was started early
      in it. */
  lemma StartWasEarly(requests: seq<Request>, start: nat, i: nat, r: Request, from: real, windowS: nat, delay: real)
    requires windowS > 0 && start < |requests| && i < |requests| && InOrder(requests)
    requires Within(requests, r.scope, r.client, delay) && 2.0 * delay <= windowS as real
    requires Same(requests[i], r, windowS) && Expired(requests, start, i, windowS)
    requires from + delay > (Window(r.now, windowS) + 1) as real * windowS as real
    ensures requests[start].now < from
  {
    var end := (Window(r.now, windowS) + 1) as real * windowS as real;
    WindowHolds(requests[i].now, windowS);
    SameWindow(requests[i], r, windowS);
    hide Window, Same;
    assert requests[i].now < end;
    assert requests[start].at + windowS as real <= requests[i].at < end + delay;
  }

  lemma ThirdCounterNever(requests: seq<Request>, i: nat, r: Request, windowS: nat, delay: real)
    requires windowS > 0 && i < |requests| && InOrder(requests)
    requires Within(requests, r.scope, r.client, delay) && delay <= windowS as real
    requires Same(requests[i], r, windowS)
    ensures var start := Start(requests, i, r, windowS);
            start >= 0 && Sharing(requests, start, r, windowS) > 0 ==> !Expired(requests, start, i, windowS)
  {
    var start := Start(requests, i, r, windowS);
    SecondStart(requests, i, r, windowS);
    WithinLonger(requests, r.scope, r.client, delay, windowS as real);
    hide Window, Start, Sharing, Same, Expired, Within;
    if start >= 0 && Sharing(requests, start, r, windowS) > 0 { SecondCounterIsLive(requests, i, start, r, windowS); }
  }

  /** If the interval ends later, the start of the first window's first counter
      is not in it when that window has a second. */
  lemma {:induction false} FirstStartIsOut(requests: seq<Request>, n: nat, r: Request, from: real, limit: nat,
                                           windowS: nat, delay: real)
    requires windowS > 0 && n <= |requests| && InOrder(requests) && limit > 0
    requires Within(requests, r.scope, r.client, delay) && 2.0 * delay <= windowS as real
    requires from + delay > (Window(r.now, windowS) + 1) as real * windowS as real
    ensures var start := Start(requests, n, r, windowS);
            var allowed := AllowedOf(requests, n, r, from, limit, windowS);
            if start < 0 then allowed == 0
            else
              var c := Counted(requests, n, r, windowS);
              var now := if c <= limit then c else limit;
              && now > 0
              && if Sharing(requests, start, r, windowS) == 0
                 then allowed <= if requests[start].now < from then now - 1 else now
                 else allowed <= limit - 1 + now
  {
    hide Window, CountAt, InOrder, Within, Counted, Expired, Same;
    if n > 0 {
      var i := n - 1;
      FirstStartIsOut(requests, i, r, from, limit, windowS, delay);
      CountedOneMore(requests, i, r, windowS);
      if Same(requests[i], r, windowS) {
        CountIs(requests, i, r, windowS);
        ThirdCounterNever(requests, i, r, windowS, delay);
        var before := Start(requests, i, r, windowS);
        if before >= 0 {
          SharingGrows(requests, before, i, r, windowS);
          if Expired(requests, before, i, windowS) { StartWasEarly(requests, before, i, r, from, windowS, delay); }
        }
      }
    }
  }

  /** What the interval takes of a window: twice the limit at most, and less
      in the first window or in the second. */
  lemma TwiceAtMost(requests: seq<Request>, r: Request, from: real, limit: nat, windowS: nat)
    requires windowS > 0 && InOrder(requests) && Within(requests, r.scope, r.client, windowS as real)
    ensures AllowedOf(requests, |requests|, r, from, limit, windowS) <= 2 * limit
  {
    hide *;
    WindowAllowsTwice(requests, |requests|, r, limit, windowS);
    AllowedOfIsFewer(requests, |requests|, r, from, limit, windowS);
  }

  lemma OnceAtMost(requests: seq<Request>, r: Request, from: real, limit: nat, windowS: nat, delay: real)
    requires windowS > 0 && InOrder(requests) && Within(requests, r.scope, r.client, delay)
    requires from + delay <= Window(r.now, windowS) as real * windowS as real
    ensures AllowedOf(requests, |requests|, r, from, limit, windowS) <= limit
  {
    hide *;
    LastCounterIsOut(requests, |requests|, r, from, limit, windowS, delay);
  }

  lemma OneLessThanTwice(requests: seq<Request>, r: Request, from: real, limit: nat, windowS: nat, delay: real)
    requires windowS > 0 && InOrder(requests) && limit > 0
    requires Within(requests, r.scope, r.client, delay) && 2.0 * delay <= windowS as real
    requires from + delay > (Window(r.now, windowS) + 1) as real * windowS as real
    ensures AllowedOf(requests, |requests|, r, from, limit, windowS) <= 2 * limit - 1
  {
    hide *;
    FirstStartIsOut(requests, |requests|, r, from, limit, windowS, delay);
  }

  lemma WithinLonger(requests: seq<Request>, scope: string, client: string, delay: real, longer: real)
    requires Within(requests, scope, client, delay) && delay <= longer
    ensures Within(requests, scope, client, longer)
  {
  }

  /** With delays of at most half a window, in any interval of a window's
      length a client has fewer than four times the limit. At limit 1,
      LateRequestExceedsTwice reaches the bound, with delays of any size. */
  lemma FewerThanFourTimes(requests: seq<Request>, scope: string, client: string, from: real, limit: nat,
                           windowS: nat, delay: real)
    requires windowS > 0 && limit > 0 && InOrder(requests)
    requires Within(requests, scope, client, delay) && 2.0 * delay <= windowS as real
    ensures AllowedIn(requests, |requests|, scope, client, from, limit, windowS) <= 4 * limit - 1
  {
    hide Window, AllowedOf, AllowedIn, InOrder, Within;
    var early, later := Early(scope, client, from), Later(scope, client, from, windowS);
    AllowedInTwoWindows(requests, |requests|, scope, client, from, limit, windowS);
    IntervalMeetsTwoWindows(from, from, windowS);
    WithinLonger(requests, scope, client, delay, windowS as real);
    TwiceAtMost(requests, early, from, limit, windowS);
    TwiceAtMost(requests, later, from, limit, windowS);
    if from + delay <= (Window(from, windowS) + 1) as real * windowS as real {
      OnceAtMost(requests, later, from, limit, windowS, delay);
    } else {
      OneLessThanTwice(requests, early, from, limit, windowS, delay);
    }
  }
}
