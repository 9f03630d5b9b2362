/** `fisher_worse` and `regressions` of evals/run.py: an exact test, proved to
    count what it is meant to count. */
module Fisher {
  import opened Common

  /** `math.comb`, by Pascal's rule. */
  function Comb(n: nat, k: int): nat {
    if k < 0 || k > n then 0
    else if k == 0 || k == n then 1
    else Comb(n - 1, k - 1) + Comb(n - 1, k)
  }

  lemma Pascal(n: nat, k: int)
    requires n > 0
    ensures Comb(n, k) == Comb(n - 1, k - 1) + Comb(n - 1, k)
  {
  }

  lemma {:induction false} CombPositive(n: nat, k: nat)
    ensures Comb(n, k) > 0 <==> k <= n
  {
    if 0 < k < n { CombPositive(n - 1, k); }
  }

  // ---- The sum, as the code writes it ------------------------------------------

  /** Draws of `drawn` runs of which `x` fail, when `fails` of all `runs` do. */
  function Term(fails: nat, runs: nat, drawn: nat, x: nat): nat
    requires fails <= runs
  {
    Comb(fails, x) * Comb(runs - fails, drawn - x)
  }

  /** The terms from `x` to `last`. */
  function Sum(fails: nat, runs: nat, drawn: nat, x: nat, last: int): nat
    requires fails <= runs
    decreases last - x
  {
    if x > last then 0 else Term(fails, runs, drawn, x) + Sum(fails, runs, drawn, x + 1, last)
  }

  function Tail(fails: nat, runs: nat, drawn: nat, least: nat): nat
    requires fails <= runs
  {
    Sum(fails, runs, drawn, least, if fails <= drawn then fails else drawn)
  }

  function FisherWorse(failsNow: nat, runsNow: nat, failsBefore: nat, runsBefore: nat): (p: real)
    requires failsNow <= runsNow && failsBefore <= runsBefore
  {
    var runs, fails := runsNow + runsBefore, failsNow + failsBefore;
    CombPositive(runs, runsNow);
    Tail(fails, runs, runsNow, failsNow) as real / Comb(runs, runsNow) as real
  }

  // ---- What it counts: sets of runs ----------------------------------------------

  ghost function Range(n: nat): (r: set<nat>)
    ensures |r| == n && forall i: nat :: i in r <==> i < n
  {
    if n == 0 then {} else Range(n - 1) + {n - 1}
  }

  /** The ways to draw `k` of `n` runs. */
  ghost function Draws(n: nat, k: int): set<set<nat>> {
    set s: set<nat> | s <= Range(n) && |s| == k
  }

  /** Those with exactly `x` of the first `m` runs. */
  ghost function DrawsWith(m: nat, n: nat, k: int, x: int): set<set<nat>> {
    set s: set<nat> | s <= Range(n) && |s| == k && |s * Range(m)| == x
  }

  /** Those with at least `x` of them. */
  ghost function DrawsAtLeast(m: nat, n: nat, k: int, x: int): set<set<nat>> {
    set s: set<nat> | s <= Range(n) && |s| == k && |s * Range(m)| >= x
  }

  ghost function Adding(e: nat, sets: set<set<nat>>): set<set<nat>> {
    set s | s in sets :: s + {e}
  }

  lemma AddingIsInjective(e: nat, s: set<nat>, t: set<nat>)
    requires e !in s && e !in t && s != t
    ensures s + {e} != t + {e}
  {
    assert (s + {e}) - {e} == s && (t + {e}) - {e} == t;
  }

  lemma AddingOneMore(e: nat, sets: set<set<nat>>, s: set<nat>)
    requires s !in sets && e !in s && forall t | t in sets :: e !in t
    ensures |Adding(e, sets + {s})| == |Adding(e, sets)| + 1
  {
    forall t | t in sets ensures t + {e} != s + {e} { AddingIsInjective(e, s, t); }
    var x := s + {e};
    assert Adding(e, sets + {s}) == Adding(e, sets) + {x};
    assert x !in Adding(e, sets);
    hide *;
    OneMoreSet(Adding(e, sets), x);
  }

  lemma OneMoreSet(sets: set<set<nat>>, x: set<nat>)
    requires x !in sets
    ensures |sets + {x}| == |sets| + 1
  {
  }

  lemma AddingNothing(e: nat)
    ensures |Adding(e, {})| == 0
  {
    assert Adding(e, {}) == {};
  }

  lemma WithoutOne(sets: set<set<nat>>, s: set<nat>)
    requires s in sets
    ensures (sets - {s}) + {s} == sets && |sets - {s}| == |sets| - 1
  {
  }

  lemma {:induction false} AddingCounts(e: nat, sets: set<set<nat>>)
    requires forall s | s in sets :: e !in s
    ensures |Adding(e, sets)| == |sets|
    decreases |sets|
  {
    hide Adding;
    if s :| s in sets {
      WithoutOne(sets, s);
      AddingCounts(e, sets - {s});
      AddingOneMore(e, sets - {s}, s);
    } else {
      assert sets == {};
      AddingNothing(e);
    }
  }

  /** The last run is drawn or not. */
  lemma LastRun(n: nat, s: set<nat>)
    requires n > 0
    ensures s <= Range(n) && n - 1 !in s <==> s <= Range(n - 1)
    ensures s <= Range(n) && n - 1 in s ==>
              s - {n - 1} <= Range(n - 1) && s == (s - {n - 1}) + {n - 1} && |s - {n - 1}| == |s| - 1
    ensures s <= Range(n - 1) ==> n - 1 !in s && s + {n - 1} <= Range(n) && |s + {n - 1}| == |s| + 1
  {
  }

  lemma DrawsSplit(n: nat, k: int)
    requires n > 0
    ensures |Draws(n, k)| == |Draws(n - 1, k)| + |Draws(n - 1, k - 1)|
  {
    hide Range;
    var e := n - 1;
    var without, rest := Draws(e, k), Draws(e, k - 1);
    forall s | s in Draws(n, k) ensures s in without + Adding(e, rest) {
      LastRun(n, s);
      if e in s { assert s - {e} in rest; }
    }
    forall s | s in without ensures s in Draws(n, k) && e !in s { LastRun(n, s); }
    forall t | t in rest ensures t + {e} in Draws(n, k) && e !in t { LastRun(n, t); }
    SplitCounts(Draws(n, k), without, rest, e);
  }

  /** Sets with and without `e` are counted apart. */
  lemma SplitCounts(all: set<set<nat>>, without: set<set<nat>>, rest: set<set<nat>>, e: nat)
    requires forall s | s in all :: s in without || s in Adding(e, rest)
    requires forall s | s in without :: s in all && e !in s
    requires forall t | t in rest :: t + {e} in all && e !in t
    ensures |all| == |without| + |rest|
  {
    AddingCounts(e, rest);
    forall s | s in Adding(e, rest) ensures s in all && e in s {
      var t :| t in rest && s == t + {e};
    }
    hide Adding;
    assert all == without + Adding(e, rest);
    Apart(without, Adding(e, rest), e);
  }

  lemma Apart(a: set<set<nat>>, b: set<set<nat>>, e: nat)
    requires (forall s | s in a :: e !in s) && forall s | s in b :: e in s
    ensures |a + b| == |a| + |b|
  {
    assert a * b == {};
  }

  lemma NoDraws(k: int)
    ensures |Draws(0, k)| == Comb(0, k)
  {
    if k == 0 {
      assert Draws(0, 0) == {{}};
    } else {
      assert Draws(0, k) == {};
    }
  }

  /** `math.comb` counts the draws. */
  lemma {:induction false} CombCountsDraws(n: nat, k: int)
    ensures |Draws(n, k)| == Comb(n, k)
  {
    hide Draws;
    if n == 0 {
      NoDraws(k);
    } else {
      DrawsSplit(n, k);
      Pascal(n, k);
      CombCountsDraws(n - 1, k);
      CombCountsDraws(n - 1, k - 1);
    }
  }

  lemma DrawsWithCovered(m: nat, n: nat, k: int, x: int)
    requires n > m
    ensures forall s | s in DrawsWith(m, n, k, x) ::
              s in DrawsWith(m, n - 1, k, x) || s in Adding(n - 1, DrawsWith(m, n - 1, k - 1, x))
  {
    forall s | s in DrawsWith(m, n, k, x)
      ensures s in DrawsWith(m, n - 1, k, x) || s in Adding(n - 1, DrawsWith(m, n - 1, k - 1, x))
    {
      DrawTaken(m, n, k, x, s);
    }
    hide *;
  }

  lemma DrawsWithout(m: nat, n: nat, k: int, x: int)
    requires n > m
    ensures forall s | s in DrawsWith(m, n - 1, k, x) :: s in DrawsWith(m, n, k, x) && n - 1 !in s
  {
    forall s | s in DrawsWith(m, n - 1, k, x) ensures s in DrawsWith(m, n, k, x) && n - 1 !in s {
      DrawWithout(m, n, k, x, s);
    }
    hide *;
  }

  lemma DrawsAdded(m: nat, n: nat, k: int, x: int, rest: set<set<nat>>)
    requires n > m && rest == DrawsWith(m, n - 1, k - 1, x)
    ensures forall t | t in rest :: t + {n - 1} in DrawsWith(m, n, k, x) && n - 1 !in t
  {
    forall t | t in rest ensures t + {n - 1} in DrawsWith(m, n, k, x) && n - 1 !in t { DrawAdded(m, n, k, x, t); }
    hide *;
  }

  lemma DrawsWithSplit(m: nat, n: nat, k: int, x: int)
    requires n > m
    ensures |DrawsWith(m, n, k, x)| == |DrawsWith(m, n - 1, k, x)| + |DrawsWith(m, n - 1, k - 1, x)|
  {
    hide *;
    DrawsWithCovered(m, n, k, x);
    DrawsWithout(m, n, k, x);
    DrawsAdded(m, n, k, x, DrawsWith(m, n - 1, k - 1, x));
    SplitCounts(DrawsWith(m, n, k, x), DrawsWith(m, n - 1, k, x), DrawsWith(m, n - 1, k - 1, x), n - 1);
  }

  lemma DrawTaken(m: nat, n: nat, k: int, x: int, s: set<nat>)
    requires n > m && s in DrawsWith(m, n, k, x)
    ensures s in DrawsWith(m, n - 1, k, x) || s in Adding(n - 1, DrawsWith(m, n - 1, k - 1, x))
  {
    hide Range;
    LastRun(n, s);
    SameOfFirst(m, s, n - 1);
    if n - 1 in s { assert s - {n - 1} in DrawsWith(m, n - 1, k - 1, x); }
  }

  lemma DrawWithout(m: nat, n: nat, k: int, x: int, s: set<nat>)
    requires n > m && s in DrawsWith(m, n - 1, k, x)
    ensures s in DrawsWith(m, n, k, x) && n - 1 !in s
  {
    hide Range;
    LastRun(n, s);
  }

  lemma DrawAdded(m: nat, n: nat, k: int, x: int, t: set<nat>)
    requires n > m && t in DrawsWith(m, n - 1, k - 1, x)
    ensures t + {n - 1} in DrawsWith(m, n, k, x) && n - 1 !in t
  {
    hide Range;
    LastRun(n, t);
    SameOfFirst(m, t, n - 1);
  }

  lemma SameOfFirst(m: nat, s: set<nat>, e: nat)
    requires e >= m
    ensures (s + {e}) * Range(m) == s * Range(m) == (s - {e}) * Range(m)
  {
  }

  lemma DrawsOfOnlyThose(m: nat, k: int, x: int)
    ensures |DrawsWith(m, m, k, x)| == Comb(m, x) * Comb(0, k - x)
  {
    CombCountsDraws(m, k);
    assert forall s: set<nat> | s <= Range(m) :: s * Range(m) == s;
    if k == x {
      assert DrawsWith(m, m, k, x) == Draws(m, k);
    } else {
      assert DrawsWith(m, m, k, x) == {};
    }
    hide Draws;
  }

  /** The term's product counts the draws with `x` of the first `m`. */
  lemma {:induction false} TermCountsDraws(m: nat, n: nat, k: int, x: int)
    requires m <= n
    ensures |DrawsWith(m, n, k, x)| == Comb(m, x) * Comb(n - m, k - x)
    decreases n
  {
    hide DrawsWith;
    if n == m {
      DrawsOfOnlyThose(m, k, x);
    } else {
      DrawsWithSplit(m, n, k, x);
      Pascal(n - m, k - x);
      TermCountsDraws(m, n - 1, k, x);
      TermCountsDraws(m, n - 1, k - 1, x);
      Distribute(Comb(m, x), Comb(n - 1 - m, k - x), Comb(n - 1 - m, k - 1 - x));
    }
  }

  lemma Distribute(a: int, b: int, c: int)
    ensures a * (b + c) == a * b + a * c
  {
  }

  /** The sum of the code counts the draws with at least `least` failures. */
  lemma {:induction false} TailCountsDraws(fails: nat, runs: nat, drawn: nat, least: nat)
    requires fails <= runs
    ensures |DrawsAtLeast(fails, runs, drawn, least)| == Tail(fails, runs, drawn, least)
    decreases fails + drawn + 1 - least
  {
    hide DrawsAtLeast, DrawsWith, Comb;
    var last := if fails <= drawn then fails else drawn;
    if least > last {
      NoDrawHasMore(fails, runs, drawn, least);
    } else {
      TailCountsDraws(fails, runs, drawn, least + 1);
      TermCountsDraws(fails, runs, drawn, least);
      ExactlyOrMore(fails, runs, drawn, least);
    }
  }

  lemma NoDrawHasMore(m: nat, n: nat, k: nat, x: nat)
    requires x > m || x > k
    ensures |DrawsAtLeast(m, n, k, x)| == 0
  {
    forall s | s in DrawsAtLeast(m, n, k, x) ensures false {
      SubsetIsSmaller(s * Range(m), Range(m));
      SubsetIsSmaller(s * Range(m), s);
    }
    assert DrawsAtLeast(m, n, k, x) == {};
  }

  lemma SubsetIsSmaller(a: set<nat>, b: set<nat>)
    requires a <= b
    ensures |a| <= |b|
  {
    assert b == a + (b - a);
  }

  lemma ExactlyOrMore(m: nat, n: nat, k: nat, x: nat)
    ensures |DrawsAtLeast(m, n, k, x)| == |DrawsWith(m, n, k, x)| + |DrawsAtLeast(m, n, k, x + 1)|
  {
    var a, b := DrawsWith(m, n, k, x), DrawsAtLeast(m, n, k, x + 1);
    assert DrawsAtLeast(m, n, k, x) == a + b;
    assert a * b == {};
  }

  // ---- What the test says -------------------------------------------------------------

  /** The value is a share of draws: of all the ways the current runs could
      have been drawn from all the runs, those with at least as many failures
      as there were. */
  lemma FisherIsShareOfDraws(failsNow: nat, runsNow: nat, failsBefore: nat, runsBefore: nat)
    requires failsNow <= runsNow && failsBefore <= runsBefore
    ensures var runs, fails := runsNow + runsBefore, failsNow + failsBefore;
            && |Draws(runs, runsNow)| > 0
            && FisherWorse(failsNow, runsNow, failsBefore, runsBefore)
               == |DrawsAtLeast(fails, runs, runsNow, failsNow)| as real / |Draws(runs, runsNow)| as real
  {
    hide Draws, DrawsAtLeast, Tail, Comb;
    var runs, fails := runsNow + runsBefore, failsNow + failsBefore;
    TailCountsDraws(fails, runs, runsNow, failsNow);
    CombCountsDraws(runs, runsNow);
    CombPositive(runs, runsNow);
  }

  /** Vandermonde's identity: all the terms together count all the draws. */
  lemma AllTermsCountAllDraws(fails: nat, runs: nat, drawn: nat)
    requires fails <= runs
    ensures Tail(fails, runs, drawn, 0) == Comb(runs, drawn)
  {
    TailCountsDraws(fails, runs, drawn, 0);
    CombCountsDraws(runs, drawn);
    assert DrawsAtLeast(fails, runs, drawn, 0) == Draws(runs, drawn);
    hide Tail, Comb;
  }

  /** More failures among the current runs never make the value larger, at
      fixed totals. */
  lemma {:induction false} TailFalls(fails: nat, runs: nat, drawn: nat, least: nat, more: nat)
    requires fails <= runs && least <= more
    ensures Tail(fails, runs, drawn, more) <= Tail(fails, runs, drawn, least)
    decreases more - least
  {
    if least < more { TailFalls(fails, runs, drawn, least + 1, more); }
    hide Comb;
  }

  lemma FisherFalls(failsNow: nat, runsNow: nat, failsBefore: nat, runsBefore: nat, more: nat)
    requires failsNow <= runsNow && failsBefore <= runsBefore
    requires failsNow <= more <= runsNow && more - failsNow <= failsBefore
    ensures FisherWorse(more, runsNow, failsBefore - (more - failsNow), runsBefore)
            <= FisherWorse(failsNow, runsNow, failsBefore, runsBefore)
  {
    hide Tail, Comb;
    var runs, fails := runsNow + runsBefore, failsNow + failsBefore;
    TailFalls(fails, runs, runsNow, failsNow, more);
    CombPositive(runs, runsNow);
    Shares(Tail(fails, runs, runsNow, more), Tail(fails, runs, runsNow, failsNow), Comb(runs, runsNow));
  }

  lemma Shares(a: nat, b: nat, c: nat)
    requires a <= b && c > 0
    ensures a as real / c as real <= b as real / c as real
  {
    var p, q := a as real / c as real, b as real / c as real;
    assert (q - p) * c as real == b as real - a as real;
  }

  lemma TermPositive(fails: nat, runs: nat, drawn: nat, x: nat)
    requires fails <= runs
    ensures Term(fails, runs, drawn, x) > 0 <==> x <= fails && 0 <= drawn - x <= runs - fails
  {
    CombPositive(fails, x);
    if drawn >= x { CombPositive(runs - fails, drawn - x); }
    MulPositive(Comb(fails, x), Comb(runs - fails, drawn - x));
  }

  lemma MulPositive(a: nat, b: nat)
    ensures a * b > 0 <==> a > 0 && b > 0
  {
  }

  lemma {:induction false} TailFrom(fails: nat, runs: nat, drawn: nat, least: nat)
    requires fails <= runs
    ensures Tail(fails, runs, drawn, least) == Tail(fails, runs, drawn, 0)
            <==> least == 0 || forall x: nat | x < least :: Term(fails, runs, drawn, x) == 0
  {
    if least > 0 {
      TailFrom(fails, runs, drawn, least - 1);
      TailFalls(fails, runs, drawn, 0, least - 1);
      LastTerm(fails, runs, drawn, least - 1);
    }
    hide Term;
  }

  lemma LastTerm(fails: nat, runs: nat, drawn: nat, x: nat)
    requires fails <= runs
    ensures Tail(fails, runs, drawn, x) == Term(fails, runs, drawn, x) + Tail(fails, runs, drawn, x + 1)
  {
    if x > fails || x > drawn { TermPositive(fails, runs, drawn, x); }
    hide Term;
  }

  /** The value is greater than 0 and at most 1. It is 1 exactly when the
      current runs have the fewest failures they could: none, or no more than
      a baseline without a pass leaves. */
  lemma FisherBounds(failsNow: nat, runsNow: nat, failsBefore: nat, runsBefore: nat)
    requires failsNow <= runsNow && failsBefore <= runsBefore
    ensures var p := FisherWorse(failsNow, runsNow, failsBefore, runsBefore);
            0.0 < p <= 1.0 && (p == 1.0 <==> failsNow == 0 || failsBefore == runsBefore)
  {
    var runs, fails := runsNow + runsBefore, failsNow + failsBefore;
    AllTermsCountAllDraws(fails, runs, runsNow);
    TailFalls(fails, runs, runsNow, 0, failsNow);
    TermPositive(fails, runs, runsNow, failsNow);
    LastTerm(fails, runs, runsNow, failsNow);
    TailFrom(fails, runs, runsNow, failsNow);
    if failsNow > 0 {
      TermPositive(fails, runs, runsNow, failsNow - 1);
      if failsBefore == runsBefore {
        forall x: nat | x < failsNow ensures Term(fails, runs, runsNow, x) == 0 {
          TermPositive(fails, runs, runsNow, x);
        }
      }
    }
    CombPositive(runs, runsNow);
    hide Tail, Comb, Term;
    Share(Tail(fails, runs, runsNow, failsNow), Comb(runs, runsNow));
  }

  lemma Share(a: nat, b: nat)
    requires 0 < a <= b
    ensures 0.0 < a as real / b as real <= 1.0 && (a as real / b as real == 1.0 <==> a == b)
  {
    var q := a as real / b as real;
    assert q * b as real == a as real;
  }

  // ---- regressions --------------------------------------------------------------------------

  const REGRESSION_P := 0.05

  /** A case of a report; a baseline may lack its run count. */
  datatype Case = Case(id: string, runs: nat, passes: nat)
  datatype Old = Old(id: string, runs: Option<nat>, passes: nat)

  datatype Regression = Regression(id: string, failsBefore: nat, runsBefore: nat, failsNow: nat, runsNow: nat, p: real)

  ghost predicate Report(cases: seq<Case>) {
    forall i | 0 <= i < |cases| :: cases[i].passes <= cases[i].runs
  }

  ghost predicate Baseline(cases: seq<Old>) {
    forall i | 0 <= i < |cases| :: cases[i].runs.Some? ==> cases[i].passes <= cases[i].runs.value
  }

  /** {c["id"]: c for c in ...}: the last case of an id. */
  function LastOf(cases: seq<Old>, id: string): (c: Option<Old>)
    ensures c.Some? ==> c.value in cases && c.value.id == id
    ensures c.None? ==> forall i | 0 <= i < |cases| :: cases[i].id != id
  {
    if cases == [] then None
    else if cases[|cases| - 1].id == id then Some(cases[|cases| - 1])
    else LastOf(cases[..|cases| - 1], id)
  }

  /** A regression of a case, against the baseline's case of its id. */
  function Against(now: Case, earlier: Option<Old>): Option<Regression>
    requires now.passes <= now.runs
    requires earlier.Some? && earlier.value.runs.Some? ==> earlier.value.passes <= earlier.value.runs.value
  {
    if earlier.None? || earlier.value.runs.None? then None
    else
      var failsNow, failsBefore := now.runs - now.passes, earlier.value.runs.value - earlier.value.passes;
      var p := FisherWorse(failsNow, now.runs, failsBefore, earlier.value.runs.value);
      if p < REGRESSION_P then Some(Regression(now.id, failsBefore, earlier.value.runs.value, failsNow, now.runs, p))
      else None
  }

  ghost function Regressed(cases: seq<Case>, baseline: seq<Old>): seq<Regression>
    requires Report(cases) && Baseline(baseline)
  {
    if cases == [] then []
    else
      var one := Against(cases[|cases| - 1], LastOf(baseline, cases[|cases| - 1].id));
      Regressed(cases[..|cases| - 1], baseline) + (if one.Some? then [one.value] else [])
  }

  /** The last case of its id. */
  ghost predicate IsLast(baseline: seq<Old>, j: nat)
    requires j < |baseline|
  {
    forall k | j < k < |baseline| :: baseline[k].id != baseline[j].id
  }

  /** `r` compares these two cases of one id, by their failures and runs, and
      finds the current one worse, at a level of 5 %. */
  ghost predicate Compares(now: Case, earlier: Old, r: Regression) {
    && earlier.id == now.id == r.id && earlier.runs == Some(r.runsBefore) && now.runs == r.runsNow
    && r.failsNow + now.passes == now.runs && r.failsBefore + earlier.passes == r.runsBefore
    && r.p == FisherWorse(r.failsNow, r.runsNow, r.failsBefore, r.runsBefore) && r.p < 0.05
  }

  lemma {:induction false} LastOfIs(baseline: seq<Old>, id: string, j: nat)
    requires j < |baseline| && baseline[j].id == id && IsLast(baseline, j)
    ensures LastOf(baseline, id) == Some(baseline[j])
  {
    var n := |baseline| - 1;
    if j < n { LastOfIs(baseline[..n], id, j); }
  }

  lemma {:induction false} LastOfStands(baseline: seq<Old>, id: string) returns (j: nat)
    requires LastOf(baseline, id).Some?
    ensures j < |baseline| && LastOf(baseline, id) == Some(baseline[j]) && baseline[j].id == id && IsLast(baseline, j)
  {
    j := |baseline| - 1;
    if baseline[j].id != id { j := LastOfStands(baseline[..j], id); }
  }

  lemma AgainstIs(now: Case, baseline: seq<Old>, r: Regression)
    requires now.passes <= now.runs && Baseline(baseline)
    ensures Against(now, LastOf(baseline, now.id)) == Some(r)
            <==> exists j | 0 <= j < |baseline| :: IsLast(baseline, j) && Compares(now, baseline[j], r)
  {
    hide FisherWorse, LastOf, IsLast;
    if Against(now, LastOf(baseline, now.id)) == Some(r) {
      var j := LastOfStands(baseline, now.id);
      assert Compares(now, baseline[j], r);
    }
    if j: nat :| j < |baseline| && IsLast(baseline, j) && Compares(now, baseline[j], r) {
      LastOfIs(baseline, now.id, j);
    }
  }

  /** One of the cases, shown to be worse by its id's last case. */
  ghost predicate ShownWorse(cases: seq<Case>, baseline: seq<Old>, r: Regression)
    requires Report(cases) && Baseline(baseline)
  {
    exists i, j | 0 <= i < |cases| && 0 <= j < |baseline| :: IsLast(baseline, j) && Compares(cases[i], baseline[j], r)
  }

  lemma OneMoreCase(cases: seq<Case>, n: nat, baseline: seq<Old>, r: Regression)
    requires n < |cases| && Report(cases) && Baseline(baseline)
    ensures ShownWorse(cases[..n + 1], baseline, r)
            <==> ShownWorse(cases[..n], baseline, r)
                 || exists j | 0 <= j < |baseline| :: IsLast(baseline, j) && Compares(cases[n], baseline[j], r)
  {
    hide IsLast, Compares;
    var front, all := cases[..n], cases[..n + 1];
    assert forall i | 0 <= i < n :: front[i] == all[i];
    assert all[n] == cases[n];
    if ShownWorse(all, baseline, r) {
      var i, j :| 0 <= i < |all| && 0 <= j < |baseline| && IsLast(baseline, j) && Compares(all[i], baseline[j], r);
      if i < n { assert Compares(front[i], baseline[j], r); }
    }
    if ShownWorse(front, baseline, r) {
      var i, j :| 0 <= i < |front| && 0 <= j < |baseline| && IsLast(baseline, j) && Compares(front[i], baseline[j], r);
      assert Compares(all[i], baseline[j], r);
    }
    if j: nat :| j < |baseline| && IsLast(baseline, j) && Compares(cases[n], baseline[j], r) {
      assert Compares(all[n], baseline[j], r);
    }
  }

  /** What is reported, exactly: each case of the report that its id's last
      case of the baseline shows to be worse. */
  lemma {:induction false} RegressedAre(cases: seq<Case>, baseline: seq<Old>, r: Regression)
    requires Report(cases) && Baseline(baseline)
    ensures r in Regressed(cases, baseline) <==> ShownWorse(cases, baseline, r)
  {
    if |cases| == 0 {
      NoCase(baseline);
      assert cases == [];
    } else {
      var n := |cases| - 1;
      RegressedAre(cases[..n], baseline, r);
      NextCase(cases, baseline, n);
      OneMoreCase(cases, n, baseline, r);
      assert cases[..n + 1] == cases;
      AgainstIs(cases[n], baseline, r);
    }
    hide *;
  }

  method Regressions(cases: seq<Case>, baseline: seq<Old>) returns (found: seq<Regression>)
    requires Report(cases) && Baseline(baseline)
    ensures found == Regressed(cases, baseline)
  {
    hide LastOf, FisherWorse, Regressed;
    var before := ById(baseline);
    found := [];
    NoCase(baseline);
    assert cases[..0] == [];
    for i := 0 to |cases|
      invariant found == Regressed(cases[..i], baseline)
    {
      NextCase(cases, baseline, i);
      var now := cases[i];
      assert LastOf(baseline, now.id) == if now.id in before then Some(before[now.id]) else None;
      if now.id !in before || before[now.id].runs.None? { continue; }
      var earlier := before[now.id];
      var failsNow, failsBefore := now.runs - now.passes, earlier.runs.value - earlier.passes;
      var p := FisherWorse(failsNow, now.runs, failsBefore, earlier.runs.value);
      if p < REGRESSION_P {
        found := found + [Regression(now.id, failsBefore, earlier.runs.value, failsNow, now.runs, p)];
      }
    }
    assert cases[..|cases|] == cases;
  }

  lemma NoCase(baseline: seq<Old>)
    requires Baseline(baseline)
    ensures Regressed([], baseline) == []
  {
  }

  lemma NextCase(cases: seq<Case>, baseline: seq<Old>, i: nat)
    requires i < |cases| && Report(cases) && Baseline(baseline)
    ensures var one := Against(cases[i], LastOf(baseline, cases[i].id));
            Regressed(cases[..i + 1], baseline)
            == if one.Some? then Regressed(cases[..i], baseline) + [one.value] else Regressed(cases[..i], baseline)
  {
    assert cases[..i + 1][..i] == cases[..i];
    hide Against, LastOf;
  }

  /** {c["id"]: c for c in baseline["cases"]} */
  method ById(baseline: seq<Old>) returns (before: map<string, Old>)
    ensures forall id :: LastOf(baseline, id) == if id in before then Some(before[id]) else None
  {
    before := map[];
    for i := 0 to |baseline|
      invariant forall id :: LastOf(baseline[..i], id) == if id in before then Some(before[id]) else None
    {
      assert baseline[..i + 1][..i] == baseline[..i];
      before := before[baseline[i].id := baseline[i]];
    }
    assert baseline[..|baseline|] == baseline;
  }

  /** No case is reported that never fails now, whose baseline never passed,
      or that has no baseline; every report names a case that fails. */
  lemma {:induction false} ReportedCasesFail(cases: seq<Case>, baseline: seq<Old>, r: Regression)
    requires Report(cases) && Baseline(baseline) && r in Regressed(cases, baseline)
    ensures r.failsNow > 0 && r.failsBefore < r.runsBefore && 0.0 < r.p < REGRESSION_P
    ensures exists i | 0 <= i < |cases| ::
              cases[i].id == r.id && cases[i].runs == r.runsNow && cases[i].passes == r.runsNow - r.failsNow
  {
    hide FisherWorse;
    var n := |cases| - 1;
    var now := cases[n];
    if r in Regressed(cases[..n], baseline) {
      ReportedCasesFail(cases[..n], baseline, r);
      var i :| 0 <= i < n && cases[..n][i].id == r.id && cases[..n][i].runs == r.runsNow
               && cases[..n][i].passes == r.runsNow - r.failsNow;
      assert cases[i] == cases[..n][i];
    } else {
      FisherBounds(r.failsNow, r.runsNow, r.failsBefore, r.runsBefore);
      assert cases[n].id == r.id;
    }
  }
}
