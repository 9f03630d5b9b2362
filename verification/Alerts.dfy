/** Reading alerts: `newest_alerts` of app/queries.py, and the pages of
    `list_alerts` in app/routes/alerts.py. */
module Alerts {
  import opened Common
  import opened Ranking

  datatype Alert = Alert(id: int, team: int, createdAt: real, severity: string, source: string, message: string)

  /** ORDER BY created_at DESC, id DESC. */
  function NewestKey(a: Alert): Key {
    Key(a.createdAt, a.id)
  }

  /** Where a page ended. */
  datatype Cursor = Cursor(createdAt: real, id: int)

  /** (created_at, id) < cursor */
  predicate Older(a: Alert, c: Cursor) {
    a.createdAt < c.createdAt || (a.createdAt == c.createdAt && a.id < c.id)
  }

  /** The optional filters: one severity, and only older than a cursor. */
  datatype Filters = Filters(severity: Option<string>, before: Option<Cursor>)

  predicate Matches(a: Alert, f: Filters) {
    && (f.severity.Some? ==> a.severity == f.severity.value)
    && (f.before.Some? ==> Older(a, f.before.value))
  }

  /** None: every team. */
  predicate InTeams(a: Alert, teams: Option<seq<int>>) {
    teams.Some? ==> a.team in teams.value
  }

  /** The rows a WHERE clause lets through. */
  function Where(rows: seq<Alert>, teams: Option<seq<int>>, f: Filters): seq<Alert> {
    if rows == [] then []
    else
      var last := rows[|rows| - 1];
      Where(rows[..|rows| - 1], teams, f) + (if InTeams(last, teams) && Matches(last, f) then [last] else [])
  }

  /** The newest `limit` of one team. */
  function OneTeam(rows: seq<Alert>, team: int, f: Filters, limit: nat): seq<Alert> {
    Top(Where(rows, Some([team]), f), limit, NewestKey)
  }

  /** The LATERAL join: each team's newest `limit`, one after the other. */
  function Lateral(rows: seq<Alert>, teams: seq<int>, f: Filters, limit: nat): seq<Alert> {
    if teams == [] then []
    else Lateral(rows, teams[..|teams| - 1], f, limit) + OneTeam(rows, teams[|teams| - 1], f, limit)
  }

  function NewestAlerts(rows: seq<Alert>, teams: Option<seq<int>>, limit: nat, f: Filters): seq<Alert> {
    if teams == Some([]) then []
    else if teams.None? || |teams.value| == 1 then Top(Where(rows, teams, f), limit, NewestKey)
    else Top(Lateral(rows, teams.value, f, limit), limit, NewestKey)
  }

  /** A table: `id` is its primary key. */
  ghost predicate Table(rows: seq<Alert>) {
    forall i, j | 0 <= i < j < |rows| :: rows[i].id != rows[j].id
  }

  ghost predicate DistinctTeams(teams: Option<seq<int>>) {
    teams.Some? ==> NoRepeats(teams.value)
  }

  // ---- What WHERE lets through -------------------------------------------------

  lemma {:induction false} InWhere(rows: seq<Alert>, teams: Option<seq<int>>, f: Filters, a: Alert)
    ensures a in Where(rows, teams, f) <==> a in rows && InTeams(a, teams) && Matches(a, f)
  {
    if rows != [] {
      var n := |rows| - 1;
      InWhere(rows[..n], teams, f, a);
      assert rows == rows[..n] + [rows[n]];
      hide InTeams, Matches;
    }
  }

  lemma {:induction false} WhereDistinct(rows: seq<Alert>, teams: Option<seq<int>>, f: Filters)
    requires Table(rows)
    ensures DistinctKeys(Where(rows, teams, f), NewestKey)
  {
    if rows != [] {
      var n := |rows| - 1;
      var front := Where(rows[..n], teams, f);
      WhereDistinct(rows[..n], teams, f);
      forall i | 0 <= i < |front| ensures front[i].id != rows[n].id {
        InWhere(rows[..n], teams, f, front[i]);
        var j :| 0 <= j < n && rows[..n][j] == front[i];
        assert rows[j] == front[i];
      }
      hide InTeams, Matches;
    }
  }

  // ---- The LATERAL form means the plain one --------------------------------------

  lemma CountLastRow(rows: seq<Alert>, teams: Option<seq<int>>, f: Filters, k: Key)
    requires rows != []
    ensures var n := |rows| - 1;
            CountAbove(Where(rows, teams, f), k, NewestKey)
            == CountAbove(Where(rows[..n], teams, f), k, NewestKey)
               + (if InTeams(rows[n], teams) && Matches(rows[n], f) && Above(NewestKey(rows[n]), k) then 1 else 0)
  {
    var front := Where(rows[..|rows| - 1], teams, f);
    assert front + [] == front;
    hide InTeams, Matches, Above, CountAbove, NewestKey;
    CountOneMore(front, rows[|rows| - 1], k, NewestKey);
  }

  lemma CountNoRow(k: Key, teams: Option<seq<int>>, f: Filters)
    ensures CountAbove(Where([], teams, f), k, NewestKey) == 0
  {
  }

  /** Rows of different teams are counted apart. */
  lemma {:induction false} CountTeams(rows: seq<Alert>, teams: seq<int>, team: int, f: Filters, k: Key)
    requires team !in teams
    ensures CountAbove(Where(rows, Some(teams + [team]), f), k, NewestKey)
            == CountAbove(Where(rows, Some(teams), f), k, NewestKey)
               + CountAbove(Where(rows, Some([team]), f), k, NewestKey)
  {
    hide Where, Matches, CountAbove, Above, NewestKey;
    if |rows| == 0 {
      assert rows == [];
      CountNoRow(k, Some(teams + [team]), f);
      CountNoRow(k, Some(teams), f);
      CountNoRow(k, Some([team]), f);
    } else {
      var n := |rows| - 1;
      CountTeams(rows[..n], teams, team, f, k);
      CountLastRow(rows, Some(teams + [team]), f, k);
      CountLastRow(rows, Some(teams), f, k);
      CountLastRow(rows, Some([team]), f, k);
    }
  }

  /** Cutting each team to `limit` rows loses none that could matter: below
      `limit`, as many rows rank above a key as before. */
  lemma {:induction false} CountLateral(rows: seq<Alert>, teams: seq<int>, f: Filters, limit: nat, k: Key)
    requires Table(rows) && NoRepeats(teams)
    ensures var all := CountAbove(Where(rows, Some(teams), f), k, NewestKey);
            var kept := CountAbove(Lateral(rows, teams, f, limit), k, NewestKey);
            kept <= all && (all < limit ==> kept == all) && (all >= limit ==> kept >= limit)
  {
    if teams == [] {
      NoTeams(rows, f);
    } else {
      var n := |teams| - 1;
      CountLateral(rows, teams[..n], f, limit, k);
      assert teams == teams[..n] + [teams[n]];
      hide CountAbove, Where, NewestKey, Top;
      CountTeams(rows, teams[..n], teams[n], f, k);
      WhereDistinct(rows, Some([teams[n]]), f);
      CountTop(Where(rows, Some([teams[n]]), f), limit, k, NewestKey);
      CountInTwo(Lateral(rows, teams[..n], f, limit), OneTeam(rows, teams[n], f, limit), k, NewestKey);
    }
  }

  lemma {:induction false} NoTeams(rows: seq<Alert>, f: Filters)
    ensures Where(rows, Some([]), f) == []
  {
    if rows != [] { NoTeams(rows[..|rows| - 1], f); }
  }

  lemma {:induction false} InLateral(rows: seq<Alert>, teams: seq<int>, f: Filters, limit: nat, a: Alert)
    ensures a in Lateral(rows, teams, f, limit)
            <==> exists i | 0 <= i < |teams| :: a in OneTeam(rows, teams[i], f, limit)
  {
    hide OneTeam;
    if teams != [] {
      var n := |teams| - 1;
      InLateral(rows, teams[..n], f, limit, a);
      if a in Lateral(rows, teams[..n], f, limit) {
        var i :| 0 <= i < n && a in OneTeam(rows, teams[..n][i], f, limit);
        assert teams[i] == teams[..n][i];
      }
      if i: nat :| i < |teams| && a in OneTeam(rows, teams[i], f, limit) {
        assert i < n ==> teams[..n][i] == teams[i];
      }
    }
  }

  lemma OfOneTeam(rows: seq<Alert>, team: int, f: Filters, limit: nat, a: Alert)
    requires a in OneTeam(rows, team, f, limit)
    ensures a.team == team && a in rows && Matches(a, f)
  {
    TopMember(Where(rows, Some([team]), f), limit, NewestKey, a);
    InWhere(rows, Some([team]), f, a);
    hide Matches, Top, Where;
  }

  lemma LateralInWhere(rows: seq<Alert>, teams: seq<int>, f: Filters, limit: nat, a: Alert)
    requires a in Lateral(rows, teams, f, limit)
    ensures a in Where(rows, Some(teams), f)
  {
    hide Lateral, OneTeam, Where, Matches;
    InLateral(rows, teams, f, limit, a);
    var i :| 0 <= i < |teams| && a in OneTeam(rows, teams[i], f, limit);
    OfOneTeam(rows, teams[i], f, limit, a);
    InWhere(rows, Some(teams), f, a);
  }

  lemma {:induction false} LateralDistinct(rows: seq<Alert>, teams: seq<int>, f: Filters, limit: nat)
    requires Table(rows) && NoRepeats(teams)
    ensures DistinctKeys(Lateral(rows, teams, f, limit), NewestKey)
  {
    if teams != [] {
      var n := |teams| - 1;
      var front, last := Lateral(rows, teams[..n], f, limit), OneTeam(rows, teams[n], f, limit);
      LateralDistinct(rows, teams[..n], f, limit);
      WhereDistinct(rows, Some([teams[n]]), f);
      TopIsSorted(Where(rows, Some([teams[n]]), f), limit, NewestKey);
      assert DistinctKeys(last, NewestKey);
      forall i, j | 0 <= i < |front| && 0 <= j < |last| ensures NewestKey(front[i]) != NewestKey(last[j]) {
        InLateral(rows, teams[..n], f, limit, front[i]);
        var t :| 0 <= t < n && front[i] in OneTeam(rows, teams[..n][t], f, limit);
        OfOneTeam(rows, teams[t], f, limit, front[i]);
        OfOneTeam(rows, teams[n], f, limit, last[j]);
        IdsAreApart(rows, front[i], last[j]);
      }
      hide OneTeam, Where, Top;
    }
  }

  lemma IdsAreApart(rows: seq<Alert>, a: Alert, b: Alert)
    requires Table(rows) && a in rows && b in rows && a.team != b.team
    ensures a.id != b.id
  {
    var i :| 0 <= i < |rows| && rows[i] == a;
    var j :| 0 <= j < |rows| && rows[j] == b;
  }

  // ---- What newest first means -----------------------------------------------------------

  /** `a` is newer than `b`: created later, or at the same time with a higher
      id. */
  ghost predicate Newer(a: Alert, b: Alert) {
    a.createdAt > b.createdAt || (a.createdAt == b.createdAt && a.id > b.id)
  }

  ghost predicate NewestFirst(items: seq<Alert>) {
    forall i, j | 0 <= i < j < |items| :: Newer(items[i], items[j])
  }

  lemma SortedIsNewestFirst(items: seq<Alert>)
    requires Sorted(items, NewestKey)
    ensures NewestFirst(items)
  {
    forall i, j | 0 <= i < j < |items| ensures Newer(items[i], items[j]) {
      assert Above(NewestKey(items[i]), NewestKey(items[j]));
    }
  }

  /** The rows a query is about: those of the teams, with the severity, and
      older than the cursor. */
  ghost predicate Wanted(rows: seq<Alert>, teams: Option<seq<int>>, severity: Option<string>, cursor: Option<Cursor>,
                         a: Alert)
  {
    && a in rows && (teams.Some? ==> a.team in teams.value) && (severity.Some? ==> a.severity == severity.value)
    && (cursor.Some? ==>
          a.createdAt < cursor.value.createdAt || (a.createdAt == cursor.value.createdAt && a.id < cursor.value.id))
  }

  lemma WhereIsWanted(rows: seq<Alert>, teams: Option<seq<int>>, severity: Option<string>, cursor: Option<Cursor>,
                      a: Alert)
    ensures a in Where(rows, teams, Filters(severity, cursor)) <==> Wanted(rows, teams, severity, cursor, a)
  {
    InWhere(rows, teams, Filters(severity, cursor), a);
    hide Where;
  }

  /** The newest of the rows wanted, at most `limit` of them, newest first;
      every wanted row left out is older than all of these. */
  ghost predicate IsNewest(items: seq<Alert>, rows: seq<Alert>, teams: Option<seq<int>>, f: Filters, limit: nat) {
    && |items| <= limit && NewestFirst(items)
    && (forall i | 0 <= i < |items| :: Wanted(rows, teams, f.severity, f.before, items[i]))
    && forall a | Wanted(rows, teams, f.severity, f.before, a) && a !in items ::
         |items| == limit && forall i | 0 <= i < limit :: Newer(items[i], a)
  }

  lemma RankedAfter(rows: seq<Alert>, n: nat, a: Alert)
    requires n > 0 && DistinctKeys(rows, NewestKey) && a in rows
    ensures var top := Top(rows, n, NewestKey);
            a !in top ==> |rows| > n && |top| == n && Above(NewestKey(top[n - 1]), NewestKey(a))
  {
    SortSorts(rows, NewestKey);
    SortKeeps(rows, NewestKey);
    var all := Sort(rows, NewestKey);
    assert a in multiset(all);
    var i := Member(all, a);
    hide Sort, Above, NewestKey;
    if i >= n { Earlier(all, n - 1, i, NewestKey); }
  }

  lemma LeftOut(wanted: seq<Alert>, limit: nat, a: Alert)
    requires DistinctKeys(wanted, NewestKey) && a in wanted && a !in Top(wanted, limit, NewestKey)
    ensures |wanted| > limit && |Top(wanted, limit, NewestKey)| == limit
    ensures forall i | 0 <= i < limit :: Newer(Top(wanted, limit, NewestKey)[i], a)
  {
    if limit > 0 { RankedAfter(wanted, limit, a); }
    TopIsSorted(wanted, limit, NewestKey);
    var top := Top(wanted, limit, NewestKey);
    hide Top;
    forall i | 0 <= i < limit ensures Newer(top[i], a) { Earlier(top, i, limit - 1, NewestKey); }
  }

  lemma TopIsNewest(rows: seq<Alert>, teams: Option<seq<int>>, f: Filters, limit: nat)
    requires Table(rows)
    ensures IsNewest(Top(Where(rows, teams, f), limit, NewestKey), rows, teams, f, limit)
  {
    var wanted := Where(rows, teams, f);
    var items := Top(wanted, limit, NewestKey);
    WhereDistinct(rows, teams, f);
    TopIsSorted(wanted, limit, NewestKey);
    SortedIsNewestFirst(items);
    assert f == Filters(f.severity, f.before);
    hide Where, Top, Wanted, Newer, NewestKey, Sorted, NewestFirst, DistinctKeys;
    forall i | 0 <= i < |items| ensures Wanted(rows, teams, f.severity, f.before, items[i]) {
      TopMember(wanted, limit, NewestKey, items[i]);
      WhereIsWanted(rows, teams, f.severity, f.before, items[i]);
    }
    forall a | Wanted(rows, teams, f.severity, f.before, a) && a !in items
      ensures |items| == limit && forall i | 0 <= i < limit :: Newer(items[i], a)
    {
      WhereIsWanted(rows, teams, f.severity, f.before, a);
      LeftOut(wanted, limit, a);
    }
  }

  /** Of distinct teams, the newest of each team's newest are the newest of
      all. */
  lemma LateralMeansWhere(rows: seq<Alert>, teams: seq<int>, f: Filters, limit: nat)
    requires Table(rows) && NoRepeats(teams)
    ensures Top(Lateral(rows, teams, f, limit), limit, NewestKey) == Top(Where(rows, Some(teams), f), limit, NewestKey)
    ensures IsNewest(Top(Lateral(rows, teams, f, limit), limit, NewestKey), rows, Some(teams), f, limit)
  {
    TopIsNewest(rows, Some(teams), f, limit);
    LateralSame(rows, teams, f, limit);
    hide *;
  }

  lemma LateralSame(rows: seq<Alert>, teams: seq<int>, f: Filters, limit: nat)
    requires Table(rows) && NoRepeats(teams)
    ensures Top(Lateral(rows, teams, f, limit), limit, NewestKey) == Top(Where(rows, Some(teams), f), limit, NewestKey)
  {
    hide Lateral, Where, Top, CountAbove, Above, NewestKey, OneTeam, Matches;
    var joined, all := Lateral(rows, teams, f, limit), Where(rows, Some(teams), f);
    LateralDistinct(rows, teams, f, limit);
    WhereDistinct(rows, Some(teams), f);
    TopIsSorted(joined, limit, NewestKey);
    TopIsSorted(all, limit, NewestKey);
    forall a | a in Top(joined, limit, NewestKey) ensures a in Top(all, limit, NewestKey) {
      TopMember(joined, limit, NewestKey, a);
      LateralInWhere(rows, teams, f, limit, a);
      InTop(joined, a, limit, NewestKey);
      InTop(all, a, limit, NewestKey);
      CountLateral(rows, teams, f, limit, NewestKey(a));
    }
    forall a | a in Top(all, limit, NewestKey) ensures a in Top(joined, limit, NewestKey) {
      TopMember(all, limit, NewestKey, a);
      InTop(all, a, limit, NewestKey);
      KeptByItsTeam(rows, teams, f, limit, a);
      InTop(joined, a, limit, NewestKey);
      CountLateral(rows, teams, f, limit, NewestKey(a));
    }
    SortedIsUnique(Top(joined, limit, NewestKey), Top(all, limit, NewestKey), NewestKey);
  }

  /** A row among the newest of all teams is among its own team's. */
  lemma KeptByItsTeam(rows: seq<Alert>, teams: seq<int>, f: Filters, limit: nat, a: Alert)
    requires Table(rows) && a in Where(rows, Some(teams), f)
    requires CountAbove(Where(rows, Some(teams), f), NewestKey(a), NewestKey) < limit
    ensures a in Lateral(rows, teams, f, limit)
  {
    hide Lateral, Top, CountAbove, Above, NewestKey, Where, Matches;
    InWhere(rows, Some(teams), f, a);
    var i :| 0 <= i < |teams| && teams[i] == a.team;
    InWhere(rows, Some([a.team]), f, a);
    WhereDistinct(rows, Some([a.team]), f);
    InTop(Where(rows, Some([a.team]), f), a, limit, NewestKey);
    FewerInOneTeam(rows, teams, a.team, f, NewestKey(a));
    assert a in OneTeam(rows, teams[i], f, limit);
    InLateral(rows, teams, f, limit, a);
  }

  lemma {:induction false} FewerInOneTeam(rows: seq<Alert>, teams: seq<int>, team: int, f: Filters, k: Key)
    requires team in teams
    ensures CountAbove(Where(rows, Some([team]), f), k, NewestKey)
            <= CountAbove(Where(rows, Some(teams), f), k, NewestKey)
  {
    hide Where, Matches, CountAbove, Above, NewestKey;
    if |rows| == 0 {
      assert rows == [];
      CountNoRow(k, Some([team]), f);
    } else {
      var n := |rows| - 1;
      FewerInOneTeam(rows[..n], teams, team, f, k);
      CountLastRow(rows, Some(teams), f, k);
      CountLastRow(rows, Some([team]), f, k);
    }
  }

  /** For every table and every set of teams: reading team by team and merging
      gives what filtering the whole table, sorting it and taking `limit`
      gives. */
  lemma NewestIsFilterSortTake(rows: seq<Alert>, teams: Option<seq<int>>, limit: nat, f: Filters)
    requires Table(rows) && DistinctTeams(teams)
    ensures NewestAlerts(rows, teams, limit, f) == Top(Where(rows, teams, f), limit, NewestKey)
    ensures IsNewest(NewestAlerts(rows, teams, limit, f), rows, teams, f, limit)
  {
    TopIsNewest(rows, teams, f, limit);
    if teams.Some? {
      if teams.value == [] { NoTeams(rows, f); }
      LateralMeansWhere(rows, teams.value, f, limit);
    }
    hide Where, Lateral, IsNewest;
  }

  // ---- A team listed twice -------------------------------------------------------------

  lemma {:induction false} OneRowMany(a: Alert, teams: seq<int>, limit: nat)
    requires limit > 0
    ensures |Lateral([a], teams, Filters(None, None), limit)| == multiset(teams)[a.team]
  {
    hide OneTeam;
    if teams != [] {
      var n := |teams| - 1;
      OneRowMany(a, teams[..n], limit);
      OneRowOneTeam(a, teams[n], limit);
      assert teams == teams[..n] + [teams[n]];
    }
  }

  lemma OneRowWhere(a: Alert, teams: seq<int>)
    ensures Where([a], Some(teams), Filters(None, None)) == if a.team in teams then [a] else []
  {
    assert [a][..0] == [];
    assert Where([], Some(teams), Filters(None, None)) == [];
    hide NewestKey, Above;
  }

  lemma OneRowOneTeam(a: Alert, team: int, limit: nat)
    requires limit > 0
    ensures |OneTeam([a], team, Filters(None, None), limit)| == if a.team == team then 1 else 0
  {
    hide Where, Sort, NewestKey;
    OneRowWhere(a, [team]);
    SortKeeps(Where([a], Some([team]), Filters(None, None)), NewestKey);
  }

  lemma {:induction false} TwiceInMultiset(teams: seq<int>, i: nat, j: nat)
    requires i < j < |teams| && teams[i] == teams[j]
    ensures multiset(teams)[teams[i]] >= 2
  {
    assert teams == teams[..i] + [teams[i]] + teams[i + 1..j] + [teams[j]] + teams[j + 1..];
  }

  /** A table on which a repeated team shows an alert twice. */
  lemma RepeatedTeamShowsTwice(teams: seq<int>, limit: nat) returns (rows: seq<Alert>)
    requires !NoRepeats(teams) && limit > 1
    ensures Table(rows)
    ensures NewestAlerts(rows, Some(teams), limit, Filters(None, None))
            != Top(Where(rows, Some(teams), Filters(None, None)), limit, NewestKey)
  {
    var i := RepeatedTeam(teams);
    var a := Alert(1, teams[i], 0.0, "info", "", "");
    rows := [a];
    ShownTwice(a, teams, limit);
    hide Top, Where, Lateral, NoRepeats;
  }

  lemma RepeatedTeam(teams: seq<int>) returns (i: nat)
    requires !NoRepeats(teams)
    ensures i < |teams| && |teams| >= 2 && multiset(teams)[teams[i]] >= 2
  {
    var j: nat;
    i, j :| i < j < |teams| && teams[i] == teams[j];
    TwiceInMultiset(teams, i, j);
  }

  lemma ShownTwice(a: Alert, teams: seq<int>, limit: nat)
    requires limit > 1 && multiset(teams)[a.team] >= 2
    ensures var f := Filters(None, None);
            |Top(Lateral([a], teams, f, limit), limit, NewestKey)| >= 2
            && |Top(Where([a], Some(teams), f), limit, NewestKey)| <= 1
  {
    var f := Filters(None, None);
    hide Sort, Lateral, Where, NewestKey, Matches;
    OneRowWhere(a, teams);
    OneRowMany(a, teams, limit);
    SortKeeps(Lateral([a], teams, f, limit), NewestKey);
    SortKeeps(Where([a], Some(teams), f), NewestKey);
  }

  /** The newest one: repeats do not matter. */
  lemma NewestOneMeansWhere(rows: seq<Alert>, teams: seq<int>, f: Filters)
    requires Table(rows)
    ensures Top(Lateral(rows, teams, f, 1), 1, NewestKey) == Top(Where(rows, Some(teams), f), 1, NewestKey)
  {
    hide Lateral, Where, Sort, Above, NewestKey, OneTeam, Matches, CountAbove, Table, DistinctKeys;
    var joined, all := Lateral(rows, teams, f, 1), Where(rows, Some(teams), f);
    SortKeeps(joined, NewestKey);
    SortKeeps(all, NewestKey);
    if |all| > 0 {
      HeadIsHighest(all, NewestKey, all[0]);
      var best := Sort(all, NewestKey)[0];
      BestIsKept(rows, teams, f, best);
      HeadIsHighest(joined, NewestKey, best);
      var first := Sort(joined, NewestKey)[0];
      LateralInWhere(rows, teams, f, 1, first);
      HeadIsHighest(all, NewestKey, first);
      SameKeySameRow(rows, teams, f, best, first);
    } else if |joined| > 0 {
      LateralInWhere(rows, teams, f, 1, joined[0]);
    }
  }

  lemma BestIsKept(rows: seq<Alert>, teams: seq<int>, f: Filters, best: Alert)
    requires Table(rows) && best in Where(rows, Some(teams), f)
    requires best in Top(Where(rows, Some(teams), f), 1, NewestKey)
    ensures best in Lateral(rows, teams, f, 1)
  {
    hide Lateral, Where, Top, CountAbove, NewestKey;
    WhereDistinct(rows, Some(teams), f);
    InTop(Where(rows, Some(teams), f), best, 1, NewestKey);
    KeptByItsTeam(rows, teams, f, 1, best);
  }

  lemma SameKeySameRow(rows: seq<Alert>, teams: seq<int>, f: Filters, a: Alert, b: Alert)
    requires Table(rows) && a in Where(rows, Some(teams), f) && b in Where(rows, Some(teams), f)
    requires !Above(NewestKey(a), NewestKey(b)) && !Above(NewestKey(b), NewestKey(a))
    ensures a == b
  {
    InWhere(rows, Some(teams), f, a);
    InWhere(rows, Some(teams), f, b);
    hide Where, Matches;
    var i :| 0 <= i < |rows| && rows[i] == a;
    var j :| 0 <= j < |rows| && rows[j] == b;
  }

  /** Is a team list read right on every table? */
  ghost predicate AlwaysRight(teams: seq<int>, limit: nat) {
    forall rows, f | Table(rows) ::
      NewestAlerts(rows, Some(teams), limit, f) == Top(Where(rows, Some(teams), f), limit, NewestKey)
  }

  /** A list that repeats a team shows that team's alerts as often - unless at
      most one is asked for. */
  lemma RightWhenTeamsDistinct(teams: seq<int>, limit: nat)
    ensures AlwaysRight(teams, limit) <==> NoRepeats(teams) || limit <= 1
  {
    hide NewestAlerts, Where, Table, Top;
    if NoRepeats(teams) {
      forall rows, f | Table(rows)
        ensures NewestAlerts(rows, Some(teams), limit, f) == Top(Where(rows, Some(teams), f), limit, NewestKey)
      {
        NewestIsFilterSortTake(rows, Some(teams), limit, f);
      }
    } else if limit <= 1 {
      forall rows, f | Table(rows)
        ensures NewestAlerts(rows, Some(teams), limit, f) == Top(Where(rows, Some(teams), f), limit, NewestKey)
      {
        RepeatsWithOne(rows, teams, limit, f);
      }
    } else {
      var rows := RepeatedTeamShowsTwice(teams, limit);
      assert !AlwaysRight(teams, limit);
    }
  }

  lemma RepeatsWithOne(rows: seq<Alert>, teams: seq<int>, limit: nat, f: Filters)
    requires Table(rows) && !NoRepeats(teams) && limit <= 1
    ensures NewestAlerts(rows, Some(teams), limit, f) == Top(Where(rows, Some(teams), f), limit, NewestKey)
  {
    if limit == 1 { NewestOneMeansWhere(rows, teams, f); }
    hide Lateral, Where, Sort;
  }

  // ---- Pages ------------------------------------------------------------------------------

  function CursorOf(a: Alert): Cursor {
    Cursor(a.createdAt, a.id)
  }

  datatype Page = Page(items: seq<Alert>, next: Option<Cursor>)

  /** `list_alerts`: one row more than asked for tells whether to go on. */
  function ListAlerts(rows: seq<Alert>, teams: Option<seq<int>>, severity: Option<string>, limit: nat,
                      cursor: Option<Cursor>): Page
    requires limit > 0
  {
    var found := NewestAlerts(rows, teams, limit + 1, Filters(severity, cursor));
    var page := Take(found, limit);
    Page(page, if |found| > limit then Some(CursorOf(page[|page| - 1])) else None)
  }

  datatype Walked = Walked(items: seq<Alert>, done: bool)

  /** A client that follows the cursors: `tables[i]` is what the database
      holds when page `i` is read. */
  function Walk(tables: seq<seq<Alert>>, teams: Option<seq<int>>, severity: Option<string>, limit: nat,
                cursor: Option<Cursor>): Walked
    requires limit > 0
  {
    if tables == [] then Walked([], false)
    else
      var page := ListAlerts(tables[0], teams, severity, limit, cursor);
      if page.next.None? then Walked(page.items, true)
      else
        var rest := Walk(tables[1..], teams, severity, limit, page.next);
        Walked(page.items + rest.items, rest.done)
  }

  ghost predicate Tables(tables: seq<seq<Alert>>) {
    forall i | 0 <= i < |tables| :: Table(tables[i])
  }

  /** Every row is older than the cursor. */
  ghost predicate Below(rows: seq<Alert>, cursor: Option<Cursor>) {
    cursor.Some? ==> forall i | 0 <= i < |rows| :: Older(rows[i], cursor.value)
  }

  lemma OlderIsBelow(a: Alert, b: Alert)
    ensures Older(a, CursorOf(b)) <==> Above(NewestKey(b), NewestKey(a))
  {
  }

  lemma PageIsTop(rows: seq<Alert>, teams: Option<seq<int>>, severity: Option<string>, limit: nat,
                  cursor: Option<Cursor>)
    requires limit > 0 && Table(rows) && DistinctTeams(teams)
    ensures var page := ListAlerts(rows, teams, severity, limit, cursor);
            var wanted := Where(rows, teams, Filters(severity, cursor));
            && page.items == Top(wanted, limit, NewestKey) && Sorted(page.items, NewestKey)
            && Below(page.items, cursor) && DistinctKeys(wanted, NewestKey)
            && (page.next.None? <==> |wanted| <= limit)
            && (page.next.Some? ==> |page.items| == limit && page.next.value == CursorOf(page.items[limit - 1]))
  {
    hide Where, Sort, NewestAlerts, Above, NewestKey, Below, Sorted, DistinctKeys, Table, DistinctTeams, CursorOf;
    var f := Filters(severity, cursor);
    var wanted := Where(rows, teams, f);
    NewestIsFilterSortTake(rows, teams, limit + 1, f);
    WhereDistinct(rows, teams, f);
    SortKeeps(wanted, NewestKey);
    TopIsSorted(wanted, limit, NewestKey);
    TopIsBelow(rows, teams, f, limit);
  }

  /** What a page is: the newest of the rows wanted, at most `limit` of them,
      newest first; every wanted row left out is older than all of these; and
      a next cursor, that of the last item, exactly when some are left out. */
  lemma PageIs(rows: seq<Alert>, teams: Option<seq<int>>, severity: Option<string>, limit: nat,
               cursor: Option<Cursor>)
    requires limit > 0 && Table(rows) && DistinctTeams(teams)
    ensures var page := ListAlerts(rows, teams, severity, limit, cursor);
            && IsNewest(page.items, rows, teams, Filters(severity, cursor), limit)
            && (page.next.None? <==> forall a | Wanted(rows, teams, severity, cursor, a) :: a in page.items)
            && (page.next.Some? ==>
                  |page.items| == limit && page.next.value.createdAt == page.items[limit - 1].createdAt
                  && page.next.value.id == page.items[limit - 1].id)
  {
    var page := ListAlerts(rows, teams, severity, limit, cursor);
    var wanted := Where(rows, teams, Filters(severity, cursor));
    PageIsTop(rows, teams, severity, limit, cursor);
    TopIsNewest(rows, teams, Filters(severity, cursor), limit);
    hide ListAlerts, Where, Top, Wanted, NewestKey, Sorted, IsNewest, DistinctKeys, Below;
    forall a | Wanted(rows, teams, severity, cursor, a) && a !in page.items ensures page.next.Some? {
      WhereIsWanted(rows, teams, severity, cursor, a);
      LeftOut(wanted, limit, a);
    }
    if page.next.Some? {
      var a := OneLeftOut(wanted, limit);
      WhereIsWanted(rows, teams, severity, cursor, a);
    }
  }

  lemma OneLeftOut(wanted: seq<Alert>, limit: nat) returns (a: Alert)
    requires DistinctKeys(wanted, NewestKey) && |wanted| > limit
    ensures a in wanted && a !in Top(wanted, limit, NewestKey)
  {
    SortSorts(wanted, NewestKey);
    SortKeeps(wanted, NewestKey);
    var all, top := Sort(wanted, NewestKey), Top(wanted, limit, NewestKey);
    a := all[limit];
    assert a in multiset(all);
    forall i | 0 <= i < |top| ensures top[i] != a { Earlier(all, i, limit, NewestKey); }
    hide Sort, NewestKey;
  }

  lemma TopIsBelow(rows: seq<Alert>, teams: Option<seq<int>>, f: Filters, limit: nat)
    ensures Below(Top(Where(rows, teams, f), limit, NewestKey), f.before)
  {
    hide Where, Top, NewestKey;
    var items := Top(Where(rows, teams, f), limit, NewestKey);
    forall i | 0 <= i < |items| && f.before.Some? ensures Older(items[i], f.before.value) {
      TopMember(Where(rows, teams, f), limit, NewestKey, items[i]);
      InWhere(rows, teams, f, items[i]);
    }
  }

  lemma SortedInTwo(a: seq<Alert>, b: seq<Alert>, last: Cursor)
    requires Sorted(a, NewestKey) && Sorted(b, NewestKey) && Below(b, Some(last))
    requires a != [] && last == CursorOf(a[|a| - 1])
    ensures Sorted(a + b, NewestKey)
  {
    hide NewestKey;
    var all := a + b;
    forall i, j | 0 <= i < j < |all| ensures Above(NewestKey(all[i]), NewestKey(all[j])) {
      if i < |a| <= j {
        assert Older(b[j - |a|], last);
        OlderIsBelow(b[j - |a|], a[|a| - 1]);
        if i < |a| - 1 { assert Above(NewestKey(a[i]), NewestKey(a[|a| - 1])); }
      }
    }
  }

  lemma BelowInTwo(a: seq<Alert>, b: seq<Alert>, cursor: Option<Cursor>, last: Cursor)
    requires Below(a, cursor) && Below(b, Some(last)) && a != [] && last == CursorOf(a[|a| - 1])
    ensures Below(a + b, cursor)
  {
    hide NewestKey;
  }

  lemma {:induction false} WalkSorted(tables: seq<seq<Alert>>, teams: Option<seq<int>>, severity: Option<string>,
                                        limit: nat, cursor: Option<Cursor>)
    requires limit > 0 && Tables(tables) && DistinctTeams(teams)
    ensures var items := Walk(tables, teams, severity, limit, cursor).items;
            Sorted(items, NewestKey) && Below(items, cursor)
  {
    hide Where, ListAlerts, Above, NewestKey, Table, Top, Below, Sorted, DistinctKeys, DistinctTeams, CursorOf;
    if tables == [] {
      NothingWalked(cursor);
    } else {
      PageIsTop(tables[0], teams, severity, limit, cursor);
      var page := ListAlerts(tables[0], teams, severity, limit, cursor);
      if page.next.Some? {
        WalkSorted(tables[1..], teams, severity, limit, page.next);
        var rest := Walk(tables[1..], teams, severity, limit, page.next).items;
        SortedInTwo(page.items, rest, page.next.value);
        BelowInTwo(page.items, rest, cursor, page.next.value);
      }
    }
  }

  /** Whatever is inserted or deleted between pages, over the whole walk each
      alert is newer than the next, and all are older than the cursor. */
  lemma WalkDescends(tables: seq<seq<Alert>>, teams: Option<seq<int>>, severity: Option<string>, limit: nat,
                     cursor: Option<Cursor>)
    requires limit > 0 && Tables(tables) && DistinctTeams(teams)
    ensures var items := Walk(tables, teams, severity, limit, cursor).items;
            && NewestFirst(items)
            && (cursor.Some? ==> forall i | 0 <= i < |items| ::
                  items[i].createdAt < cursor.value.createdAt
                  || (items[i].createdAt == cursor.value.createdAt && items[i].id < cursor.value.id))
  {
    WalkSorted(tables, teams, severity, limit, cursor);
    SortedIsNewestFirst(Walk(tables, teams, severity, limit, cursor).items);
    hide Walk, NewestFirst, Sorted;
  }

  lemma NothingWalked(cursor: Option<Cursor>)
    ensures Sorted([], NewestKey) && Below([], cursor)
  {
  }

  /** An alert on no page yet, and older than the cursor, is older than the
      next one. */
  lemma LeftForLater(rows: seq<Alert>, teams: Option<seq<int>>, severity: Option<string>, limit: nat,
                     cursor: Option<Cursor>, a: Alert)
    requires limit > 0 && Table(rows) && DistinctTeams(teams)
    requires a in Where(rows, teams, Filters(severity, cursor))
    ensures var page := ListAlerts(rows, teams, severity, limit, cursor);
            a !in page.items ==> page.next.Some? && Older(a, page.next.value)
  {
    PageIsTop(rows, teams, severity, limit, cursor);
    var wanted := Where(rows, teams, Filters(severity, cursor));
    var page := ListAlerts(rows, teams, severity, limit, cursor);
    hide Where, ListAlerts, Above, NewestKey, Older, CursorOf, Top;
    RankedAfter(wanted, limit, a);
    if a !in page.items { OlderIsBelow(a, page.items[limit - 1]); }
  }

  /** An alert the caller may see and asked for, in every table read. */
  ghost predicate AlwaysThere(tables: seq<seq<Alert>>, teams: Option<seq<int>>, severity: Option<string>,
                              cursor: Option<Cursor>, a: Alert)
  {
    InTeams(a, teams) && Matches(a, Filters(severity, cursor)) && forall i | 0 <= i < |tables| :: a in tables[i]
  }

  /** A completed walk misses no alert that was there throughout; and since
      its keys strictly decrease, it shows each once. */
  lemma {:induction false} WalkMissesNothing(tables: seq<seq<Alert>>, teams: Option<seq<int>>,
                                             severity: Option<string>, limit: nat, cursor: Option<Cursor>, a: Alert)
    requires limit > 0 && Tables(tables) && DistinctTeams(teams)
    requires AlwaysThere(tables, teams, severity, cursor, a)
    requires Walk(tables, teams, severity, limit, cursor).done
    ensures multiset(Walk(tables, teams, severity, limit, cursor).items)[a] == 1
  {
    WalkShows(tables, teams, severity, limit, cursor, a);
    WalkSorted(tables, teams, severity, limit, cursor);
    hide Walk;
    OnceInSorted(Walk(tables, teams, severity, limit, cursor).items, a);
  }

  lemma {:induction false} WalkShows(tables: seq<seq<Alert>>, teams: Option<seq<int>>, severity: Option<string>,
                                     limit: nat, cursor: Option<Cursor>, a: Alert)
    requires limit > 0 && Tables(tables) && DistinctTeams(teams)
    requires AlwaysThere(tables, teams, severity, cursor, a)
    requires Walk(tables, teams, severity, limit, cursor).done
    ensures a in Walk(tables, teams, severity, limit, cursor).items
  {
    hide Where, ListAlerts, Older, Table, InTeams, Matches;
    var page := ListAlerts(tables[0], teams, severity, limit, cursor);
    InWhere(tables[0], teams, Filters(severity, cursor), a);
    LeftForLater(tables[0], teams, severity, limit, cursor, a);
    if page.next.Some? && a !in page.items {
      StillThere(tables, teams, severity, cursor, page.next.value, a);
      WalkShows(tables[1..], teams, severity, limit, page.next, a);
    }
  }

  lemma StillThere(tables: seq<seq<Alert>>, teams: Option<seq<int>>, severity: Option<string>,
                   cursor: Option<Cursor>, next: Cursor, a: Alert)
    requires tables != [] && AlwaysThere(tables, teams, severity, cursor, a) && Older(a, next)
    ensures AlwaysThere(tables[1..], teams, severity, Some(next), a)
  {
    hide Older;
  }

  lemma OnceInSorted(items: seq<Alert>, a: Alert)
    requires Sorted(items, NewestKey) && a in items
    ensures multiset(items)[a] == 1
  {
    var i :| 0 <= i < |items| && items[i] == a;
    assert a !in items[..i] by {
      forall j | 0 <= j < i ensures items[j] != a { Earlier(items, j, i, NewestKey); }
    }
    assert a !in items[i + 1..] by {
      forall j | i < j < |items| ensures items[j] != a { Earlier(items, i, j, NewestKey); }
    }
    assert items == items[..i] + [a] + items[i + 1..];
  }

  // ---- On a table that does not change, the walk ends ---------------------------------

  lemma SortedTail(all: seq<Alert>, n: nat, a: Alert)
    requires Sorted(all, NewestKey) && 0 < n <= |all|
    ensures a in all[n..] <==> a in all && Above(NewestKey(all[n - 1]), NewestKey(a))
  {
    if a in all[n..] {
      var i :| 0 <= i < |all| - n && all[n..][i] == a;
      Earlier(all, n - 1, n + i, NewestKey);
    }
    if a in all && Above(NewestKey(all[n - 1]), NewestKey(a)) { InTail(all, n, a); }
  }

  lemma InTail(all: seq<Alert>, n: nat, a: Alert)
    requires Sorted(all, NewestKey) && 0 < n <= |all|
    requires a in all && Above(NewestKey(all[n - 1]), NewestKey(a))
    ensures a in all[n..]
  {
    var i :| 0 <= i < |all| && all[i] == a;
    Earlier(all, i, n - 1, NewestKey);
    assert i >= n;
    assert all[n..][i - n] == a;
  }

  lemma SortedSlice(all: seq<Alert>, n: nat)
    requires Sorted(all, NewestKey) && n <= |all|
    ensures Sorted(all[n..], NewestKey)
  {
    hide NewestKey;
  }

  /** What the next cursor asks for is what is left of the sorted list. */
  lemma AfterPage(rows: seq<Alert>, teams: Option<seq<int>>, severity: Option<string>, cursor: Option<Cursor>, n: nat)
    requires Table(rows) && 0 < n <= |Where(rows, teams, Filters(severity, cursor))|
    requires |Sort(Where(rows, teams, Filters(severity, cursor)), NewestKey)|
             == |Where(rows, teams, Filters(severity, cursor))|
    ensures var all := Sort(Where(rows, teams, Filters(severity, cursor)), NewestKey);
            var next := Some(CursorOf(all[n - 1]));
            Sort(Where(rows, teams, Filters(severity, next)), NewestKey) == all[n..]
            && |Where(rows, teams, Filters(severity, next))| == |all| - n
  {
    hide Where, Sort, Table, NewestKey, Sorted, DistinctKeys;
    var f := Filters(severity, cursor);
    var wanted := Where(rows, teams, f);
    var all := Sort(wanted, NewestKey);
    var g := Filters(severity, Some(CursorOf(all[n - 1])));
    var left := Where(rows, teams, g);
    WhereDistinct(rows, teams, f);
    WhereDistinct(rows, teams, g);
    SortSorts(wanted, NewestKey);
    SortSorts(left, NewestKey);
    SortKeeps(left, NewestKey);
    SortedSlice(all, n);
    forall a ensures a in Sort(left, NewestKey) <==> a in all[n..] {
      SameLeft(rows, teams, severity, cursor, n, a);
    }
    SortedIsUnique(Sort(left, NewestKey), all[n..], NewestKey);
  }

  lemma OlderTwice(a: Alert, b: Alert, cursor: Option<Cursor>)
    ensures Older(a, CursorOf(b)) && cursor.Some? && Older(b, cursor.value) ==> Older(a, cursor.value)
  {
  }

  lemma InSort(s: seq<Alert>, a: Alert)
    ensures a in Sort(s, NewestKey) <==> a in s
  {
    SortKeeps(s, NewestKey);
    assert a in Sort(s, NewestKey) <==> a in multiset(Sort(s, NewestKey));
    hide Sort, NewestKey;
  }

  lemma SameLeft(rows: seq<Alert>, teams: Option<seq<int>>, severity: Option<string>, cursor: Option<Cursor>, n: nat,
                 a: Alert)
    requires Table(rows)
    requires 0 < n <= |Sort(Where(rows, teams, Filters(severity, cursor)), NewestKey)|
    ensures var all := Sort(Where(rows, teams, Filters(severity, cursor)), NewestKey);
            a in Sort(Where(rows, teams, Filters(severity, Some(CursorOf(all[n - 1])))), NewestKey) <==> a in all[n..]
  {
    hide Where, Sort, Table, NewestKey, InTeams, Sorted, DistinctKeys, Older, CursorOf;
    var f := Filters(severity, cursor);
    var wanted := Where(rows, teams, f);
    var all := Sort(wanted, NewestKey);
    var last := all[n - 1];
    var g := Filters(severity, Some(CursorOf(last)));
    WhereDistinct(rows, teams, f);
    SortSorts(wanted, NewestKey);
    SortedTail(all, n, a);
    InSort(wanted, a);
    InSort(wanted, last);
    InSort(Where(rows, teams, g), a);
    InWhere(rows, teams, f, a);
    InWhere(rows, teams, f, last);
    InWhere(rows, teams, g, a);
    OlderIsBelow(a, last);
    OlderTwice(a, last, cursor);
  }

  /** On a fixed table the walk ends, within as many pages as the rows fill,
      and has shown exactly the sorted rows asked for. */
  lemma WalkEnds(tables: seq<seq<Alert>>, rows: seq<Alert>, teams: Option<seq<int>>,
                 severity: Option<string>, limit: nat, cursor: Option<Cursor>)
    requires limit > 0 && Table(rows) && DistinctTeams(teams)
    requires |tables| > 0 && forall i | 0 <= i < |tables| :: tables[i] == rows
    requires |tables| * limit >= |Where(rows, teams, Filters(severity, cursor))|
    ensures Walk(tables, teams, severity, limit, cursor)
            == Walked(Sort(Where(rows, teams, Filters(severity, cursor)), NewestKey), true)
    ensures var items := Walk(tables, teams, severity, limit, cursor).items;
            NewestFirst(items) && forall a :: a in items <==> Wanted(rows, teams, severity, cursor, a)
  {
    WalkShowsAll(tables, rows, teams, severity, limit, cursor);
    FilteredAndSorted(rows, teams, severity, cursor);
  }

  /** The sorted rows asked for: newest first, exactly those wanted. */
  lemma FilteredAndSorted(rows: seq<Alert>, teams: Option<seq<int>>, severity: Option<string>, cursor: Option<Cursor>)
    requires Table(rows)
    ensures var all := Sort(Where(rows, teams, Filters(severity, cursor)), NewestKey);
            NewestFirst(all) && forall a :: a in all <==> Wanted(rows, teams, severity, cursor, a)
  {
    var f := Filters(severity, cursor);
    var all := Sort(Where(rows, teams, f), NewestKey);
    WhereDistinct(rows, teams, f);
    SortSorts(Where(rows, teams, f), NewestKey);
    SortedIsNewestFirst(all);
    hide Sort, Where, NewestFirst, Wanted, NewestKey;
    forall a ensures a in all <==> Wanted(rows, teams, severity, cursor, a) {
      InSort(Where(rows, teams, f), a);
      WhereIsWanted(rows, teams, severity, cursor, a);
    }
  }

  lemma {:induction false} WalkShowsAll(tables: seq<seq<Alert>>, rows: seq<Alert>, teams: Option<seq<int>>,
                                        severity: Option<string>, limit: nat, cursor: Option<Cursor>)
    requires limit > 0 && Table(rows) && DistinctTeams(teams)
    requires |tables| > 0 && forall i | 0 <= i < |tables| :: tables[i] == rows
    requires |tables| * limit >= |Where(rows, teams, Filters(severity, cursor))|
    ensures Walk(tables, teams, severity, limit, cursor)
            == Walked(Sort(Where(rows, teams, Filters(severity, cursor)), NewestKey), true)
  {
    hide Where, ListAlerts, NewestKey, Table, Sort, Below, Sorted, DistinctKeys, DistinctTeams;
    var wanted := Where(rows, teams, Filters(severity, cursor));
    PageIsTop(rows, teams, severity, limit, cursor);
    SortKeeps(wanted, NewestKey);
    var page := ListAlerts(rows, teams, severity, limit, cursor);
    assert tables[0] == rows;
    if page.next.Some? {
      AfterPage(rows, teams, severity, cursor, limit);
      OnePageLess(|tables|, limit, |wanted|);
      var all := Sort(wanted, NewestKey);
      WalkShowsAll(tables[1..], rows, teams, severity, limit, page.next);
      assert all == all[..limit] + all[limit..];
    }
  }

  lemma OnePageLess(pages: nat, limit: nat, n: nat)
    requires pages * limit >= n > limit
    ensures pages > 1 && (pages - 1) * limit >= n - limit
  {
    assert (pages - 1) * limit == pages * limit - limit;
  }
}
