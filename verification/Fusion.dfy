/** Retrieval of app/runbooks.py: two ranked candidate lists, fused by
    reciprocal rank, and the mode a search ends in. */
module Fusion {
  import opened Common
  import opened Ranking

  const CANDIDATES := 20
  const RRF_K := 60

  /** A section as one search sees it: whether it matches the words and how
      well, whether its vector is of today's kind and how far it is. */
  datatype Chunk = Chunk(id: int, team: int, matches: bool, rank: real, current: bool, distance: real)

  /** ORDER BY rank DESC, id and ORDER BY distance, id. */
  function KeywordKey(c: Chunk): Key {
    Key(c.rank, -c.id)
  }

  function DistanceKey(c: Chunk): Key {
    Key(-c.distance, -c.id)
  }

  predicate InReach(c: Chunk, teams: Option<seq<int>>) {
    teams.Some? ==> c.team in teams.value
  }

  function Matching(chunks: seq<Chunk>, teams: Option<seq<int>>): seq<Chunk> {
    if chunks == [] then []
    else
      var last := chunks[|chunks| - 1];
      Matching(chunks[..|chunks| - 1], teams) + (if last.matches && InReach(last, teams) then [last] else [])
  }

  function IdsOf(chunks: seq<Chunk>): seq<int> {
    seq(|chunks|, i requires 0 <= i < |chunks| => chunks[i].id)
  }

  /** The keyword candidates, best first. */
  function KeywordList(chunks: seq<Chunk>, teams: Option<seq<int>>): seq<int> {
    IdsOf(Top(Matching(chunks, teams), CANDIDATES, KeywordKey))
  }

  /** What the approximate index may return: some of the sections in reach
      with a current vector, at most `CANDIDATES`, none twice. */
  ghost predicate Found(found: seq<Chunk>, chunks: seq<Chunk>, teams: Option<seq<int>>) {
    && |found| <= CANDIDATES && DistinctIds(found)
    && forall i | 0 <= i < |found| :: found[i] in chunks && found[i].current && InReach(found[i], teams)
  }

  /** ... numbered by distance. */
  function SemanticList(found: seq<Chunk>): seq<int> {
    IdsOf(Sort(found, DistanceKey))
  }

  /** The chunks of a table: `id` is its primary key. */
  ghost predicate DistinctIds(chunks: seq<Chunk>) {
    forall i, j | 0 <= i < j < |chunks| :: chunks[i].id != chunks[j].id
  }

  // ---- Fusion ------------------------------------------------------------------

  /** row_number() in a list, or 0. */
  function RankIn(list: seq<int>, id: int): (r: nat)
    ensures r <= |list| && (r > 0 <==> id in list)
    ensures r > 0 ==> list[r - 1] == id
  {
    if list == [] then 0
    else if list[|list| - 1] == id then |list|
    else RankIn(list[..|list| - 1], id)
  }

  /** coalesce(1.0 / (:rrf_k + rank_no), 0) */
  function Reciprocal(list: seq<int>, id: int, c: nat): real {
    var r := RankIn(list, id);
    if r == 0 then 0.0 else 1.0 / (c + r) as real
  }

  function Score(keyword: seq<int>, semantic: seq<int>, id: int, c: nat): real {
    Reciprocal(keyword, id, c) + Reciprocal(semantic, id, c)
  }

  datatype Hit = Hit(id: int, score: real, keywordRank: Option<nat>, semanticRank: Option<nat>)

  /** ORDER BY score DESC, id */
  function HitKey(h: Hit): Key {
    Key(h.score, -h.id)
  }

  function OptRank(list: seq<int>, id: int): Option<nat> {
    if RankIn(list, id) == 0 then None else Some(RankIn(list, id))
  }

  /** SELECT id FROM keyword UNION SELECT id FROM semantic */
  function Union(keyword: seq<int>, semantic: seq<int>): seq<int> {
    if semantic == [] then keyword
    else
      var last := semantic[|semantic| - 1];
      var before := Union(keyword, semantic[..|semantic| - 1]);
      before + (if last in before then [] else [last])
  }

  function HybridHit(keyword: seq<int>, semantic: seq<int>, id: int, c: nat): Hit {
    Hit(id, Score(keyword, semantic, id, c), OptRank(keyword, id), OptRank(semantic, id))
  }

  function Joined(keyword: seq<int>, semantic: seq<int>, c: nat): seq<Hit> {
    var ids := Union(keyword, semantic);
    seq(|ids|, i requires 0 <= i < |ids| => HybridHit(keyword, semantic, ids[i], c))
  }

  /** The three queries. */
  function HybridHits(keyword: seq<int>, semantic: seq<int>, k: nat, c: nat): seq<Hit> {
    Top(Joined(keyword, semantic, c), k, HitKey)
  }

  function KeywordRows(keyword: seq<int>, c: nat): seq<Hit> {
    seq(|keyword|, i requires 0 <= i < |keyword| =>
      Hit(keyword[i], Reciprocal(keyword, keyword[i], c), OptRank(keyword, keyword[i]), None))
  }

  function KeywordHits(keyword: seq<int>, k: nat, c: nat): seq<Hit> {
    Top(KeywordRows(keyword, c), k, HitKey)
  }

  function SemanticRows(semantic: seq<int>, c: nat): seq<Hit> {
    seq(|semantic|, i requires 0 <= i < |semantic| =>
      Hit(semantic[i], Reciprocal(semantic, semantic[i], c), None, OptRank(semantic, semantic[i])))
  }

  function SemanticHits(semantic: seq<int>, k: nat, c: nat): seq<Hit> {
    Top(SemanticRows(semantic, c), k, HitKey)
  }

  // ---- The candidates: distinct, few, and in the asked teams ---------------------

  lemma {:induction false} InMatching(chunks: seq<Chunk>, teams: Option<seq<int>>, c: Chunk)
    requires c in Matching(chunks, teams)
    ensures c in chunks && c.matches && InReach(c, teams)
  {
    var n := |chunks| - 1;
    if c in Matching(chunks[..n], teams) { InMatching(chunks[..n], teams, c); }
    assert chunks == chunks[..n] + [chunks[n]];
  }

  lemma {:induction false} MatchingTable(chunks: seq<Chunk>, teams: Option<seq<int>>)
    requires DistinctIds(chunks)
    ensures DistinctIds(Matching(chunks, teams))
  {
    if chunks != [] {
      var n := |chunks| - 1;
      MatchingTable(chunks[..n], teams);
      var front := Matching(chunks[..n], teams);
      forall i | 0 <= i < |front| ensures front[i].id != chunks[n].id {
        InMatching(chunks[..n], teams, front[i]);
        var j :| 0 <= j < n && chunks[..n][j] == front[i];
        assert chunks[j] == front[i];
      }
    }
  }

  /** A section some asked team may read. */
  ghost predicate Readable(chunks: seq<Chunk>, teams: Option<seq<int>>, id: int) {
    exists i | 0 <= i < |chunks| :: chunks[i].id == id && InReach(chunks[i], teams)
  }

  lemma KeywordCandidates(chunks: seq<Chunk>, teams: Option<seq<int>>)
    requires DistinctIds(chunks)
    ensures var list := KeywordList(chunks, teams);
            |list| <= 20 && NoRepeats(list) && (forall id | id in list :: Readable(chunks, teams, id))
            && forall id | id in list :: exists i | 0 <= i < |chunks| :: chunks[i].id == id && chunks[i].matches
  {
    var all := Matching(chunks, teams);
    var top := Top(all, CANDIDATES, KeywordKey);
    MatchingTable(chunks, teams);
    TopIsSorted(all, CANDIDATES, KeywordKey);
    forall i | 0 <= i < |top|
      ensures top[i] in all && Readable(chunks, teams, top[i].id) && top[i] in chunks && top[i].matches
    {
      TopMember(all, CANDIDATES, KeywordKey, top[i]);
      InMatching(chunks, teams, top[i]);
    }
    SortedIds(top, KeywordKey, all);
    hide Matching, Top, KeywordKey, Readable;
  }

  lemma SortedIds(sorted: seq<Chunk>, key: Chunk -> Key, all: seq<Chunk>)
    requires Sorted(sorted, key) && DistinctIds(all)
    requires forall i | 0 <= i < |sorted| :: sorted[i] in all
    ensures NoRepeats(IdsOf(sorted))
  {
    forall i, j | 0 <= i < j < |sorted| ensures sorted[i].id != sorted[j].id {
      Earlier(sorted, i, j, key);
      var a :| 0 <= a < |all| && all[a] == sorted[i];
      var b :| 0 <= b < |all| && all[b] == sorted[j];
    }
  }

  lemma SemanticCandidates(found: seq<Chunk>, chunks: seq<Chunk>, teams: Option<seq<int>>)
    requires Found(found, chunks, teams)
    ensures var list := SemanticList(found);
            |list| <= 20 && NoRepeats(list) && (forall id | id in list :: Readable(chunks, teams, id))
            && forall id | id in list :: exists i | 0 <= i < |chunks| :: chunks[i].id == id && chunks[i].current
  {
    var sorted := Sort(found, DistanceKey);
    SortSorts(found, DistanceKey);
    SortKeeps(found, DistanceKey);
    forall i | 0 <= i < |sorted|
      ensures sorted[i] in found && Readable(chunks, teams, sorted[i].id) && sorted[i] in chunks && sorted[i].current
    {
      assert sorted[i] in multiset(sorted);
      var j := Member(found, sorted[i]);
      var m :| 0 <= m < |chunks| && chunks[m] == found[j];
    }
    SortedIds(sorted, DistanceKey, found);
    hide Sort, DistanceKey, Readable;
  }

  /** Among the sections that match the words, in reach: the better match comes
      first, ties by id, and one is left out only for twenty others. */
  lemma KeywordsInOrder(chunks: seq<Chunk>, teams: Option<seq<int>>, a: Chunk, b: Chunk)
    requires DistinctIds(chunks)
    requires a in chunks && a.matches && (teams.Some? ==> a.team in teams.value)
    requires b in chunks && b.matches && (teams.Some? ==> b.team in teams.value)
    requires a.rank > b.rank || (a.rank == b.rank && a.id < b.id)
    ensures var list := KeywordList(chunks, teams);
            && (b.id in list ==> a.id in list && RankIn(list, a.id) < RankIn(list, b.id))
            && (b.id !in list ==> |list| == 20)
  {
    var all := Matching(chunks, teams);
    ToMatching(chunks, teams, a);
    ToMatching(chunks, teams, b);
    MatchingTable(chunks, teams);
    assert Above(KeywordKey(a), KeywordKey(b));
    InOrderOfKey(all, CANDIDATES, KeywordKey, a, b);
    hide Matching, Top, KeywordKey;
  }

  lemma {:induction false} ToMatching(chunks: seq<Chunk>, teams: Option<seq<int>>, c: Chunk)
    requires c in chunks && c.matches && InReach(c, teams)
    ensures c in Matching(chunks, teams)
  {
    var n := |chunks| - 1;
    assert chunks == chunks[..n] + [chunks[n]];
    if c in chunks[..n] { ToMatching(chunks[..n], teams, c); }
  }

  /** Whatever the index finds: the nearer section comes first, ties by id. */
  lemma NearestFirst(found: seq<Chunk>, a: Chunk, b: Chunk)
    requires DistinctIds(found) && a in found && b in found
    requires a.distance < b.distance || (a.distance == b.distance && a.id < b.id)
    ensures var list := SemanticList(found);
            a.id in list && b.id in list && RankIn(list, a.id) < RankIn(list, b.id)
  {
    assert Above(DistanceKey(a), DistanceKey(b));
    SortKeeps(found, DistanceKey);
    Listed(found, DistanceKey, b);
    InOrderOfKey(found, |found|, DistanceKey, a, b);
    hide Sort, DistanceKey;
  }

  lemma Listed(all: seq<Chunk>, key: Chunk -> Key, c: Chunk)
    requires c in all
    ensures c.id in IdsOf(Sort(all, key))
  {
    SortKeeps(all, key);
    assert c in multiset(all);
    var i := Member(Sort(all, key), c);
    assert IdsOf(Sort(all, key))[i] == c.id;
    hide Sort;
  }

  /** Of two rows the one that ranks above is first among the top, if the other
      is there at all. */
  lemma InOrderOfKey(all: seq<Chunk>, n: nat, key: Chunk -> Key, a: Chunk, b: Chunk)
    requires DistinctIds(all) && DistinctKeys(all, key) && a in all && b in all && Above(key(a), key(b))
    ensures var list := IdsOf(Top(all, n, key));
            && (b.id in list ==> a.id in list && RankIn(list, a.id) < RankIn(list, b.id))
            && (b.id !in list ==> |list| == n)
  {
    var sorted := Sort(all, key);
    var i, j := InSortedOrder(all, key, a, b);
    forall x, y | 0 <= x < y < |sorted| ensures sorted[x].id != sorted[y].id { SortedApart(all, key, x, y); }
    hide Sort, Above, RankIn;
    InFirst(sorted, n, i, j);
  }

  /** Where the two stand among all, sorted. */
  lemma InSortedOrder(all: seq<Chunk>, key: Chunk -> Key, a: Chunk, b: Chunk) returns (i: nat, j: nat)
    requires DistinctKeys(all, key) && a in all && b in all && Above(key(a), key(b))
    ensures i < j < |Sort(all, key)| && Sort(all, key)[i] == a && Sort(all, key)[j] == b
  {
    SortSorts(all, key);
    SortKeeps(all, key);
    var sorted := Sort(all, key);
    assert a in multiset(all) && b in multiset(all);
    i := Member(sorted, a);
    j := Member(sorted, b);
    hide Sort, Sorted;
    if i > j { Earlier(sorted, j, i, key); }
    OneWay(key(a), key(b));
    hide Above;
  }

  /** Of two rows in a list the earlier is first among the first `n`. */
  lemma InFirst(sorted: seq<Chunk>, n: nat, i: nat, j: nat)
    requires i < j < |sorted| && forall x, y | 0 <= x < y < |sorted| :: sorted[x].id != sorted[y].id
    ensures var list := IdsOf(Take(sorted, n));
            && (sorted[j].id in list ==>
                  sorted[i].id in list && RankIn(list, sorted[i].id) < RankIn(list, sorted[j].id))
            && (sorted[j].id !in list ==> |list| == n)
  {
    hide RankIn;
    var list := IdsOf(Take(sorted, n));
    assert forall x | 0 <= x < |list| :: list[x] == sorted[x].id;
    if j < |list| {
      assert NoRepeats(list);
      RankAt(list, i);
      RankAt(list, j);
    } else {
      assert forall x | 0 <= x < |list| :: list[x] != sorted[j].id;
    }
  }

  lemma SortedApart(all: seq<Chunk>, key: Chunk -> Key, x: nat, y: nat)
    requires DistinctIds(all) && DistinctKeys(all, key) && x < y < |Sort(all, key)|
    ensures Sort(all, key)[x].id != Sort(all, key)[y].id
  {
    SortSorts(all, key);
    SortKeeps(all, key);
    var sorted := Sort(all, key);
    Earlier(sorted, x, y, key);
    assert sorted[x] in multiset(sorted) && sorted[y] in multiset(sorted);
    var p := Member(all, sorted[x]);
    var q := Member(all, sorted[y]);
    Irreflexive(key(sorted[x]));
  }

  lemma OneWay(a: Key, b: Key)
    requires Above(a, b)
    ensures !Above(b, a) && a != b
  {
  }

  // ---- What fusion returns -----------------------------------------------------------

  lemma {:induction false} UnionIs(keyword: seq<int>, semantic: seq<int>)
    requires NoRepeats(keyword)
    ensures NoRepeats(Union(keyword, semantic))
    ensures forall id :: id in Union(keyword, semantic) <==> id in keyword || id in semantic
  {
    if semantic != [] {
      var n := |semantic| - 1;
      UnionIs(keyword, semantic[..n]);
      assert semantic == semantic[..n] + [semantic[n]];
    }
  }

  lemma JoinedIs(keyword: seq<int>, semantic: seq<int>, c: nat)
    requires NoRepeats(keyword)
    ensures DistinctKeys(Joined(keyword, semantic, c), HitKey)
    ensures forall h | h in Joined(keyword, semantic, c) ::
              (h.id in keyword || h.id in semantic) && h == HybridHit(keyword, semantic, h.id, c)
    ensures forall id | id in keyword || id in semantic ::
              HybridHit(keyword, semantic, id, c) in Joined(keyword, semantic, c)
  {
    UnionIs(keyword, semantic);
    var ids := Union(keyword, semantic);
    var all := Joined(keyword, semantic, c);
    hide Union, Score, OptRank;
    forall id | id in keyword || id in semantic ensures HybridHit(keyword, semantic, id, c) in all {
      var i :| 0 <= i < |ids| && ids[i] == id;
      assert all[i] == HybridHit(keyword, semantic, id, c);
    }
  }

  /** The hits are distinct, sorted by score and then id, at most `k`, as many
      as there are; each is a candidate with its scores and ranks; and every
      candidate left out ranks below them all. */
  lemma HybridHitsAreBest(keyword: seq<int>, semantic: seq<int>, k: nat, c: nat)
    requires NoRepeats(keyword)
    ensures var hits := HybridHits(keyword, semantic, k, c);
            && Sorted(hits, HitKey) && |hits| <= k
            && (forall i, j | 0 <= i < j < |hits| :: hits[i].id != hits[j].id)
            && (forall i | 0 <= i < |hits| ::
                  (hits[i].id in keyword || hits[i].id in semantic)
                  && hits[i] == HybridHit(keyword, semantic, hits[i].id, c))
            && (forall id | id in keyword || id in semantic ::
                  var h := HybridHit(keyword, semantic, id, c);
                  h in hits || (|hits| == k && forall i | 0 <= i < |hits| :: Above(HitKey(hits[i]), HitKey(h))))
  {
    var all := Joined(keyword, semantic, c);
    var hits := HybridHits(keyword, semantic, k, c);
    JoinedIs(keyword, semantic, c);
    TopIsSorted(all, k, HitKey);
    hide Joined, HybridHit, Above, NoRepeats;
    assert forall i, j | 0 <= i < j < |hits| :: hits[i] != hits[j] by {
      forall i, j | 0 <= i < j < |hits| ensures hits[i] != hits[j] {
        Earlier(hits, i, j, HitKey);
        Irreflexive(HitKey(hits[i]));
      }
    }
    forall i | 0 <= i < |hits|
      ensures (hits[i].id in keyword || hits[i].id in semantic)
              && hits[i] == HybridHit(keyword, semantic, hits[i].id, c)
    {
      TopMember(all, k, HitKey, hits[i]);
    }
    forall id | id in keyword || id in semantic
      ensures var h := HybridHit(keyword, semantic, id, c);
              h in hits || (|hits| == k && forall i | 0 <= i < |hits| :: Above(HitKey(hits[i]), HitKey(h)))
    {
      LeftOut(all, k, HybridHit(keyword, semantic, id, c));
    }
  }

  lemma Irreflexive(k: Key)
    ensures !Above(k, k)
  {
  }

  /** What is not among the first `n` ranks below each of them. */
  lemma LeftOut(all: seq<Hit>, n: nat, h: Hit)
    requires DistinctKeys(all, HitKey) && h in all
    ensures var top := Top(all, n, HitKey);
            h in top || (|top| == n && forall i | 0 <= i < |top| :: Above(HitKey(top[i]), HitKey(h)))
  {
    SortSorts(all, HitKey);
    SortKeeps(all, HitKey);
    var sorted, top := Sort(all, HitKey), Top(all, n, HitKey);
    assert h in multiset(all);
    var at := Member(sorted, h);
    hide Sort, Above, HitKey;
    if at < |top| {
      assert top[at] == h;
    } else {
      forall i | 0 <= i < |top| ensures Above(HitKey(top[i]), HitKey(h)) { Earlier(sorted, i, at, HitKey); }
    }
  }

  // ---- Agreement outranks -----------------------------------------------------------------

  lemma Reciprocals(x: real, y: real)
    requires 0.0 < x <= y
    ensures 1.0 / x >= 1.0 / y > 0.0
    ensures x < y ==> 1.0 / x > 1.0 / y
  {
    var p, q := 1.0 / x, 1.0 / y;
    assert p * x == 1.0 && q * y == 1.0;
    assert x * y > 0.0;
    assert (p - q) * (x * y) == p * x * y - q * y * x == y - x;
    SignOf(p - q, x * y);
    SignOf(q, y);
  }

  lemma SignOf(a: real, b: real)
    requires b > 0.0
    ensures (a * b > 0.0 ==> a > 0.0) && (a * b >= 0.0 ==> a >= 0.0)
  {
  }

  /** A place among the first `n` is worth at least 1/(c+n), at most 1/(c+1). */
  lemma ReciprocalBounds(list: seq<int>, id: int, n: nat, c: nat)
    requires |list| <= n
    ensures id in list ==> 1.0 / (c + n) as real <= Reciprocal(list, id, c) <= 1.0 / (c + 1) as real
    ensures id !in list ==> Reciprocal(list, id, c) == 0.0
  {
    var r := RankIn(list, id);
    if r > 0 {
      Reciprocals((c + r) as real, (c + n) as real);
      Reciprocals((c + 1) as real, (c + r) as real);
    }
    hide RankIn;
  }

  ghost predicate InBoth(keyword: seq<int>, semantic: seq<int>, id: int) {
    id in keyword && id in semantic
  }

  ghost predicate InOne(keyword: seq<int>, semantic: seq<int>, id: int) {
    (id in keyword) != (id in semantic)
  }

  /** With lists of `n` candidates and constant `c`: does every section in
      both lists rank above every section in only one? */
  ghost predicate BothOutranksOne(n: nat, c: nat) {
    forall keyword: seq<int>, semantic: seq<int>, a: int, b: int |
      && |keyword| <= n && |semantic| <= n && NoRepeats(keyword) && NoRepeats(semantic)
      && InBoth(keyword, semantic, a) && InOne(keyword, semantic, b) ::
      Above(HitKey(HybridHit(keyword, semantic, a, c)), HitKey(HybridHit(keyword, semantic, b, c)))
  }

  lemma TwoLastBeatOneFirst(n: nat, c: nat)
    requires n < c + 2 && n > 0
    ensures 1.0 / (c + n) as real + 1.0 / (c + n) as real > 1.0 / (c + 1) as real
  {
    var x, y := (c + n) as real, (c + 1) as real;
    var p, q := 1.0 / x, 1.0 / y;
    assert p * x == 1.0 && q * y == 1.0 && x < 2.0 * y;
    Reciprocals(x, 2.0 * y);
    assert (1.0 / (2.0 * y)) * (2.0 * y) == 1.0;
    assert 1.0 / (2.0 * y) * 2.0 == q;
  }

  lemma TwoLastTieOneFirst(n: nat, c: nat)
    requires n >= c + 2
    ensures 1.0 / (c + n) as real + 1.0 / (c + n) as real <= 1.0 / (c + 1) as real
  {
    var x, y := (c + n) as real, (c + 1) as real;
    Reciprocals(2.0 * y, x);
    assert (1.0 / (2.0 * y)) * (2.0 * y) == 1.0;
    assert 1.0 / (2.0 * y) * 2.0 == 1.0 / y;
  }

  lemma AgreementOutranks(keyword: seq<int>, semantic: seq<int>, n: nat, c: nat, a: int, b: int)
    requires n < c + 2 && |keyword| <= n && |semantic| <= n
    requires InBoth(keyword, semantic, a) && InOne(keyword, semantic, b)
    ensures Score(keyword, semantic, a, c) > Score(keyword, semantic, b, c)
  {
    hide Reciprocal;
    ReciprocalBounds(keyword, a, n, c);
    ReciprocalBounds(semantic, a, n, c);
    ReciprocalBounds(keyword, b, n, c);
    ReciprocalBounds(semantic, b, n, c);
    TwoLastBeatOneFirst(n, c);
  }

  /** Sections at the ends of long lists that a first place outranks. */
  lemma LongListsMislead(n: nat, c: nat) returns (keyword: seq<int>, semantic: seq<int>, a: int, b: int)
    requires n >= c + 2
    ensures |keyword| == n && |semantic| == n && NoRepeats(keyword) && NoRepeats(semantic)
    ensures InBoth(keyword, semantic, a) && InOne(keyword, semantic, b)
    ensures !Above(HitKey(HybridHit(keyword, semantic, a, c)), HitKey(HybridHit(keyword, semantic, b, c)))
  {
    a, b := n, 1;
    keyword := seq(n, i requires 0 <= i < n => i + 1);
    semantic := seq(n, i requires 0 <= i < n => if i == n - 1 then n else -i);
    assert keyword[n - 1] == a && semantic[n - 1] == a && keyword[0] == b && b !in semantic;
    LastRank(keyword, a);
    LastRank(semantic, a);
    FirstRank(keyword, b);
    TwoLastTieOneFirst(n, c);
    hide RankIn;
  }

  lemma LastRank(list: seq<int>, id: int)
    requires list != [] && list[|list| - 1] == id
    ensures RankIn(list, id) == |list|
  {
  }

  lemma FirstRank(list: seq<int>, id: int)
    requires list != [] && list[0] == id && NoRepeats(list)
    ensures RankIn(list, id) == 1
  {
  }

  /** The constant is large enough for the lists exactly when a list is less
      than two longer. With 20 candidates and 60 it is, by far. */
  lemma AgreementOutranksExactly(n: nat, c: nat)
    ensures BothOutranksOne(n, c) <==> n < c + 2
    ensures BothOutranksOne(CANDIDATES, RRF_K)
  {
    hide NoRepeats, InBoth, InOne, Score;
    if n >= c + 2 {
      var keyword, semantic, a, b := LongListsMislead(n, c);
      assert !BothOutranksOne(n, c);
    } else {
      AgreementAlways(n, c);
    }
    AgreementAlways(CANDIDATES, RRF_K);
  }

  lemma AgreementAlways(n: nat, c: nat)
    requires n < c + 2
    ensures BothOutranksOne(n, c)
  {
    forall keyword: seq<int>, semantic: seq<int>, a: int, b: int |
      && |keyword| <= n && |semantic| <= n && NoRepeats(keyword) && NoRepeats(semantic)
      && InBoth(keyword, semantic, a) && InOne(keyword, semantic, b)
      ensures Above(HitKey(HybridHit(keyword, semantic, a, c)), HitKey(HybridHit(keyword, semantic, b, c)))
    {
      AgreementOutranks(keyword, semantic, n, c, a, b);
    }
  }

  /** Ahead in both lists is ahead in the fused one. */
  lemma AheadInBoth(keyword: seq<int>, semantic: seq<int>, a: int, b: int, c: nat)
    requires 0 < RankIn(keyword, a) && 0 < RankIn(semantic, a)
    requires b in keyword ==> RankIn(keyword, a) < RankIn(keyword, b)
    requires b in semantic ==> RankIn(semantic, a) < RankIn(semantic, b)
    ensures Score(keyword, semantic, a, c) > Score(keyword, semantic, b, c)
  {
    AheadIn(keyword, a, b, c);
    AheadIn(semantic, a, b, c);
    hide Reciprocal, RankIn;
  }

  lemma AheadIn(list: seq<int>, a: int, b: int, c: nat)
    requires 0 < RankIn(list, a) && (b in list ==> RankIn(list, a) < RankIn(list, b))
    ensures Reciprocal(list, a, c) > Reciprocal(list, b, c)
  {
    var x := (c + RankIn(list, a)) as real;
    if b in list { Reciprocals(x, (c + RankIn(list, b)) as real); } else { Reciprocals(x, x); }
    hide RankIn;
  }

  // ---- One list alone ------------------------------------------------------------------------

  lemma RankAt(list: seq<int>, i: nat)
    requires i < |list| && NoRepeats(list)
    ensures RankIn(list, list[i]) == i + 1
  {
  }

  /** Every place is worth more than the next. */
  lemma PlacesFall(list: seq<int>, i: nat, j: nat, c: nat)
    requires NoRepeats(list) && i < j < |list|
    ensures Reciprocal(list, list[i], c) > Reciprocal(list, list[j], c)
  {
    RankAt(list, i);
    RankAt(list, j);
    Reciprocals((c + i + 1) as real, (c + j + 1) as real);
    hide RankIn, NoRepeats;
  }

  /** A list ranked by its own places stays as it is. */
  lemma RowsInOrder(rows: seq<Hit>, list: seq<int>, k: nat, c: nat)
    requires NoRepeats(list) && |rows| == |list|
    requires forall i | 0 <= i < |rows| :: rows[i].id == list[i] && rows[i].score == Reciprocal(list, list[i], c)
    ensures Sorted(rows, HitKey) && Top(rows, k, HitKey) == Take(rows, k)
  {
    hide Reciprocal, NoRepeats, Sort;
    forall i, j | 0 <= i < j < |rows| ensures Above(HitKey(rows[i]), HitKey(rows[j])) { PlacesFall(list, i, j, c); }
    SortOfSorted(rows);
  }

  lemma SortOfSorted(rows: seq<Hit>)
    requires Sorted(rows, HitKey)
    ensures Sort(rows, HitKey) == rows
  {
    forall i, j | 0 <= i < j < |rows| ensures HitKey(rows[i]) != HitKey(rows[j]) { Earlier(rows, i, j, HitKey); }
    SortSorts(rows, HitKey);
    SortKeeps(rows, HitKey);
    var sorted := Sort(rows, HitKey);
    hide Sorted, Sort, HitKey;
    forall h | h in rows ensures h in sorted { assert h in multiset(rows); }
    forall h | h in sorted ensures h in rows { assert h in multiset(sorted); }
    SortedIsUnique(sorted, rows, HitKey);
  }

  /** A search with one list gives the first `k` of it in their order, each
      with its place. */
  lemma OneListKeepsOrder(list: seq<int>, k: nat, c: nat)
    requires NoRepeats(list)
    ensures var hits := KeywordHits(list, k, c);
            && Sorted(hits, HitKey) && |hits| == (if |list| <= k then |list| else k)
            && forall i | 0 <= i < |hits| :: hits[i] == Hit(list[i], 1.0 / (c + i + 1) as real, Some(i + 1), None)
    ensures var hits := SemanticHits(list, k, c);
            && Sorted(hits, HitKey) && |hits| == (if |list| <= k then |list| else k)
            && forall i | 0 <= i < |hits| :: hits[i] == Hit(list[i], 1.0 / (c + i + 1) as real, None, Some(i + 1))
  {
    hide Reciprocal, OptRank, Top, NoRepeats, Sorted, HitKey;
    RowsInOrder(KeywordRows(list, c), list, k, c);
    RowsInOrder(SemanticRows(list, c), list, k, c);
    forall i | 0 <= i < |list|
      ensures Reciprocal(list, list[i], c) == 1.0 / (c + i + 1) as real && OptRank(list, list[i]) == Some(i + 1)
    {
      PlaceIs(list, i, c);
    }
    PrefixSorted(KeywordRows(list, c), k);
    PrefixSorted(SemanticRows(list, c), k);
  }

  lemma PlaceIs(list: seq<int>, i: nat, c: nat)
    requires i < |list| && NoRepeats(list)
    ensures Reciprocal(list, list[i], c) == 1.0 / (c + i + 1) as real && OptRank(list, list[i]) == Some(i + 1)
  {
    RankAt(list, i);
  }

  lemma PrefixSorted(rows: seq<Hit>, k: nat)
    requires Sorted(rows, HitKey)
    ensures Sorted(Take(rows, k), HitKey)
  {
  }

  // ---- One list empty ----------------------------------------------------------------------

  /** A hybrid search that finds no vectors is the keyword search. */
  lemma HybridWithoutVectors(keyword: seq<int>, k: nat, c: nat)
    ensures HybridHits(keyword, [], k, c) == KeywordHits(keyword, k, c)
  {
    var hits := KeywordRows(keyword, c);
    var all := Joined(keyword, [], c);
    forall i | 0 <= i < |keyword| ensures all[i] == hits[i] {
      assert RankIn([], keyword[i]) == 0;
    }
    assert all == hits;
    hide Top, Reciprocal, OptRank;
  }

  // ---- The mode a search ends in --------------------------------------------------------------

  datatype Mode = Hybrid | Keyword | Semantic | KeywordOnly

  /** What became of the question's embedding. */
  datatype Embedding = Off | Failed(code: string) | Vector

  datatype Retrieval = Retrieval(hits: seq<Hit>, mode: Mode, error: Option<string>)

  /** `_search` */
  function Search(mode: Mode, embedding: Embedding, keyword: seq<int>, semantic: seq<int>, k: nat): Retrieval
    requires !mode.KeywordOnly?
  {
    var error := if mode.Keyword? then None
                 else match embedding
                      case Off => Some("embeddings_off")
                      case Failed(code) => Some(code)
                      case Vector => None;
    var embedded := !mode.Keyword? && embedding.Vector?;
    if !embedded && mode.Semantic? then Retrieval([], Semantic, error)
    else if !embedded then Retrieval(KeywordHits(keyword, k, RRF_K), if mode.Hybrid? then KeywordOnly else mode, error)
    else if mode.Semantic? then Retrieval(SemanticHits(semantic, k, RRF_K), Semantic, error)
    else
      var hits := HybridHits(keyword, semantic, k, RRF_K);
      if hits != [] && |semantic| == 0 then Retrieval(hits, KeywordOnly, Some("no_current_vectors"))
      else Retrieval(hits, Hybrid, error)
  }

  /** A hybrid search always fuses what candidates it has; it says
      "keyword_only" exactly when meaning took no part in what it returns;
      and it gives a reason exactly then. A search by meaning alone returns
      nothing, with a reason, when the question has no vector. */
  lemma SearchDegrades(embedding: Embedding, keyword: seq<int>, semantic: seq<int>, k: nat)
    ensures var r := Search(Hybrid, embedding, keyword, semantic, k);
            && r.hits == HybridHits(keyword, if embedding.Vector? then semantic else [], k, RRF_K)
            && (r.mode == KeywordOnly || r.mode == Hybrid)
            && (r.mode == KeywordOnly <==> !embedding.Vector? || (semantic == [] && r.hits != []))
            && (r.mode == KeywordOnly ==> r.hits == KeywordHits(keyword, k, RRF_K))
            && r.error == (match embedding
                           case Off => Some("embeddings_off")
                           case Failed(code) => Some(code)
                           case Vector => if r.mode == KeywordOnly then Some("no_current_vectors") else None)
    ensures var r := Search(Semantic, embedding, keyword, semantic, k);
            && r.mode == Semantic
            && r.hits == (if embedding.Vector? then SemanticHits(semantic, k, RRF_K) else [])
            && r.error == (match embedding
                           case Off => Some("embeddings_off")
                           case Failed(code) => Some(code)
                           case Vector => None)
    ensures Search(Keyword, embedding, keyword, semantic, k)
            == Retrieval(KeywordHits(keyword, k, RRF_K), Keyword, None)
  {
    HybridWithoutVectors(keyword, k, RRF_K);
    hide HybridHits, KeywordHits, SemanticHits;
  }

  /** What a place is worth: one over 60 plus the place. */
  ghost function Worth(place: Option<nat>): real {
    if place.None? then 0.0 else 1.0 / (60 + place.value) as real
  }

  /** `place` is where `id` stands in the list, counted from 1. */
  ghost predicate StandsAt(list: seq<int>, id: int, place: Option<nat>) {
    if place.None? then id !in list else 1 <= place.value <= |list| && list[place.value - 1] == id
  }

  /** A hit tells its places in the two lists, and its score is their worth. */
  ghost predicate Tells(h: Hit, keyword: seq<int>, semantic: seq<int>) {
    && StandsAt(keyword, h.id, h.keywordRank) && StandsAt(semantic, h.id, h.semanticRank)
    && h.score == Worth(h.keywordRank) + Worth(h.semanticRank)
  }

  lemma PlaceTells(list: seq<int>, id: int)
    ensures StandsAt(list, id, OptRank(list, id)) && Reciprocal(list, id, 60) == Worth(OptRank(list, id))
  {
  }

  lemma HybridTells(keyword: seq<int>, semantic: seq<int>, k: nat, h: Hit)
    requires NoRepeats(keyword) && h in HybridHits(keyword, semantic, k, 60)
    ensures Tells(h, keyword, semantic)
  {
    HybridHitsAreBest(keyword, semantic, k, 60);
    PlaceTells(keyword, h.id);
    PlaceTells(semantic, h.id);
    hide HybridHits, Reciprocal, OptRank, StandsAt, Worth, NoRepeats;
  }

  lemma KeywordTells(keyword: seq<int>, k: nat, h: Hit)
    requires h in KeywordHits(keyword, k, 60)
    ensures Tells(h, keyword, [])
  {
    var rows := KeywordRows(keyword, 60);
    TopMember(rows, k, HitKey, h);
    var i :| 0 <= i < |rows| && rows[i] == h;
    PlaceTells(keyword, keyword[i]);
    hide Top, Reciprocal, OptRank;
  }

  lemma SemanticTells(semantic: seq<int>, k: nat, h: Hit)
    requires h in SemanticHits(semantic, k, 60)
    ensures Tells(h, [], semantic)
  {
    var rows := SemanticRows(semantic, 60);
    TopMember(rows, k, HitKey, h);
    var i :| 0 <= i < |rows| && rows[i] == h;
    PlaceTells(semantic, semantic[i]);
    hide Top, Reciprocal, OptRank;
  }

  /** In every mode and however it degrades, a hit tells where it stands in the
      lists that were searched, its score is the sum of 1 / (60 + place) over
      them, and hits come by falling score, ties by id. */
  lemma HitsTell(mode: Mode, embedding: Embedding, keyword: seq<int>, semantic: seq<int>, k: nat)
    requires !mode.KeywordOnly? && NoRepeats(keyword) && NoRepeats(semantic)
    ensures var hits := Search(mode, embedding, keyword, semantic, k).hits;
            && (forall h | h in hits ::
                  Tells(h, if mode.Semantic? then [] else keyword,
                        if mode.Keyword? || !embedding.Vector? then [] else semantic))
            && (forall i, j | 0 <= i < j < |hits| ::
                  hits[i].score > hits[j].score || (hits[i].score == hits[j].score && hits[i].id < hits[j].id))
  {
    SearchDegrades(embedding, keyword, semantic, k);
    hide Search, HybridHits, KeywordHits, SemanticHits, Tells;
    var hits := Search(mode, embedding, keyword, semantic, k).hits;
    forall h | h in hits
      ensures Tells(h, if mode.Semantic? then [] else keyword,
                    if mode.Keyword? || !embedding.Vector? then [] else semantic)
    {
      match mode {
        case Hybrid => HybridTells(keyword, if embedding.Vector? then semantic else [], k, h);
        case Keyword => KeywordTells(keyword, k, h);
        case Semantic => SemanticTells(semantic, k, h);
      }
    }
    HitsAreSorted(mode, embedding, keyword, semantic, k);
    forall i, j | 0 <= i < j < |hits|
      ensures hits[i].score > hits[j].score || (hits[i].score == hits[j].score && hits[i].id < hits[j].id)
    {
      Earlier(hits, i, j, HitKey);
    }
  }

  lemma HitsAreSorted(mode: Mode, embedding: Embedding, keyword: seq<int>, semantic: seq<int>, k: nat)
    requires !mode.KeywordOnly? && NoRepeats(keyword) && NoRepeats(semantic)
    ensures Sorted(Search(mode, embedding, keyword, semantic, k).hits, HitKey)
  {
    hide HybridHits, KeywordHits, SemanticHits, HitKey, HybridHit, Search;
    SearchDegrades(embedding, keyword, semantic, k);
    match mode {
      case Hybrid => HybridHitsAreBest(keyword, if embedding.Vector? then semantic else [], k, RRF_K);
      case Keyword => OneListKeepsOrder(keyword, k, RRF_K);
      case Semantic => OneListKeepsOrder(semantic, k, RRF_K);
    }
  }

  /** End to end: in every mode, of any table, any asked teams and anything
      the index finds, every hit is a section of an asked team. */
  lemma HitsAreReadable(mode: Mode, chunks: seq<Chunk>, teams: Option<seq<int>>, found: seq<Chunk>,
                        embedding: Embedding, k: nat)
    requires !mode.KeywordOnly? && DistinctIds(chunks) && Found(found, chunks, teams)
    ensures var r := Search(mode, embedding, KeywordList(chunks, teams), SemanticList(found), k);
            |r.hits| <= k && Sorted(r.hits, HitKey)
            && forall i | 0 <= i < |r.hits| :: Readable(chunks, teams, r.hits[i].id)
  {
    hide Readable, Found, KeywordList, SemanticList, HybridHits, KeywordHits, SemanticHits, HitKey, HybridHit;
    KeywordCandidates(chunks, teams);
    SemanticCandidates(found, chunks, teams);
    var keyword, semantic := KeywordList(chunks, teams), SemanticList(found);
    match mode {
      case Hybrid =>
        SearchDegrades(embedding, keyword, semantic, k);
        HybridHitsAreBest(keyword, if embedding.Vector? then semantic else [], k, RRF_K);
      case Keyword => OneListKeepsOrder(keyword, k, RRF_K);
      case Semantic => OneListKeepsOrder(semantic, k, RRF_K);
    }
  }
}
