/** Sorting by a key of two parts, highest first, and taking the first few:
    ORDER BY a DESC, b DESC LIMIT n. */
module Ranking {
  datatype Key = Key(major: real, minor: int)

  predicate Above(a: Key, b: Key) {
    a.major > b.major || (a.major == b.major && a.minor > b.minor)
  }

  function Insert<T>(x: T, sorted: seq<T>, key: T -> Key): seq<T> {
    if sorted == [] then [x]
    else if Above(key(sorted[0]), key(x)) then [sorted[0]] + Insert(x, sorted[1..], key)
    else [x] + sorted
  }

  function Sort<T>(s: seq<T>, key: T -> Key): seq<T> {
    if s == [] then [] else Insert(s[|s| - 1], Sort(s[..|s| - 1], key), key)
  }

  function Take<T>(s: seq<T>, n: nat): (r: seq<T>)
    ensures r <= s && |r| <= n && (|s| <= n ==> r == s)
  {
    if n < |s| then s[..n] else s
  }

  function Top<T>(s: seq<T>, n: nat, key: T -> Key): seq<T> {
    Take(Sort(s, key), n)
  }

  ghost predicate Sorted<T>(s: seq<T>, key: T -> Key) {
    forall i, j | 0 <= i < j < |s| :: Above(key(s[i]), key(s[j]))
  }

  ghost predicate DistinctKeys<T>(s: seq<T>, key: T -> Key) {
    forall i, j | 0 <= i < j < |s| :: key(s[i]) != key(s[j])
  }

  /** How many elements rank above `k`. */
  function CountAbove<T>(s: seq<T>, k: Key, key: T -> Key): nat {
    if s == [] then 0
    else CountAbove(s[..|s| - 1], k, key) + (if Above(key(s[|s| - 1]), k) then 1 else 0)
  }

  // ---- Sorting sorts, and keeps every element --------------------------------

  lemma {:induction false} InsertKeeps<T>(x: T, s: seq<T>, key: T -> Key)
    ensures multiset(Insert(x, s, key)) == multiset(s) + multiset{x}
    ensures |Insert(x, s, key)| == |s| + 1
  {
    if s != [] && Above(key(s[0]), key(x)) {
      InsertKeeps(x, s[1..], key);
      assert s == [s[0]] + s[1..];
    }
  }

  lemma HeadFirst<T>(s: seq<T>, i: nat, key: T -> Key)
    requires Sorted(s, key) && i < |s|
    ensures i == 0 || Above(key(s[0]), key(s[i]))
  {
  }

  lemma Earlier<T>(s: seq<T>, i: nat, j: nat, key: T -> Key)
    requires Sorted(s, key) && i < |s| && j < |s|
    ensures i < j ==> Above(key(s[i]), key(s[j]))
  {
  }

  lemma SortedAhead<T>(x: T, s: seq<T>, key: T -> Key)
    requires Sorted(s, key) && (|s| > 0 ==> Above(key(x), key(s[0])))
    ensures Sorted([x] + s, key)
  {
    forall j | 0 <= j < |s| ensures Above(key(x), key(s[j])) {
      HeadFirst(s, j, key);
    }
  }

  lemma {:induction false} InsertSorts<T>(x: T, s: seq<T>, key: T -> Key)
    requires Sorted(s, key) && forall i | 0 <= i < |s| :: key(s[i]) != key(x)
    ensures Sorted(Insert(x, s, key), key)
  {
    if s == [] {
    } else if Above(key(s[0]), key(x)) {
      InsertSorts(x, s[1..], key);
      if |s| > 1 { HeadFirst(s, 1, key); }
      SortedAhead(s[0], Insert(x, s[1..], key), key);
    } else {
      SortedAhead(x, s, key);
    }
  }

  lemma {:induction false} SortKeeps<T>(s: seq<T>, key: T -> Key)
    ensures multiset(Sort(s, key)) == multiset(s)
    ensures |Sort(s, key)| == |s|
  {
    if s != [] {
      var n := |s| - 1;
      SortKeeps(s[..n], key);
      InsertKeeps(s[n], Sort(s[..n], key), key);
      assert s == s[..n] + [s[n]];
    }
  }

  lemma Member<T>(s: seq<T>, x: T) returns (i: nat)
    requires x in multiset(s)
    ensures i < |s| && s[i] == x
  {
    assert x in s;
    i :| i < |s| && s[i] == x;
  }

  lemma {:induction false} SortSorts<T>(s: seq<T>, key: T -> Key)
    requires DistinctKeys(s, key)
    ensures Sorted(Sort(s, key), key)
  {
    if s != [] {
      var n := |s| - 1;
      var front := Sort(s[..n], key);
      SortSorts(s[..n], key);
      SortKeeps(s[..n], key);
      forall i | 0 <= i < |front| ensures key(front[i]) != key(s[n]) {
        assert front[i] in multiset(front);
        var j := Member(s[..n], front[i]);
        assert s[j] == front[i];
      }
      InsertSorts(s[n], front, key);
    }
  }

  lemma TopIsSorted<T>(s: seq<T>, n: nat, key: T -> Key)
    requires DistinctKeys(s, key)
    ensures Sorted(Top(s, n, key), key)
    ensures |Top(s, n, key)| == if |s| <= n then |s| else n
  {
    SortSorts(s, key);
    SortKeeps(s, key);
    hide Sort, Above;
  }

  lemma TopMember<T>(s: seq<T>, n: nat, key: T -> Key, x: T)
    requires x in Top(s, n, key)
    ensures x in s
  {
    SortKeeps(s, key);
    assert x in Sort(s, key);
    assert x in multiset(Sort(s, key));
  }

  // ---- Sorted lists with the same elements are the same ------------------------

  lemma {:induction false} SortedIsUnique<T>(a: seq<T>, b: seq<T>, key: T -> Key)
    requires Sorted(a, key) && Sorted(b, key)
    requires forall x | x in a :: x in b
    requires forall x | x in b :: x in a
    ensures a == b
  {
    if |a| == 0 {
      if |b| > 0 { HasElement(b); }
    } else {
      assert a[0] in b;
      assert b[0] in a;
      SameHead(a, b, key);
      forall x | x in a[1..] ensures x in b[1..] { TailMember(a, x, key); TailMember(b, x, key); }
      forall x | x in b[1..] ensures x in a[1..] { TailMember(b, x, key); TailMember(a, x, key); }
      SortedIsUnique(a[1..], b[1..], key);
      assert a == [a[0]] + a[1..] && b == [b[0]] + b[1..];
    }
  }

  lemma HasElement<T>(s: seq<T>)
    requires |s| > 0
    ensures exists y :: y in s
  {
    assert s[0] in s;
  }

  lemma SameHead<T>(a: seq<T>, b: seq<T>, key: T -> Key)
    requires Sorted(a, key) && Sorted(b, key) && a != [] && b != [] && a[0] in b && b[0] in a
    ensures a[0] == b[0]
  {
    var i :| 0 <= i < |b| && b[i] == a[0];
    var j :| 0 <= j < |a| && a[j] == b[0];
    HeadFirst(b, i, key);
    HeadFirst(a, j, key);
  }

  lemma TailMember<T>(s: seq<T>, x: T, key: T -> Key)
    requires Sorted(s, key) && s != []
    ensures x in s[1..] <==> x in s && x != s[0]
  {
    if x in s[1..] {
      var i :| 0 <= i < |s| - 1 && s[1..][i] == x;
      HeadFirst(s, i + 1, key);
    }
    assert s == [s[0]] + s[1..];
  }

  // ---- Counting what ranks above -------------------------------------------------

  lemma CountOneMore<T>(s: seq<T>, x: T, k: Key, key: T -> Key)
    ensures CountAbove(s + [x], k, key) == CountAbove(s, k, key) + (if Above(key(x), k) then 1 else 0)
  {
    assert (s + [x])[..|s|] == s;
  }

  lemma {:induction false} CountInTwo<T>(a: seq<T>, b: seq<T>, k: Key, key: T -> Key)
    ensures CountAbove(a + b, k, key) == CountAbove(a, k, key) + CountAbove(b, k, key)
  {
    hide Above;
    if |b| == 0 {
      assert a + b == a;
    } else {
      var n := |b| - 1;
      CountInTwo(a, b[..n], k, key);
      assert a + b == (a + b[..n]) + [b[n]];
      CountOneMore(a + b[..n], b[n], k, key);
    }
  }

  lemma {:induction false} CountInsert<T>(x: T, s: seq<T>, k: Key, key: T -> Key)
    ensures CountAbove(Insert(x, s, key), k, key) == CountAbove(s, k, key) + (if Above(key(x), k) then 1 else 0)
  {
    if s == [] {
      assert [] + [x] == [x];
      CountOneMore([], x, k, key);
    } else if Above(key(s[0]), key(x)) {
      CountInsert(x, s[1..], k, key);
      assert s == [s[0]] + s[1..];
      hide Above, CountAbove;
      CountInTwo([s[0]], Insert(x, s[1..], key), k, key);
      CountInTwo([s[0]], s[1..], k, key);
    } else {
      assert [] + [x] == [x];
      CountOneMore([], x, k, key);
      CountInTwo([x], s, k, key);
    }
  }

  lemma {:induction false} CountSort<T>(s: seq<T>, k: Key, key: T -> Key)
    ensures CountAbove(Sort(s, key), k, key) == CountAbove(s, k, key)
  {
    if s != [] {
      var n := |s| - 1;
      CountSort(s[..n], k, key);
      CountInsert(s[n], Sort(s[..n], key), k, key);
    }
  }

  /** In a sorted list, what ranks above `k` comes first. */
  lemma {:induction false} CountIsPrefix<T>(s: seq<T>, k: Key, key: T -> Key)
    requires Sorted(s, key)
    ensures CountAbove(s, k, key) <= |s|
    ensures forall i | 0 <= i < |s| :: Above(key(s[i]), k) <==> i < CountAbove(s, k, key)
  {
    if s != [] {
      var n := |s| - 1;
      CountIsPrefix(s[..n], k, key);
      assert forall i | 0 <= i < n :: s[..n][i] == s[i];
      if Above(key(s[n]), k) {
        forall i | 0 <= i < n ensures Above(key(s[i]), k) { assert Above(key(s[i]), key(s[n])); }
        assert n > 0 ==> Above(key(s[..n][n - 1]), k);
      }
    }
  }

  /** The first `n` of a sorted list hold as much of it above `k` as they can. */
  lemma CountTop<T>(s: seq<T>, n: nat, k: Key, key: T -> Key)
    requires DistinctKeys(s, key)
    ensures var c := CountAbove(s, k, key); CountAbove(Top(s, n, key), k, key) == if c < n then c else n
  {
    SortSorts(s, key);
    SortKeeps(s, key);
    CountSort(s, k, key);
    var all, top := Sort(s, key), Top(s, n, key);
    CountIsPrefix(all, k, key);
    CountIsPrefix(top, k, key);
    var c, t := CountAbove(all, k, key), CountAbove(top, k, key);
    assert t < |top| ==> !Above(key(top[t]), k) && top[t] == all[t];
    assert t > 0 ==> Above(key(top[t - 1]), k) && top[t - 1] == all[t - 1];
  }

  /** An element is among the first `n` exactly when fewer than `n` rank above
      it. */
  lemma InTop<T>(s: seq<T>, x: T, n: nat, key: T -> Key)
    requires DistinctKeys(s, key) && x in s
    ensures x in Top(s, n, key) <==> CountAbove(s, key(x), key) < n
  {
    SortSorts(s, key);
    SortKeeps(s, key);
    CountSort(s, key(x), key);
    var all, top := Sort(s, key), Top(s, n, key);
    CountIsPrefix(all, key(x), key);
    assert x in multiset(s);
    var i := Member(all, x);
    var c := CountAbove(all, key(x), key);
    assert c <= i;
    if c < |all| { Earlier(all, c, i, key); }
    if x in top {
      var j :| 0 <= j < |top| && top[j] == x;
      assert all[j] == x;
      assert j >= c;
    }
  }

  /** Whatever repeats, nothing ranks above the first of a sorted list. */
  lemma {:induction false} HeadIsHighest<T>(s: seq<T>, key: T -> Key, x: T)
    requires x in s
    ensures Sort(s, key) != [] && Sort(s, key)[0] in s && !Above(key(x), key(Sort(s, key)[0]))
  {
    var n := |s| - 1;
    var front := Sort(s[..n], key);
    SortKeeps(s[..n], key);
    assert s == s[..n] + [s[n]];
    if front != [] {
      assert front[0] in multiset(front);
      assert front[0] in s[..n];
      HeadIsHighest(s[..n], key, if x in s[..n] then x else front[0]);
    }
  }
}
