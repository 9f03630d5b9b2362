module Common {
  datatype Option<+T> = None | Some(value: T)

  /** All the strings, one after the other. */
  function Concat(parts: seq<string>): string {
    if parts == [] then "" else Concat(parts[..|parts| - 1]) + parts[|parts| - 1]
  }

  /** Python's and JavaScript's join. */
  function Join(parts: seq<string>, separator: string): string {
    if parts == [] then ""
    else if |parts| == 1 then parts[0]
    else parts[0] + separator + Join(parts[1..], separator)
  }

  /** What pins `Concat`: nothing, one text, and lists put together. */
  lemma {:induction false} ConcatIs(a: seq<string>, b: seq<string>, text: string)
    ensures Concat([]) == "" && Concat([text]) == text
    ensures Concat(a + b) == Concat(a) + Concat(b)
  {
    assert [text][..0] == [];
    if |b| == 0 {
      assert a + b == a;
      assert Concat(a) + "" == Concat(a);
    } else {
      assert (a + b)[..|a + b| - 1] == a + b[..|b| - 1];
      ConcatIs(a, b[..|b| - 1], text);
    }
  }

  /** ... and `Join`: with the separator between, and nowhere else. */
  lemma {:induction false} JoinIs(a: seq<string>, b: seq<string>, text: string, separator: string)
    requires |a| > 0 && |b| > 0
    ensures Join([], separator) == "" && Join([text], separator) == text
    ensures Join(a + b, separator) == Join(a, separator) + separator + Join(b, separator)
  {
    if |a| == 1 {
      assert (a + b)[1..] == b;
    } else {
      assert (a + b)[1..] == a[1..] + b;
      JoinIs(a[1..], b, text, separator);
    }
  }

  /** Where `c` first stands in `s`, or the end. */
  function IndexOf(s: string, c: char): (i: nat)
    ensures i <= |s|
    ensures i < |s| ==> s[i] == c
    ensures forall j | 0 <= j < i :: s[j] != c
  {
    if |s| == 0 || s[0] == c then 0 else 1 + IndexOf(s[1..], c)
  }

  lemma IndexOfIs(s: string, c: char, i: nat)
    requires i <= |s| && (i < |s| ==> s[i] == c) && forall j | 0 <= j < i :: s[j] != c
    ensures IndexOf(s, c) == i
  {
  }

  predicate NoRepeats(ids: seq<int>) {
    forall i, j | 0 <= i < j < |ids| :: ids[i] != ids[j]
  }

  // ---- Putting lists together ----------------------------------------------------

  lemma CutAt<T>(s: seq<T>, n: nat)
    requires n <= |s|
    ensures s == s[..n] + s[n..]
  {
  }

  lemma Grouped<T>(a: seq<T>, b: seq<T>, c: seq<T>)
    ensures a + b + c == a + (b + c)
  {
  }

  // ---- Texts joined by a colon ---------------------------------------------------

  lemma FirstColon(a: string, x: string)
    requires ':' !in a
    ensures var s := a + ":" + x;
            s[|a|] == ':' && (forall j | 0 <= j < |a| :: s[j] != ':') && s[..|a|] == a && s[|a| + 1..] == x
  {
    var s := a + ":" + x;
    assert forall j | 0 <= j < |a| :: s[j] == a[j];
  }

  lemma ColonSplits(a: string, x: string, b: string, y: string)
    requires a + ":" + x == b + ":" + y && ':' !in a && ':' !in b
    ensures a == b && x == y
  {
    FirstColon(a, x);
    FirstColon(b, y);
    assert |a| == |b|;
  }

  lemma LastColon(a: string, x: string)
    requires ':' !in x
    ensures var s := a + ":" + x;
            s[|a|] == ':' && (forall j | |a| < j < |s| :: s[j] != ':') && s[..|a|] == a && s[|a| + 1..] == x
  {
    var s := a + ":" + x;
    assert forall j | |a| < j < |s| :: s[j] == x[j - |a| - 1];
  }

  lemma ColonSplitsLast(a: string, x: string, b: string, y: string)
    requires a + ":" + x == b + ":" + y && ':' !in x && ':' !in y
    ensures a == b && x == y
  {
    LastColon(a, x);
    LastColon(b, y);
    assert |a| == |b|;
  }
}
