/** `_canonical` of app/agent.py: the form in which two tool calls' arguments
    are compared. */
module Canonical {
  import opened Json

  // ---- Numbers: Python reads ints and floats -----------------------------------

  /** How Python prints the number it reads from a literal: an int with its
      digits, a float with the fewest that give it back. */
  type Numbers = string -> string

  /** What it prints is a number: no float is too large. */
  ghost predicate PrintsNumbers(num: Numbers) {
    forall literal {:trigger num(literal)} | IsNumber(literal) :: IsNumber(num(literal))
  }

  /** `v` with every number as Python prints it. */
  function Numbered(v: Json, num: Numbers): Json {
    match v
    case Num(literal) => Num(num(literal))
    case Arr(items) => Arr(seq(|items|, i requires 0 <= i < |items| => Numbered(items[i], num)))
    case Obj(fields) =>
      Obj(seq(|fields|, i requires 0 <= i < |fields| => Field(fields[i].key, Numbered(fields[i].value, num))))
    case _ => v
  }

  lemma {:induction false} NumberedPrintable(v: Json, num: Numbers)
    requires Printable(v) && PrintsNumbers(num)
    ensures Printable(Numbered(v, num))
  {
    hide IsNumber;
    match v
    case Arr(items) =>
      forall i | 0 <= i < |items| ensures Printable(Numbered(items[i], num)) { NumberedPrintable(items[i], num); }
    case Obj(fields) =>
      forall i | 0 <= i < |fields| ensures Printable(Numbered(fields[i].value, num)) {
        NumberedPrintable(fields[i].value, num);
      }
    case _ =>
  }

  /** The numbers of a value in the order they are written. */
  function Literals(v: Json): seq<string>
    decreases v, 0
  {
    match v
    case Num(literal) => [literal]
    case Arr(items) => LiteralsOf(items)
    case Obj(fields) => LiteralsIn(fields)
    case _ => []
  }

  function LiteralsOf(items: seq<Json>): seq<string>
    decreases items, 1
  {
    if |items| == 0 then [] else Literals(items[0]) + LiteralsOf(items[1..])
  }

  function LiteralsIn(fields: seq<Field>): seq<string>
    decreases fields, 1
  {
    if |fields| == 0 then [] else Literals(fields[0].value) + LiteralsIn(fields[1..])
  }

  function Reprinted(literals: seq<string>, num: Numbers): seq<string> {
    seq(|literals|, i requires 0 <= i < |literals| => num(literals[i]))
  }

  lemma ReprintedJoins(a: seq<string>, b: seq<string>, num: Numbers)
    ensures Reprinted(a + b, num) == Reprinted(a, num) + Reprinted(b, num)
  {
  }

  lemma {:induction false} NumberedItems(items: seq<Json>, num: Numbers)
    ensures LiteralsOf(Numbered(Arr(items), num).items) == Reprinted(LiteralsOf(items), num)
    decreases items, 1
  {
    if |items| > 0 {
      NumberedReprints(items[0], num);
      NumberedItems(items[1..], num);
      ReprintedJoins(Literals(items[0]), LiteralsOf(items[1..]), num);
      var texts := Numbered(Arr(items), num).items;
      assert texts[0] == Numbered(items[0], num) && texts[1..] == Numbered(Arr(items[1..]), num).items;
    }
    hide Literals, Reprinted, Numbered;
  }

  lemma {:induction false} NumberedFields(fields: seq<Field>, num: Numbers)
    ensures LiteralsIn(Numbered(Obj(fields), num).fields) == Reprinted(LiteralsIn(fields), num)
    decreases fields, 1
  {
    if |fields| > 0 {
      NumberedReprints(fields[0].value, num);
      NumberedFields(fields[1..], num);
      ReprintedJoins(Literals(fields[0].value), LiteralsIn(fields[1..]), num);
      var more := Numbered(Obj(fields), num).fields;
      assert more[0].value == Numbered(fields[0].value, num) && more[1..] == Numbered(Obj(fields[1..]), num).fields;
    }
    hide Literals, Reprinted, Numbered;
  }

  /** Every number in it, at any depth, is printed anew, in its place ... */
  lemma {:induction false} NumberedReprints(v: Json, num: Numbers)
    ensures Literals(Numbered(v, num)) == Reprinted(Literals(v), num)
    decreases v, 0
  {
    match v
    case Arr(items) => NumberedItems(items, num);
    case Obj(fields) => NumberedFields(fields, num);
    case _ =>
  }

  /** ... and nothing else is touched. */
  lemma {:induction false} NumberedElse(v: Json, num: Numbers)
    requires forall literal | literal in Literals(v) :: num(literal) == literal
    ensures Numbered(v, num) == v
    decreases v, 0
  {
    match v
    case Arr(items) =>
      forall i | 0 <= i < |items| ensures Numbered(items[i], num) == items[i] {
        ItemLiterals(items, i);
        NumberedElse(items[i], num);
      }
    case Obj(fields) =>
      forall i | 0 <= i < |fields| ensures Numbered(fields[i].value, num) == fields[i].value {
        FieldLiterals(fields, i);
        NumberedElse(fields[i].value, num);
      }
    case Num(literal) => assert literal in Literals(v);
    case _ =>
  }

  lemma {:induction false} ItemLiterals(items: seq<Json>, i: nat)
    requires i < |items|
    ensures forall literal | literal in Literals(items[i]) :: literal in LiteralsOf(items)
  {
    if i > 0 { ItemLiterals(items[1..], i - 1); }
  }

  lemma {:induction false} FieldLiterals(fields: seq<Field>, i: nat)
    requires i < |fields|
    ensures forall literal | literal in Literals(fields[i].value) :: literal in LiteralsIn(fields)
  {
    if i > 0 { FieldLiterals(fields[1..], i - 1); }
  }

  // ---- Key order: Python compares strings by code point ----------------------

  predicate Less(a: string, b: string) {
    b != "" && (a == "" || a[0] < b[0] || (a[0] == b[0] && Less(a[1..], b[1..])))
  }

  lemma {:induction false} LessTotal(a: string, b: string)
    ensures a == b || Less(a, b) || Less(b, a)
    ensures !(Less(a, b) && Less(b, a))
    ensures !Less(a, a)
  {
    if a != "" {
      LessTotal(a[1..], if b == "" then "" else b[1..]);
      assert a == [a[0]] + a[1..];
      assert b != "" ==> b == [b[0]] + b[1..];
    }
  }

  lemma {:induction false} LessTransitive(a: string, b: string, c: string)
    requires Less(a, b) && Less(b, c)
    ensures Less(a, c)
  {
    if a != "" && a[0] == b[0] == c[0] {
      LessTransitive(a[1..], b[1..], c[1..]);
    }
  }

  /** Equal, numbers by how they print: key order, and fields a later one of
      the same name replaces, make no difference. */
  ghost predicate Same(a: Json, b: Json)
    decreases a
  {
    match (a, b)
    case (Arr(x), Arr(y)) => |x| == |y| && forall i | 0 <= i < |x| :: Same(x[i], y[i])
    case (Obj(x), Obj(y)) =>
      forall key: string ::
        var i, j := LastIndex(x, key), LastIndex(y, key);
        (i >= 0 <==> j >= 0) && (i >= 0 && j >= 0 ==> Same(x[i].value, y[j].value))
    case _ => a == b
  }

  ghost predicate Sorted(fields: seq<Field>) {
    forall i, j | 0 <= i < j < |fields| :: Less(fields[i].key, fields[j].key)
  }

  function Insert(fields: seq<Field>, field: Field): seq<Field> {
    if fields == [] then [field]
    else if fields[0].key == field.key then [field] + fields[1..]
    else if Less(field.key, fields[0].key) then [field] + fields
    else [fields[0]] + Insert(fields[1..], field)
  }

  /** `v` with the keys of every object in it sorted (`sort_keys=True`). */
  function SortKeys(v: Json): Json
    decreases v, 0
  {
    match v
    case Arr(items) => Arr(SortItems(items))
    case Obj(fields) => Obj(SortFields(fields))
    case _ => v
  }

  function SortItems(items: seq<Json>): (r: seq<Json>)
    ensures |r| == |items|
    ensures forall i | 0 <= i < |items| :: r[i] == SortKeys(items[i])
    decreases items, 1
  {
    if items == [] then []
    else SortItems(items[..|items| - 1]) + [SortKeys(items[|items| - 1])]
  }

  function SortFields(fields: seq<Field>): seq<Field>
    decreases fields, 1
  {
    if fields == [] then []
    else
      var last := fields[|fields| - 1];
      Insert(SortFields(fields[..|fields| - 1]), Field(last.key, SortKeys(last.value)))
  }

  datatype Found = Absent | Present(value: Json)

  function Find(fields: seq<Field>, key: string): Found {
    var i := LastIndex(fields, key);
    if i < 0 then Absent else Present(fields[i].value)
  }

  // ---- Sorting keeps the dictionary and fixes its order ------------------------

  lemma {:induction false} InsertKeeps(fields: seq<Field>, field: Field)
    requires Sorted(fields)
    ensures Sorted(Insert(fields, field))
    ensures forall f | f in Insert(fields, field) :: f == field || f in fields
    ensures forall f | f in fields :: f in Insert(fields, field) || f.key == field.key
    ensures field in Insert(fields, field)
  {
    if fields != [] && fields[0].key != field.key {
      LessTotal(field.key, fields[0].key);
      if Less(field.key, fields[0].key) {
        forall j | 0 <= j < |fields| ensures Less(field.key, fields[j].key) {
          if j > 0 { LessTransitive(field.key, fields[0].key, fields[j].key); }
        }
      } else {
        var rest := Insert(fields[1..], field);
        InsertKeeps(fields[1..], field);
        forall j | 0 <= j < |rest| ensures Less(fields[0].key, rest[j].key) {
          assert rest[j] in rest;
        }
      }
    }
  }

  lemma SortedKeysDistinct(fields: seq<Field>, i: nat, j: nat)
    requires Sorted(fields) && i < |fields| && j < |fields| && fields[i].key == fields[j].key
    ensures i == j
  {
    LessTotal(fields[i].key, fields[j].key);
  }

  /** In sorted fields a key is found where it stands. */
  lemma FindInSorted(fields: seq<Field>, f: Field)
    requires Sorted(fields) && f in fields
    ensures Find(fields, f.key) == Present(f.value)
  {
    var i :| 0 <= i < |fields| && fields[i] == f;
    SortedKeysDistinct(fields, i, LastIndex(fields, f.key));
  }

  lemma FindAfterInsert(fields: seq<Field>, field: Field, key: string)
    requires Sorted(fields)
    ensures Find(Insert(fields, field), key)
            == if key == field.key then Present(field.value) else Find(fields, key)
  {
    var after := Insert(fields, field);
    InsertKeeps(fields, field);
    if key == field.key {
      FindInSorted(after, field);
    } else if LastIndex(fields, key) >= 0 {
      FindInSorted(after, fields[LastIndex(fields, key)]);
    }
  }

  lemma {:induction false} SortFieldsFinds(fields: seq<Field>, key: string)
    ensures Sorted(SortFields(fields))
    ensures Find(SortFields(fields), key)
            == match Find(fields, key) case Absent => Absent case Present(v) => Present(SortKeys(v))
  {
    if fields != [] {
      var last := fields[|fields| - 1];
      var front := fields[..|fields| - 1];
      SortFieldsFinds(front, key);
      InsertKeeps(SortFields(front), Field(last.key, SortKeys(last.value)));
      FindAfterInsert(SortFields(front), Field(last.key, SortKeys(last.value)), key);
    }
  }

  lemma LeastKey(x: seq<Field>, y: seq<Field>)
    requires Sorted(x) && Sorted(y) && x != [] && y != []
    requires Find(y, x[0].key).Present? && Find(x, y[0].key).Present?
    ensures x[0].key == y[0].key
  {
    var i, j := LastIndex(x, y[0].key), LastIndex(y, x[0].key);
    LessTotal(x[0].key, y[0].key);
  }

  /** Sorted fields are determined by what each key finds. */
  lemma {:induction false} SortedExtensional(x: seq<Field>, y: seq<Field>)
    requires Sorted(x) && Sorted(y)
    requires forall key: string :: Find(x, key) == Find(y, key)
    ensures x == y
    decreases |x|
  {
    if x == [] {
      if y != [] { assert Find(y, y[0].key) == Find(x, y[0].key); FindInSorted(y, y[0]); }
    } else {
      FindInSorted(x, x[0]);
      FindInSorted(y, y[0]);
      assert Find(x, y[0].key) == Find(y, y[0].key);
      LeastKey(x, y);
      assert x[0] == y[0];
      forall key: string ensures Find(x[1..], key) == Find(y[1..], key) {
        FindInTail(x, key);
        FindInTail(y, key);
        assert Find(x, key) == Find(y, key);
      }
      SortedExtensional(x[1..], y[1..]);
      assert x == [x[0]] + x[1..] && y == [y[0]] + y[1..];
    }
  }

  lemma FindInTail(x: seq<Field>, key: string)
    requires Sorted(x) && x != []
    ensures Find(x[1..], key) == if key == x[0].key then Absent else Find(x, key)
  {
    var tail := x[1..];
    var i, k := LastIndex(tail, key), LastIndex(x, key);
    if key == x[0].key {
      if i >= 0 { SortedKeysDistinct(x, 0, i + 1); }
    } else {
      if i >= 0 { assert x[i + 1] == tail[i]; }
      if k >= 0 { assert tail[k - 1] == x[k]; }
    }
  }

  // ---- Two values sort to the same exactly when they are the same ---------------

  lemma ArraysSortEqual(x: seq<Json>, y: seq<Json>)
    requires |x| == |y| && forall i | 0 <= i < |x| :: Same(x[i], y[i]) <==> SortItems(x)[i] == SortItems(y)[i]
    ensures Same(Arr(x), Arr(y)) <==> SortItems(x) == SortItems(y)
  {
    ItemwiseEqual(SortItems(x), SortItems(y));
    hide SortItems;
  }

  /** The same value under this key, or none. */
  ghost predicate SameAt(x: seq<Field>, y: seq<Field>, key: string) {
    var i, j := LastIndex(x, key), LastIndex(y, key);
    (i >= 0 <==> j >= 0) && (i >= 0 && j >= 0 ==> Same(x[i].value, y[j].value))
  }

  lemma SameObjects(x: seq<Field>, y: seq<Field>)
    ensures Same(Obj(x), Obj(y)) <==> forall key: string :: SameAt(x, y, key)
  {
    hide LastIndex;
    if Same(Obj(x), Obj(y)) {
      forall key: string ensures SameAt(x, y, key) { assert LastIndex(x, key) == LastIndex(x, key); }
    } else {
      var key: string :| var i, j := LastIndex(x, key), LastIndex(y, key);
                         !((i >= 0 <==> j >= 0) && (i >= 0 && j >= 0 ==> Same(x[i].value, y[j].value)));
      assert !SameAt(x, y, key);
    }
  }

  lemma ObjectsSortEqual(x: seq<Field>, y: seq<Field>)
    requires forall key: string :: SameAt(x, y, key) <==> Find(SortFields(x), key) == Find(SortFields(y), key)
    ensures Same(Obj(x), Obj(y)) <==> SortFields(x) == SortFields(y)
  {
    SameObjects(x, y);
    SortFieldsFinds(x, "");
    SortFieldsFinds(y, "");
    hide Same, SameAt, Find, SortFields, Sorted;
    if forall key: string :: SameAt(x, y, key) {
      forall key: string ensures Find(SortFields(x), key) == Find(SortFields(y), key) { assert SameAt(x, y, key); }
      SortedExtensional(SortFields(x), SortFields(y));
    }
  }

  lemma {:induction false} SameSortsEqual(a: Json, b: Json)
    ensures Same(a, b) <==> SortKeys(a) == SortKeys(b)
    decreases a
  {
    match (a, b)
    case (Arr(x), Arr(y)) =>
      if |x| == |y| {
        forall i | 0 <= i < |x| ensures Same(x[i], y[i]) <==> SortItems(x)[i] == SortItems(y)[i] {
          SameSortsEqual(x[i], y[i]);
        }
        ArraysSortEqual(x, y);
      }
    case (Obj(x), Obj(y)) =>
      forall key: string ensures SameAt(x, y, key) <==> Find(SortFields(x), key) == Find(SortFields(y), key) {
        var i, j := LastIndex(x, key), LastIndex(y, key);
        SortFieldsFinds(x, key);
        SortFieldsFinds(y, key);
        if i >= 0 && j >= 0 { SameSortsEqual(x[i].value, y[j].value); }
      }
      ObjectsSortEqual(x, y);
    case _ =>
  }

  lemma ItemwiseEqual(x: seq<Json>, y: seq<Json>)
    requires |x| == |y|
    ensures x == y <==> forall i | 0 <= i < |x| :: x[i] == y[i]
  {
  }

  lemma {:induction false} SortKeysPrintable(v: Json)
    requires Printable(v)
    ensures Printable(SortKeys(v))
    decreases v, 0
  {
    match v
    case Arr(items) =>
      forall i | 0 <= i < |items| ensures Printable(SortItems(items)[i]) {
        SortKeysPrintable(items[i]);
      }
    case Obj(fields) => SortFieldsPrintable(fields);
    case _ =>
  }

  lemma {:induction false} SortFieldsPrintable(fields: seq<Field>)
    requires Printable(Obj(fields))
    ensures Printable(Obj(SortFields(fields)))
    decreases fields, 1
  {
    if fields != [] {
      var front := fields[..|fields| - 1];
      var last := fields[|fields| - 1];
      SortFieldsPrintable(front);
      SortKeysPrintable(last.value);
      SortFieldsFinds(front, "");
      InsertKeeps(SortFields(front), Field(last.key, SortKeys(last.value)));
      var after := SortFields(fields);
      forall i | 0 <= i < |after| ensures Printable(after[i].value) {
        assert after[i] in after;
      }
    }
  }

  // ---- app/agent.py -------------------------------------------------------------

  function LoadArguments(arguments: string, num: Numbers): Loaded {
    match Loads(if arguments == "" then "{}" else arguments)
    case Value(v) => Value(Numbered(v, num))
    case Malformed => Malformed
  }

  function CanonicalForm(arguments: string, num: Numbers): string {
    match LoadArguments(arguments, num)
    case Value(v) => Dumps(SortKeys(v))
    case Malformed => arguments
  }

  /** The same arguments: equal as values, or the same malformed text. */
  ghost predicate SameArguments(a: string, b: string, num: Numbers) {
    match (LoadArguments(a, num), LoadArguments(b, num))
    case (Value(x), Value(y)) => Same(x, y)
    case (Malformed, Malformed) => a == b
    case _ => false
  }

  /** No arguments are the empty object, and a number is printed as Python
      prints it. */
  lemma EmptyAndNumbers(literal: string, num: Numbers)
    ensures LoadArguments("", num) == Value(Obj([])) && CanonicalForm("", num) == CanonicalForm("{}", num)
    ensures IsNumber(literal) ==> LoadArguments(literal, num) == Value(Num(num(literal)))
  {
    PrintedSpells(Obj([]), false);
    var t := Printed(Obj([]), false);
    assert t == Record([]);
    assert Tokens(Record([])) == ["{"] + [] + ["}"] == ["{", "}"];
    var gaps := (i: nat) => "";
    assert ["{", "}"][1..] == ["}"] && ["}"][1..] == [];
    assert Weave(["{", "}"], gaps, 0, "") == "{}";
    LoadsAnySpelling(t, Obj([]), gaps, "");
    assert Numbered(Obj([]), num) == Obj([]);
    if IsNumber(literal) { NumberLoads(literal); }
    hide Loads, Numbered;
  }

  lemma NumberLoads(literal: string)
    requires IsNumber(literal)
    ensures Loads(literal) == Value(Num(literal)) && literal != ""
  {
    var gaps := (i: nat) => "";
    assert Spells(Word(literal), Num(literal));
    LoadsAnySpelling(Word(literal), Num(literal), gaps, "");
    assert [literal][1..] == [];
    assert Weave([literal], gaps, 0, "") == "" + (literal + "") == literal;
    NumberChars(literal);
    hide Loads;
  }

  /** Keys are sorted by code point: of two of them in a row, the first begins
      the second, or is lower where they first differ. */
  ghost predicate Ascends(a: string, b: string) {
    exists n | 0 <= n <= |a| && n < |b| :: a[..n] == b[..n] && (n == |a| || a[n] < b[n])
  }

  lemma {:induction false} LessAscends(a: string, b: string)
    requires Less(a, b)
    ensures Ascends(a, b)
  {
    if |a| == 0 || a[0] < b[0] {
      assert a[..0] == b[..0];
    } else {
      LessAscends(a[1..], b[1..]);
      var n :| 0 <= n <= |a| - 1 && n < |b| - 1 && a[1..][..n] == b[1..][..n]
               && (n == |a| - 1 || a[1..][n] < b[1..][n]);
      assert a[..n + 1] == [a[0]] + a[1..][..n] && b[..n + 1] == [b[0]] + b[1..][..n];
      assert n + 1 <= |a| && n + 1 < |b| && a[..n + 1] == b[..n + 1] && (n + 1 == |a| || a[n + 1] < b[n + 1]);
    }
  }

  lemma KeysAscend(fields: seq<Field>)
    ensures var sorted := SortFields(fields);
            forall i, j | 0 <= i < j < |sorted| :: Ascends(sorted[i].key, sorted[j].key)
  {
    SortFieldsFinds(fields, "");
    var sorted := SortFields(fields);
    hide SortFields, Less, Ascends;
    forall i, j | 0 <= i < j < |sorted| ensures Ascends(sorted[i].key, sorted[j].key) {
      LessAscends(sorted[i].key, sorted[j].key);
    }
  }

  lemma LoadedPrintable(arguments: string, num: Numbers)
    requires PrintsNumbers(num) && LoadArguments(arguments, num).Value?
    ensures Printable(LoadArguments(arguments, num).value)
  {
    var v := Loads(if arguments == "" then "{}" else arguments).value;
    NumberedPrintable(v, num);
  }

  lemma CanonicalLoads(arguments: string, num: Numbers)
    requires PrintsNumbers(num) && LoadArguments(arguments, num).Value?
    ensures Loads(CanonicalForm(arguments, num)) == Value(SortKeys(LoadArguments(arguments, num).value))
    ensures CanonicalForm(arguments, num) != ""
  {
    var v := LoadArguments(arguments, num).value;
    LoadedPrintable(arguments, num);
    hide LoadArguments, SortKeys, Dumps, Printable;
    SortKeysPrintable(v);
    LoadsDumps(SortKeys(v));
    assert Loads("") == Malformed;
  }

  /** An unreadable text is not the form of a readable one. */
  lemma CanonicalKeepsKind(a: string, b: string, num: Numbers)
    requires PrintsNumbers(num) && LoadArguments(a, num).Malformed? && LoadArguments(b, num).Value?
    ensures CanonicalForm(a, num) != CanonicalForm(b, num)
  {
    CanonicalLoads(b, num);
    hide SortKeys, Dumps;
  }

  /** Two calls' arguments have one canonical form exactly when they are the
      same arguments. */
  lemma CanonicalDecidesSameness(a: string, b: string, num: Numbers)
    requires PrintsNumbers(num)
    ensures CanonicalForm(a, num) == CanonicalForm(b, num) <==> SameArguments(a, b, num)
  {
    hide LoadArguments, Same, SortKeys, Dumps, Loads;
    match (LoadArguments(a, num), LoadArguments(b, num)) {
      case (Value(x), Value(y)) =>
        CanonicalLoads(a, num);
        CanonicalLoads(b, num);
        SameSortsEqual(x, y);
      case (Malformed, Value(_)) => CanonicalKeepsKind(a, b, num);
      case (Value(_), Malformed) => CanonicalKeepsKind(b, a, num);
      case (Malformed, Malformed) =>
    }
  }

  /** However a model spaces and orders the arguments' text, and writes its
      numbers and the characters of its strings, the canonical form is the
      same. */
  lemma SpacingAndKeyOrderIgnored(v: Json, w: Json, t: Text, u: Text,
                                  gaps: nat -> string, gaps': nat -> string, end: string, end': string, num: Numbers)
    requires Spells(t, v) && Spells(u, w) && Same(Numbered(v, num), Numbered(w, num))
    requires Spacing(gaps) && Spacing(gaps') && Blank(end) && Blank(end')
    ensures CanonicalForm(Weave(Tokens(t), gaps, 0, end), num) == CanonicalForm(Weave(Tokens(u), gaps', 0, end'), num)
  {
    hide Same, SortKeys, Weave, Tokens, Spells, Dumps, Numbered;
    LoadsAnySpelling(t, v, gaps, end);
    LoadsAnySpelling(u, w, gaps', end');
    assert Loads("") == Malformed;
    SameSortsEqual(Numbered(v, num), Numbered(w, num));
  }
}
