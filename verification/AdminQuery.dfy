/** The admin API's queries: filter, stable sort, page. */
module AdminQuery {
  import opened Prelude

  const DEFAULT_QUERY_LIMIT: nat := 50
  const MAX_QUERY_LIMIT: nat := 500
  const MAX_FILTER_CRITERIA: nat := 16

  /** A JSON number: 7 and 7.0 are different values, print differently, and compare as equal. */
  datatype Number = Whole(i: int) | Float(r: real)

  /** A JSON value. A field that is missing counts as null. */
  datatype Val = Null | Bool(b: bool) | Num(n: Number) | Str(s: string) | Composite(text: string)

  type Row = map<string, Val>

  function Key(row: Row, field: string): Val {
    if field in row then row[field] else Null
  }

  // ---- Comparing ----

  /** Negative, zero or positive: by code points, as Rust compares strings. */
  function CompareText(a: string, b: string): int {
    if a == "" then (if b == "" then 0 else -1)
    else if b == "" then 1
    else if a[0] != b[0] then (if a[0] < b[0] then -1 else 1)
    else CompareText(a[1..], b[1..])
  }

  function Size(n: Number): real {
    match n
    case Whole(i) => i as real
    case Float(r) => r
  }

  function Compare(a: Val, b: Val): int {
    match (a, b)
    case (Num(x), Num(y)) => if Size(x) < Size(y) then -1 else if Size(x) > Size(y) then 1 else 0
    case (Str(x), Str(y)) => CompareText(x, y)
    case (Bool(x), Bool(y)) => if x == y then 0 else if y then -1 else 1
    case (Null, Null) => 0
    case (Null, _) => -1
    case (_, Null) => 1
    case _ => 0
  }

  /** Where two texts part: one ends, or a character is smaller. */
  ghost predicate PartsBelow(a: string, b: string, k: nat) {
    && k <= |a| && k < |b| && (forall i :: 0 <= i < k ==> a[i] == b[i])
    && (k == |a| || a[k] < b[k])
  }

  /** Text compares as in a dictionary. */
  lemma {:induction false} TextMeaning(a: string, b: string)
    ensures CompareText(a, b) < 0 <==> exists k :: PartsBelow(a, b, k)
  {
    if a == "" {
      assert b != "" ==> PartsBelow(a, b, 0);
    } else if b == "" {
    } else if a[0] != b[0] {
      if a[0] < b[0] {
        assert PartsBelow(a, b, 0);
      } else {
        assert forall k: nat :: !PartsBelow(a, b, k);
      }
    } else {
      TextMeaning(a[1..], b[1..]);
      if k: nat :| PartsBelow(a[1..], b[1..], k) {
        TextLonger(a, b, k);
      }
      if k: nat :| PartsBelow(a, b, k) {
        assert k > 0;
        TextShorter(a, b, k - 1);
      }
    }
  }

  lemma TextLonger(a: string, b: string, k: nat)
    requires a != "" && b != "" && a[0] == b[0] && PartsBelow(a[1..], b[1..], k)
    ensures PartsBelow(a, b, k + 1)
  {
    forall i | 0 <= i < k + 1
      ensures a[i] == b[i]
    {
      assert i > 0 ==> a[i] == a[1..][i - 1] && b[i] == b[1..][i - 1];
    }
  }

  lemma TextShorter(a: string, b: string, k: nat)
    requires a != "" && b != "" && a[0] == b[0] && PartsBelow(a, b, k + 1)
    ensures PartsBelow(a[1..], b[1..], k)
  {
    assert forall i :: 0 <= i < k ==> a[1..][i] == a[i + 1] && b[1..][i] == b[i + 1];
  }

  /** Numbers compare by size, false before true, text as in a dictionary, and null before everything else. */
  lemma ComparisonMeaning(a: Val, b: Val)
    ensures a.Num? && b.Num? ==> (Compare(a, b) < 0 <==> Size(a.n) < Size(b.n))
    ensures a.Bool? && b.Bool? ==> (Compare(a, b) < 0 <==> !a.b && b.b)
    ensures a.Str? && b.Str? ==> (Compare(a, b) < 0 <==> exists k :: PartsBelow(a.s, b.s, k))
    ensures a.Null? ==> (Compare(a, b) < 0 <==> !b.Null?)
    ensures !a.Null? && !b.Null? && !SameKind(a, b) ==> Compare(a, b) == 0
  {
    if a.Str? && b.Str? {
      TextMeaning(a.s, b.s);
    }
  }

  predicate SameKind(a: Val, b: Val) {
    || (a.Num? && b.Num?) || (a.Str? && b.Str?) || (a.Bool? && b.Bool?) || (a.Composite? && b.Composite?)
  }

  predicate Comparable(a: Val, b: Val) {
    a.Null? || b.Null? || SameKind(a, b)
  }

  lemma {:induction false} TextOrder(a: string, b: string)
    ensures CompareText(a, b) == -CompareText(b, a)
    ensures CompareText(a, b) == 0 <==> a == b
  {
    if a != "" && b != "" && a[0] == b[0] {
      TextOrder(a[1..], b[1..]);
      assert a == [a[0]] + a[1..] && b == [b[0]] + b[1..];
    }
  }

  lemma {:induction false} TextTransitive(a: string, b: string, c: string)
    requires CompareText(a, b) <= 0 && CompareText(b, c) <= 0
    ensures CompareText(a, c) <= 0
  {
    if a != "" && b != "" && c != "" && a[0] == b[0] == c[0] {
      TextTransitive(a[1..], b[1..], c[1..]);
    }
  }

  /** Swapping the sides reverses the answer, whatever the kinds. */
  lemma Reverses(a: Val, b: Val)
    ensures Compare(a, b) == -Compare(b, a)
  {
    if a.Str? && b.Str? {
      TextOrder(a.s, b.s);
    }
  }

  /** Values of one kind, or null, are totally preordered with null least. */
  lemma OneKindIsPreordered(a: Val, b: Val, c: Val)
    requires Comparable(a, b) && Comparable(b, c) && Comparable(a, c)
    ensures Compare(a, b) == -Compare(b, a)
    ensures Compare(a, b) <= 0 && Compare(b, c) <= 0 ==> Compare(a, c) <= 0
    ensures a.Null? ==> Compare(a, b) <= 0 && (Compare(a, b) == 0 <==> b.Null?)
  {
    Reverses(a, b);
    if a.Str? && b.Str? && c.Str? && CompareText(a.s, b.s) <= 0 && CompareText(b.s, c.s) <= 0 {
      TextTransitive(a.s, b.s, c.s);
    }
  }

  ghost predicate Transitive(vals: set<Val>) {
    forall a, b, c :: a in vals && b in vals && c in vals && Compare(a, b) <= 0 && Compare(b, c) <= 0 ==>
      Compare(a, c) <= 0
  }

  predicate Clash(a: Val, b: Val, c: Val) {
    Compare(a, b) < 0 && !a.Null? && !c.Null? && !SameKind(a, c)
  }

  /** Two unequal values of one kind, and a third of another. */
  ghost predicate Mixed(vals: set<Val>) {
    exists a, b, c :: a in vals && b in vals && c in vals && Clash(a, b, c)
  }

  /** Across kinds the comparison is not transitive: everything of another kind is "equal". */
  lemma NotTransitiveAcrossKinds()
    ensures var one, two := Num(Whole(1)), Num(Whole(2));
      Compare(two, Str("a")) == 0 && Compare(Str("a"), one) == 0 && Compare(two, one) > 0
  {
  }

  lemma BreaksTransitivity(a: Val, b: Val, c: Val)
    requires Clash(a, b, c)
    ensures Compare(b, c) <= 0 && Compare(c, a) <= 0 && Compare(b, a) > 0
  {
    Reverses(a, b);
  }

  /** It is transitive on a set of values exactly when no two that differ meet a third of another kind. */
  lemma TransitiveUnlessMixed(vals: set<Val>)
    ensures Transitive(vals) <==> !Mixed(vals)
  {
    if Mixed(vals) {
      var a, b, c :| a in vals && b in vals && c in vals && Clash(a, b, c);
      BreaksTransitivity(a, b, c);
    } else {
      forall a, b, c | a in vals && b in vals && c in vals && Compare(a, b) <= 0 && Compare(b, c) <= 0
        ensures Compare(a, c) <= 0
      {
        TransitiveHere(vals, a, b, c);
      }
    }
  }

  lemma TransitiveHere(vals: set<Val>, a: Val, b: Val, c: Val)
    requires !Mixed(vals) && a in vals && b in vals && c in vals && Compare(a, b) <= 0 && Compare(b, c) <= 0
    ensures Compare(a, c) <= 0
  {
    if Comparable(a, b) && Comparable(b, c) && Comparable(a, c) {
      OneKindIsPreordered(a, b, c);
    } else {
      Reverses(a, c);
      assert !Clash(c, a, b);
    }
  }

  // ---- Sorting ----

  /** The order asked for: descending is the reverse comparison. */
  function Ordered(field: string, descending: bool, a: Row, b: Row): int {
    var c := Compare(Key(a, field), Key(b, field));
    if descending then -c else c
  }

  /** Puts a row after every row it is not strictly before. */
  function Placed(field: string, descending: bool, rows: seq<Row>, x: Row): seq<Row> {
    if rows == [] || Ordered(field, descending, x, rows[|rows| - 1]) >= 0 then
      rows + [x]
    else
      Placed(field, descending, rows[..|rows| - 1], x) + [rows[|rows| - 1]]
  }

  function Sorted(field: string, descending: bool, rows: seq<Row>): seq<Row> {
    if rows == [] then []
    else Placed(field, descending, Sorted(field, descending, rows[..|rows| - 1]), rows[|rows| - 1])
  }

  ghost predicate IsSorted(field: string, descending: bool, rows: seq<Row>) {
    forall i, j :: 0 <= i < j < |rows| ==> Ordered(field, descending, rows[i], rows[j]) <= 0
  }

  /** Every row's value for the field is null or of the kind of `like`. */
  ghost predicate OneKind(field: string, rows: seq<Row>, like: Val) {
    !like.Null? && forall i :: 0 <= i < |rows| ==> Key(rows[i], field).Null? || SameKind(Key(rows[i], field), like)
  }

  /** The rows whose key equals `v`, in order. */
  function WithKey(field: string, rows: seq<Row>, v: Val): seq<Row> {
    if rows == [] then []
    else WithKey(field, rows[..|rows| - 1], v)
         + if Compare(Key(rows[|rows| - 1], field), v) == 0 then [rows[|rows| - 1]] else []
  }

  /** Sorted, and rows with equal keys stand as they stood. */
  ghost predicate StableSortOf(field: string, descending: bool, rows: seq<Row>, r: seq<Row>) {
    && IsSorted(field, descending, r)
    && multiset(r) == multiset(rows)
    && forall i :: 0 <= i < |rows| ==>
         WithKey(field, r, Key(rows[i], field)) == WithKey(field, rows, Key(rows[i], field))
  }

  lemma PreorderedRows(field: string, descending: bool, like: Val, a: Row, b: Row, c: Row)
    requires OneKind(field, [a, b, c], like)
    ensures Ordered(field, descending, a, b) == -Ordered(field, descending, b, a)
    ensures Ordered(field, descending, a, b) <= 0 && Ordered(field, descending, b, c) <= 0 ==>
      Ordered(field, descending, a, c) <= 0
  {
    assert [a, b, c][0] == a && [a, b, c][1] == b && [a, b, c][2] == c;
    OneKindIsPreordered(Key(a, field), Key(b, field), Key(c, field));
    OneKindIsPreordered(Key(c, field), Key(b, field), Key(a, field));
    Reverses(Key(b, field), Key(c, field));
    Reverses(Key(a, field), Key(c, field));
  }

  lemma {:induction false} PlacedBag(field: string, descending: bool, rows: seq<Row>, x: Row)
    ensures multiset(Placed(field, descending, rows, x)) == multiset(rows) + multiset{x}
    decreases |rows|
  {
    if rows != [] && Ordered(field, descending, x, rows[|rows| - 1]) < 0 {
      var front, last := rows[..|rows| - 1], rows[|rows| - 1];
      PlacedBag(field, descending, front, x);
      assert rows == front + [last];
    }
  }

  lemma {:induction false} PlacedSorted(field: string, descending: bool, rows: seq<Row>, x: Row, like: Val)
    requires OneKind(field, rows + [x], like) && IsSorted(field, descending, rows)
    ensures IsSorted(field, descending, Placed(field, descending, rows, x))
    decreases |rows|
  {
    assert (rows + [x])[|rows|] == x;
    assert forall i :: 0 <= i < |rows| ==> (rows + [x])[i] == rows[i];
    if rows != [] {
      var front, last := rows[..|rows| - 1], rows[|rows| - 1];
      if Ordered(field, descending, x, last) >= 0 {
        forall i | 0 <= i < |rows|
          ensures Ordered(field, descending, rows[i], x) <= 0
        {
          PreorderedRows(field, descending, like, rows[i], last, x);
          PreorderedRows(field, descending, like, last, x, x);
          PreorderedRows(field, descending, like, last, last, last);
        }
      } else {
        assert forall i :: 0 <= i < |front + [x]| ==> (front + [x])[i] == if i < |front| then rows[i] else x;
        PlacedSorted(field, descending, front, x, like);
        PlacedBag(field, descending, front, x);
        var p := Placed(field, descending, front, x);
        forall i | 0 <= i < |p|
          ensures Ordered(field, descending, p[i], last) <= 0
        {
          PlacedFrom(front, x, p, i);
        }
      }
    }
  }

  lemma PlacedFrom(front: seq<Row>, x: Row, p: seq<Row>, i: nat)
    requires multiset(p) == multiset(front) + multiset{x} && i < |p|
    ensures p[i] == x || p[i] in front
  {
    assert p[i] in multiset(p);
  }

  lemma {:induction false} PlacedKeys(field: string, descending: bool, rows: seq<Row>, x: Row, like: Val, v: Val)
    requires OneKind(field, rows + [x], like) && (v.Null? || SameKind(v, like))
    ensures WithKey(field, Placed(field, descending, rows, x), v)
      == WithKey(field, rows, v) + if Compare(Key(x, field), v) == 0 then [x] else []
    decreases |rows|
  {
    if rows != [] && Ordered(field, descending, x, rows[|rows| - 1]) < 0 {
      var front, last := rows[..|rows| - 1], rows[|rows| - 1];
      OneKindFront(field, rows, x, like);
      PlacedKeys(field, descending, front, x, like, v);
      NotBothEqual(Key(x, field), Key(last, field), v, like);
      OvertakenKeys(field, Placed(field, descending, front, x), front, x, last, v);
      assert rows == front + [last];
    } else {
      KeyLast(field, rows, x, v);
    }
  }

  lemma OneKindFront(field: string, rows: seq<Row>, x: Row, like: Val)
    requires OneKind(field, rows + [x], like) && rows != []
    ensures OneKind(field, rows[..|rows| - 1] + [x], like)
    ensures Key(x, field).Null? || SameKind(Key(x, field), like)
    ensures Key(rows[|rows| - 1], field).Null? || SameKind(Key(rows[|rows| - 1], field), like)
  {
    var all, less := rows + [x], rows[..|rows| - 1] + [x];
    assert forall i :: 0 <= i < |less| ==> less[i] == all[if i < |rows| - 1 then i else i + 1];
    assert all[|rows|] == x && all[|rows| - 1] == rows[|rows| - 1];
  }

  lemma OvertakenKeys(field: string, p: seq<Row>, front: seq<Row>, x: Row, last: Row, v: Val)
    requires WithKey(field, p, v) == WithKey(field, front, v) + if Compare(Key(x, field), v) == 0 then [x] else []
    requires !(Compare(Key(x, field), v) == 0 && Compare(Key(last, field), v) == 0)
    ensures WithKey(field, p + [last], v)
      == WithKey(field, front + [last], v) + if Compare(Key(x, field), v) == 0 then [x] else []
  {
    KeyLast(field, p, last, v);
    KeyLast(field, front, last, v);
  }

  lemma KeyLast(field: string, front: seq<Row>, last: Row, v: Val)
    ensures WithKey(field, front + [last], v)
      == WithKey(field, front, v) + if Compare(Key(last, field), v) == 0 then [last] else []
  {
    assert (front + [last])[..|front|] == front;
  }

  /** Two values that differ cannot both equal a third. */
  lemma NotBothEqual(a: Val, b: Val, v: Val, like: Val)
    requires (a.Null? || SameKind(a, like)) && (b.Null? || SameKind(b, like)) && Compare(a, b) != 0
    ensures !(Compare(a, v) == 0 && Compare(b, v) == 0 && Comparable(a, v) && Comparable(b, v))
  {
    Reverses(a, b);
    Reverses(a, v);
    Reverses(b, v);
    if Comparable(a, v) && Comparable(b, v) {
      OneKindIsPreordered(a, v, b);
      OneKindIsPreordered(b, v, a);
    }
  }

  /** On a field of one kind, or null, sorting is a stable sort, ascending or descending. */
  lemma {:induction false} SortedIsStable(field: string, descending: bool, rows: seq<Row>, like: Val)
    requires OneKind(field, rows, like)
    ensures StableSortOf(field, descending, rows, Sorted(field, descending, rows))
  {
    SortedIsSorted(field, descending, rows, like);
    forall i | 0 <= i < |rows|
      ensures WithKey(field, Sorted(field, descending, rows), Key(rows[i], field))
        == WithKey(field, rows, Key(rows[i], field))
    {
      SortedKeys(field, descending, rows, like, Key(rows[i], field));
    }
  }

  lemma {:induction false} SortedBag(field: string, descending: bool, rows: seq<Row>)
    ensures multiset(Sorted(field, descending, rows)) == multiset(rows)
    decreases |rows|
  {
    if rows != [] {
      var front, last := rows[..|rows| - 1], rows[|rows| - 1];
      SortedBag(field, descending, front);
      PlacedBag(field, descending, Sorted(field, descending, front), last);
      assert rows == front + [last];
    }
  }

  lemma OneKindMoves(field: string, a: seq<Row>, b: seq<Row>, x: Row, like: Val)
    requires OneKind(field, b, like) && OneKind(field, [x], like) && multiset(a) == multiset(b)
    ensures OneKind(field, a + [x], like)
  {
    SameBag(a, b);
    assert [x][0] == x;
    forall i | 0 <= i < |a + [x]|
      ensures Key((a + [x])[i], field).Null? || SameKind(Key((a + [x])[i], field), like)
    {
      if i < |a| {
        assert a[i] in b;
      }
    }
  }

  lemma OneKindSplits(field: string, rows: seq<Row>, like: Val)
    requires OneKind(field, rows, like) && rows != []
    ensures OneKind(field, rows[..|rows| - 1], like) && OneKind(field, [rows[|rows| - 1]], like)
  {
  }

  lemma {:induction false} SortedIsSorted(field: string, descending: bool, rows: seq<Row>, like: Val)
    requires OneKind(field, rows, like)
    ensures IsSorted(field, descending, Sorted(field, descending, rows))
    ensures multiset(Sorted(field, descending, rows)) == multiset(rows)
    decreases |rows|
  {
    SortedBag(field, descending, rows);
    if rows != [] {
      var front, last := rows[..|rows| - 1], rows[|rows| - 1];
      OneKindSplits(field, rows, like);
      SortedIsSorted(field, descending, front, like);
      OneKindMoves(field, Sorted(field, descending, front), front, last, like);
      PlacedSorted(field, descending, Sorted(field, descending, front), last, like);
    }
  }

  lemma {:induction false} SortedKeys(field: string, descending: bool, rows: seq<Row>, like: Val, v: Val)
    requires OneKind(field, rows, like) && (v.Null? || SameKind(v, like))
    ensures WithKey(field, Sorted(field, descending, rows), v) == WithKey(field, rows, v)
    decreases |rows|
  {
    if rows != [] {
      var front, last := rows[..|rows| - 1], rows[|rows| - 1];
      OneKindSplits(field, rows, like);
      SortedKeys(field, descending, front, like, v);
      SortedBag(field, descending, front);
      OneKindMoves(field, Sorted(field, descending, front), front, last, like);
      PlacedKeys(field, descending, Sorted(field, descending, front), last, like, v);
    }
  }

  /** There is only one stable sort, so it does not matter which algorithm finds it. */
  lemma {:induction false} StableSortIsUnique(field: string, descending: bool, rows: seq<Row>, like: Val, a: seq<Row>,
                                              b: seq<Row>)
    requires OneKind(field, rows, like)
    requires StableSortOf(field, descending, rows, a) && StableSortOf(field, descending, rows, b)
    ensures a == b
  {
    SameBag(a, rows);
    SameBag(b, rows);
    assert OneKind(field, a, like) && OneKind(field, b, like) by {
      assert forall i :: 0 <= i < |a| ==> a[i] in rows;
      assert forall i :: 0 <= i < |b| ==> b[i] in rows;
    }
    forall v
      ensures AgreeOn(field, a, b, v)
    {
      if HasKey(field, a, v) || HasKey(field, b, v) {
        var row :| (row in a || row in b) && Key(row, field) == v;
        var i := Position(rows, row);
        assert WithKey(field, a, Key(rows[i], field)) == WithKey(field, rows, Key(rows[i], field));
      }
    }
    SameByKeys(field, descending, like, a, b);
  }

  ghost predicate HasKey(field: string, rows: seq<Row>, v: Val) {
    exists row :: row in rows && Key(row, field) == v
  }

  ghost predicate AgreeOn(field: string, a: seq<Row>, b: seq<Row>, v: Val) {
    HasKey(field, a, v) || HasKey(field, b, v) ==> WithKey(field, a, v) == WithKey(field, b, v)
  }

  ghost predicate Agree(field: string, a: seq<Row>, b: seq<Row>) {
    forall v :: AgreeOn(field, a, b, v)
  }

  /** Two sorted lists that agree key by key agree. */
  lemma {:induction false} SameByKeys(field: string, descending: bool, like: Val, a: seq<Row>, b: seq<Row>)
    requires OneKind(field, a, like) && OneKind(field, b, like)
    requires IsSorted(field, descending, a) && IsSorted(field, descending, b)
    requires Agree(field, a, b)
    ensures a == b
    decreases |a|
  {
    BothEmpty(field, a, b);
    if a != [] {
      LastRowsAgree(field, descending, like, a, b);
      var fa, fb, last := a[..|a| - 1], b[..|b| - 1], a[|a| - 1];
      assert a == fa + [last] && b == fb + [last];
      forall v
        ensures AgreeOn(field, fa, fb, v)
      {
        assert AgreeOn(field, a, b, v);
        FrontsAgreeOn(field, fa, fb, last, v);
      }
      OneKindSplits(field, a, like);
      OneKindSplits(field, b, like);
      SameByKeys(field, descending, like, fa, fb);
    }
  }

  lemma BothEmpty(field: string, a: seq<Row>, b: seq<Row>)
    requires Agree(field, a, b)
    ensures a == [] <==> b == []
  {
    if a != [] {
      EndsWithKey(field, a);
      assert HasKey(field, a, Key(a[|a| - 1], field));
      assert AgreeOn(field, a, b, Key(a[|a| - 1], field));
    }
    if b != [] {
      EndsWithKey(field, b);
      assert HasKey(field, b, Key(b[|b| - 1], field));
      assert AgreeOn(field, a, b, Key(b[|b| - 1], field));
    }
  }

  lemma FrontsAgreeOn(field: string, fa: seq<Row>, fb: seq<Row>, last: Row, v: Val)
    requires AgreeOn(field, fa + [last], fb + [last], v)
    ensures AgreeOn(field, fa, fb, v)
  {
    if HasKey(field, fa, v) || HasKey(field, fb, v) {
      var row :| (row in fa || row in fb) && Key(row, field) == v;
      assert row in fa + [last] || row in fb + [last];
      KeyLast(field, fa, last, v);
      KeyLast(field, fb, last, v);
      var tail := if Compare(Key(last, field), v) == 0 then [last] else [];
      FrontsEqual(WithKey(field, fa, v), WithKey(field, fb, v), tail);
    }
  }

  lemma FrontsEqual(a: seq<Row>, b: seq<Row>, tail: seq<Row>)
    requires a + tail == b + tail
    ensures a == b
  {
    assert |a| == |b|;
    assert a == (a + tail)[..|a|] && b == (b + tail)[..|b|];
  }

  lemma EndsWithKey(field: string, rows: seq<Row>)
    requires rows != []
    ensures var v := Key(rows[|rows| - 1], field);
      WithKey(field, rows, v) != [] && WithKey(field, rows, v)[|WithKey(field, rows, v)| - 1] == rows[|rows| - 1]
  {
    var v := Key(rows[|rows| - 1], field);
    Reverses(v, v);
  }

  /** A row picked by key is a row. */
  lemma {:induction false} WithKeyAre(field: string, rows: seq<Row>, v: Val)
    ensures forall row :: row in WithKey(field, rows, v) ==> row in rows && Compare(Key(row, field), v) == 0
    decreases |rows|
  {
    if rows != [] {
      WithKeyAre(field, rows[..|rows| - 1], v);
    }
  }

  lemma LastRowsAgree(field: string, descending: bool, like: Val, a: seq<Row>, b: seq<Row>)
    requires OneKind(field, a, like) && OneKind(field, b, like) && a != [] && b != []
    requires IsSorted(field, descending, a) && IsSorted(field, descending, b)
    requires Agree(field, a, b)
    ensures a[|a| - 1] == b[|b| - 1]
  {
    var x, y := a[|a| - 1], b[|b| - 1];
    var u, v := Key(x, field), Key(y, field);
    assert HasKey(field, a, u) && HasKey(field, b, v);
    assert AgreeOn(field, a, b, u) && AgreeOn(field, a, b, v);
    EndsWithKey(field, a);
    EndsWithKey(field, b);
    WithKeyAre(field, b, u);
    WithKeyAre(field, a, v);
    assert x in b && y in a;
    NothingAfterLast(field, descending, a, y);
    NothingAfterLast(field, descending, b, x);
    Reverses(u, v);
    assert Compare(u, v) == 0;
    // Both end the rows of one key class.
    SameClass(field, like, b, u, v);
  }

  lemma NothingAfterLast(field: string, descending: bool, rows: seq<Row>, y: Row)
    requires IsSorted(field, descending, rows) && y in rows
    ensures Ordered(field, descending, y, rows[|rows| - 1]) <= 0
  {
    var i := Position(rows, y);
    Reverses(Key(y, field), Key(y, field));
  }

  lemma {:induction false} SameClass(field: string, like: Val, rows: seq<Row>, u: Val, v: Val)
    requires OneKind(field, rows, like) && (u.Null? || SameKind(u, like)) && (v.Null? || SameKind(v, like))
    requires Compare(u, v) == 0
    ensures WithKey(field, rows, u) == WithKey(field, rows, v)
    decreases |rows|
  {
    if rows != [] {
      OneKindSplits(field, rows, like);
      SameClass(field, like, rows[..|rows| - 1], u, v);
      var k := Key(rows[|rows| - 1], field);
      Reverses(u, v);
      Reverses(k, u);
      Reverses(k, v);
      OneKindIsPreordered(k, u, v);
      OneKindIsPreordered(k, v, u);
      OneKindIsPreordered(v, u, k);
      OneKindIsPreordered(u, v, k);
    }
  }

  // ---- The query ----

  datatype Criterion = Criterion(left: string, operator: string, right: Val)

  datatype QuerySpec = QuerySpec(offset: Option<int>, limit: Option<int>, criteria: seq<Criterion>,
                                 sortField: Option<string>, sortOrder: Option<string>)

  /** How a number prints. */
  type Printer = Number -> string

  predicate OperandMatches(show: Printer, field: Val, operand: Val) {
    || field == operand
    || (field.Num? && operand.Str? && show(field.n) == operand.s)
    || (field.Bool? && operand.Str? && (if field.b then "true" else "false") == operand.s)
  }

  predicate Matches(show: Printer, row: Row, criteria: seq<Criterion>) {
    forall k :: 0 <= k < |criteria| ==> OperandMatches(show, Key(row, criteria[k].left), criteria[k].right)
  }

  function Matching(show: Printer, rows: seq<Row>, criteria: seq<Criterion>): seq<Row> {
    if rows == [] then []
    else Matching(show, rows[..|rows| - 1], criteria)
         + if Matches(show, rows[|rows| - 1], criteria) then [rows[|rows| - 1]] else []
  }

  function Upper(s: string): string {
    if s == "" then "" else [if 'a' <= s[0] <= 'z' then s[0] - 'a' + 'A' else s[0]] + Upper(s[1..])
  }

  /** The same letters as an upper-case word, in any case. */
  predicate Spells(s: string, word: string) {
    && |s| == |word|
    && forall i :: 0 <= i < |s| ==> s[i] == word[i] || ('A' <= word[i] <= 'Z' && s[i] == word[i] - 'A' + 'a')
  }

  lemma {:induction false} UpperSpells(s: string, word: string)
    requires forall i :: 0 <= i < |word| ==> 'A' <= word[i] <= 'Z'
    ensures Upper(s) == word <==> Spells(s, word)
    decreases |s|
  {
    if s != "" && word != "" {
      UpperSpells(s[1..], word[1..]);
      assert Upper(s)[1..] == Upper(s[1..]);
      assert word == [word[0]] + word[1..];
      assert Spells(s, word) <==> Spells([s[0]], [word[0]]) && Spells(s[1..], word[1..]) by {
        SpellsSplit(s, word);
      }
    }
  }

  lemma SpellsSplit(s: string, word: string)
    requires s != "" && word != ""
    ensures Spells(s, word) <==> Spells([s[0]], [word[0]]) && Spells(s[1..], word[1..])
  {
    if Spells([s[0]], [word[0]]) && Spells(s[1..], word[1..]) {
      forall i | 0 <= i < |s|
        ensures s[i] == word[i] || ('A' <= word[i] <= 'Z' && s[i] == word[i] - 'A' + 'a')
      {
        assert i == 0 ==> [s[0]][0] == s[0] && [word[0]][0] == word[0];
        assert i > 0 ==> s[i] == s[1..][i - 1] && word[i] == word[1..][i - 1];
      }
    }
    if Spells(s, word) {
      assert forall i :: 0 <= i < |s[1..]| ==> s[1..][i] == s[i + 1] && word[1..][i] == word[i + 1];
    }
  }

  /** ASC and DESC in any letter case, ascending when nothing is said, an error otherwise. */
  lemma DirectionMeaning(order: Option<string>)
    ensures Direction(order).None? <==> order.Some? && !Spells(order.value, "ASC") && !Spells(order.value, "DESC")
    ensures Direction(order) == Some(true) <==> order.Some? && Spells(order.value, "DESC")
  {
    if order.Some? {
      UpperSpells(order.value, "ASC");
      UpperSpells(order.value, "DESC");
      assert |"ASC"| != |"DESC"|;
    }
  }

  /** Ascending unless DESC is asked for; anything else is an error. */
  function Direction(order: Option<string>): Option<bool> {
    match order
    case None => Some(false)
    case Some(o) => if Upper(o) == "ASC" then Some(false) else if Upper(o) == "DESC" then Some(true) else None
  }

  predicate WellFormed(q: QuerySpec) {
    && (q.offset.Some? ==> q.offset.value >= 0) && (q.limit.Some? ==> q.limit.value >= 0)
    && Direction(q.sortOrder).Some?
    && |q.criteria| <= MAX_FILTER_CRITERIA
    && forall k :: 0 <= k < |q.criteria| ==> q.criteria[k].operator == "="
  }

  function Reversed(rows: seq<Row>): (r: seq<Row>)
    ensures |r| == |rows| && forall i :: 0 <= i < |rows| ==> r[i] == rows[|rows| - 1 - i]
  {
    if rows == [] then [] else [rows[|rows| - 1]] + Reversed(rows[..|rows| - 1])
  }

  /** The whole result, before paging. */
  function FullResult(show: Printer, q: QuerySpec, rows: seq<Row>): seq<Row>
    requires WellFormed(q)
  {
    var matched := Matching(show, rows, q.criteria);
    var descending := Direction(q.sortOrder).value;
    match q.sortField
    case Some(field) => Sorted(field, descending, matched)
    case None => if descending then Reversed(matched) else matched
  }

  function Page(rows: seq<Row>, offset: nat, limit: nat): seq<Row> {
    var from := if offset < |rows| then offset else |rows|;
    var to := if from + limit < |rows| then from + limit else |rows|;
    rows[from..to]
  }

  function Offset(q: QuerySpec): nat
    requires WellFormed(q)
  {
    if q.offset.Some? then q.offset.value else 0
  }

  function Limit(q: QuerySpec): nat
    requires WellFormed(q)
  {
    if q.limit.None? then DEFAULT_QUERY_LIMIT
    else if q.limit.value < MAX_QUERY_LIMIT then q.limit.value
    else MAX_QUERY_LIMIT
  }

  /** The rows from the offset on: at most 500, and 50 when no limit is given. */
  ghost predicate IsPageOf(q: QuerySpec, full: seq<Row>, page: seq<Row>)
    requires WellFormed(q)
  {
    var from: nat := if q.offset.Some? then q.offset.value else 0;
    var most := if q.limit.None? then 50 else if q.limit.value < 500 then q.limit.value else 500;
    && |page| == (if |full| <= from then 0 else if |full| - from < most then |full| - from else most)
    && forall i :: 0 <= i < |page| ==> page[i] == full[from + i]
  }

  lemma PageMeaning(q: QuerySpec, full: seq<Row>)
    requires WellFormed(q)
    ensures IsPageOf(q, full, Page(full, Offset(q), Limit(q)))
  {
  }

  method Apply(show: Printer, q: QuerySpec, rows: seq<Row>) returns (r: Option<seq<Row>>)
    ensures r.Some? <==> WellFormed(q)
    ensures r.Some? ==> r.value == Page(FullResult(show, q, rows), Offset(q), Limit(q))
    ensures r.Some? ==> IsPageOf(q, FullResult(show, q, rows), r.value)
  {
    if q.offset.Some? && q.offset.value < 0 {
      return None;
    }
    if q.limit.Some? && q.limit.value < 0 {
      return None;
    }
    var direction := Direction(q.sortOrder);
    if direction.None? || |q.criteria| > MAX_FILTER_CRITERIA {
      return None;
    }
    for k := 0 to |q.criteria|
      invariant forall i :: 0 <= i < k ==> q.criteria[i].operator == "="
    {
      if q.criteria[k].operator != "=" {
        return None;
      }
    }
    var matched: seq<Row> := [];
    for n := 0 to |rows|
      invariant matched == Matching(show, rows[..n], q.criteria)
    {
      assert rows[..n + 1][..n] == rows[..n];
      if Matches(show, rows[n], q.criteria) {
        matched := matched + [rows[n]];
      }
    }
    assert rows[..|rows|] == rows;
    if q.sortField.Some? {
      matched := SortRows(q.sortField.value, direction.value, matched);
    } else if direction.value {
      matched := Reversed(matched);
    }
    PageMeaning(q, matched);
    return Some(Page(matched, Offset(q), Limit(q)));
  }

  /** A stable sort in place, row by row. */
  method SortRows(field: string, descending: bool, rows: seq<Row>) returns (r: seq<Row>)
    ensures r == Sorted(field, descending, rows)
  {
    r := [];
    for n := 0 to |rows|
      invariant r == Sorted(field, descending, rows[..n])
    {
      assert rows[..n + 1][..n] == rows[..n];
      r := PlaceRow(field, descending, r, rows[n]);
    }
    assert rows[..|rows|] == rows;
  }

  method PlaceRow(field: string, descending: bool, rows: seq<Row>, x: Row) returns (r: seq<Row>)
    ensures r == Placed(field, descending, rows, x)
  {
    var at := |rows|;
    assert rows[..at] == rows && rows[at..] == [];
    while at > 0 && Ordered(field, descending, x, rows[at - 1]) < 0
      invariant 0 <= at <= |rows|
      invariant Placed(field, descending, rows[..at], x) + rows[at..] == Placed(field, descending, rows, x)
    {
      PlacedStep(field, descending, rows, at, x);
      at := at - 1;
    }
    r := rows[..at] + [x] + rows[at..];
  }

  lemma PlacedStep(field: string, descending: bool, rows: seq<Row>, at: nat, x: Row)
    requires 0 < at <= |rows| && Ordered(field, descending, x, rows[at - 1]) < 0
    ensures Placed(field, descending, rows[..at], x) + rows[at..]
      == Placed(field, descending, rows[..at - 1], x) + rows[at - 1..]
  {
    var p := Placed(field, descending, rows[..at - 1], x);
    assert rows[..at][..at - 1] == rows[..at - 1];
    assert (p + [rows[at - 1]]) + rows[at..] == p + rows[at - 1..];
  }

  /** Pages one after another, from any offset, until the result is used up. */
  function Pages(rows: seq<Row>, offset: nat, limit: nat): seq<Row>
    requires limit >= 1
    decreases |rows| - offset
  {
    if offset >= |rows| then [] else Page(rows, offset, limit) + Pages(rows, offset + limit, limit)
  }

  /** Consecutive pages of any size join up to the whole result: nothing is shown twice or left out. */
  lemma {:induction false} PagesJoin(rows: seq<Row>, offset: nat, limit: nat)
    requires limit >= 1
    ensures Pages(rows, offset, limit) == rows[if offset < |rows| then offset else |rows|..]
    decreases |rows| - offset
  {
    if offset < |rows| {
      PagesJoin(rows, offset + limit, limit);
    }
  }

  /** Filtering keeps order: what comes of one part stands before what comes of the next. */
  lemma {:induction false} MatchingInOrder(show: Printer, a: seq<Row>, b: seq<Row>, criteria: seq<Criterion>)
    ensures Matching(show, a + b, criteria) == Matching(show, a, criteria) + Matching(show, b, criteria)
    decreases |b|
  {
    if b == [] {
      assert a + b == a;
    } else {
      assert (a + b)[..|a + b| - 1] == a + b[..|b| - 1];
      MatchingInOrder(show, a, b[..|b| - 1], criteria);
    }
  }

  /** Filtering keeps the matching rows, each as often as it was there. */
  lemma {:induction false} MatchingAre(show: Printer, rows: seq<Row>, criteria: seq<Criterion>, row: Row)
    ensures multiset(Matching(show, rows, criteria))[row]
      == if Matches(show, row, criteria) then multiset(rows)[row] else 0
    decreases |rows|
  {
    if rows != [] {
      var front, last := rows[..|rows| - 1], rows[|rows| - 1];
      MatchingAre(show, front, criteria, row);
      assert rows == front + [last];
    }
  }

  /**
   Without a field to sort by, the full result is the matching rows as they stand, or, when DESC is asked
   for, from last to first.
   */
  lemma UnsortedMeaning(show: Printer, q: QuerySpec, rows: seq<Row>)
    requires WellFormed(q) && q.sortField.None?
    ensures var full, matching := FullResult(show, q, rows), Matching(show, rows, q.criteria);
      && |full| == |matching|
      && forall i :: 0 <= i < |full| ==>
           full[i] == matching[if q.sortOrder.Some? && Spells(q.sortOrder.value, "DESC") then |full| - 1 - i else i]
  {
    DirectionMeaning(q.sortOrder);
  }

  /** With one, keys never go down, or, when DESC is asked for, never up. */
  lemma SortedMeaning(show: Printer, q: QuerySpec, rows: seq<Row>, like: Val, i: nat, j: nat)
    requires WellFormed(q) && q.sortField.Some?
    requires OneKind(q.sortField.value, Matching(show, rows, q.criteria), like)
    requires i < j < |FullResult(show, q, rows)|
    ensures var full, field := FullResult(show, q, rows), q.sortField.value;
      if q.sortOrder.Some? && Spells(q.sortOrder.value, "DESC")
      then Compare(Key(full[i], field), Key(full[j], field)) >= 0
      else Compare(Key(full[i], field), Key(full[j], field)) <= 0
  {
    DirectionMeaning(q.sortOrder);
    SortedIsStable(q.sortField.value, Direction(q.sortOrder).value, Matching(show, rows, q.criteria), like);
  }

  /** How a scalar field prints. */
  function Printed(show: Printer, v: Val): Option<string> {
    match v
    case Num(n) => Some(show(n))
    case Bool(b) => Some(if b then "true" else "false")
    case _ => None
  }

  /** A row matches when each criterion's field is its operand, or prints as its operand, a string, reads. */
  lemma MatchesMeaning(show: Printer, row: Row, criteria: seq<Criterion>)
    ensures Matches(show, row, criteria) <==>
      forall k :: 0 <= k < |criteria| ==>
        var Criterion(left, _, right) := criteria[k];
        Key(row, left) == right || (right.Str? && Printed(show, Key(row, left)) == Some(right.s))
  {
  }

  /**
   What a query returns, on a field of one kind or null: a contiguous part of the one stable sort of
   exactly the matching rows.
   */
  lemma QueryMeaning(show: Printer, q: QuerySpec, rows: seq<Row>, like: Val)
    requires WellFormed(q) && q.sortField.Some?
    requires OneKind(q.sortField.value, Matching(show, rows, q.criteria), like)
    ensures forall r ::
      (StableSortOf(q.sortField.value, Direction(q.sortOrder).value, Matching(show, rows, q.criteria), r)
       <==> r == FullResult(show, q, rows))
  {
    var field, descending, matched := q.sortField.value, Direction(q.sortOrder).value, Matching(show, rows, q.criteria);
    SortedIsStable(field, descending, matched, like);
    forall r | StableSortOf(field, descending, matched, r)
      ensures r == Sorted(field, descending, matched)
    {
      StableSortIsUnique(field, descending, matched, like, r, Sorted(field, descending, matched));
    }
  }
}
