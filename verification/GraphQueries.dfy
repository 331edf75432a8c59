/** What the fixed queries find in a store that holds two logs of items. */
module GraphQueries {
  import opened Prelude
  import opened GraphModel

  // ---- Whose quad it is ----

  lemma HasOwns(p: Placed, q: Quad)
    requires Has(p, q)
    ensures p.node <= q.s <= p.node + |p.item.children|
  {
  }

  function Other(kind: Kind): Kind {
    if kind.BatchKind? then OfferKind else BatchKind
  }

  /** What it takes for a store to hold two logs, by name. */
  datatype Aspect = Tidy | NothingElse | Everything

  ghost predicate Shows(a: Aspect, quads: set<Quad>, kind: Kind, log: seq<Placed>, other: seq<Placed>) {
    match a
    case Tidy => LogOk(kind, log) && LogOk(Other(kind), other) && Separate(log, other)
    case NothingElse => forall q :: q in quads ==> In(log, q) || In(other, q)
    case Everything => forall q :: In(log, q) || In(other, q) ==> q in quads
  }

  /** The store holds the quads of the two logs and nothing else. */
  ghost predicate View(quads: set<Quad>, kind: Kind, log: seq<Placed>, other: seq<Placed>) {
    forall a: Aspect :: Shows(a, quads, kind, log, other)
  }

  lemma ViewMeans(quads: set<Quad>, kind: Kind, log: seq<Placed>, other: seq<Placed>)
    ensures View(quads, kind, log, other) <==>
      && LogOk(kind, log) && LogOk(Other(kind), other) && Separate(log, other)
      && forall q :: q in quads <==> In(log, q) || In(other, q)
  {
    if View(quads, kind, log, other) {
      assert Shows(Tidy, quads, kind, log, other);
      assert Shows(NothingElse, quads, kind, log, other) && Shows(Everything, quads, kind, log, other);
    }
  }

  lemma ViewAscends(quads: set<Quad>, kind: Kind, log: seq<Placed>, other: seq<Placed>)
    requires View(quads, kind, log, other)
    ensures Ascending(log)
  {
    assert Shows(Tidy, quads, kind, log, other);
  }

  lemma KindAt(quads: set<Quad>, kind: Kind, log: seq<Placed>, other: seq<Placed>, i: nat)
    requires View(quads, kind, log, other) && i < |log|
    ensures WellKinded(kind, log[i].item)
  {
    assert Shows(Tidy, quads, kind, log, other);
  }

  /** A quad on a node of an item is in the store exactly when it is that item's. */
  lemma OwnQuads(quads: set<Quad>, kind: Kind, log: seq<Placed>, other: seq<Placed>, i: nat, q: Quad)
    requires View(quads, kind, log, other) && i < |log|
    requires log[i].node <= q.s <= log[i].node + |log[i].item.children|
    ensures q in quads <==> Has(log[i], q)
  {
    ViewMeans(quads, kind, log, other);
    if Has(log[i], q) {
      assert In(log, q);
    }
    if In(log, q) {
      var j :| 0 <= j < |log| && Has(log[j], q);
      HasOwns(log[j], q);
      assert j == i;
    }
    assert forall j :: 0 <= j < |other| ==> Apart(log[i], other[j]) && !Has(other[j], q);
  }

  predicate HeadOnly(kind: Kind, p: Predicate) {
    if kind.BatchKind? then p == BatchId else p == OfferId
  }

  lemma ChildrenFit(kind: Kind, p: Placed, q: Quad)
    requires WellKinded(kind, p.item)
    ensures p.node < q.s <= p.node + |p.item.children| ==> Fits(kind, p.item.children[q.s - p.node - 1])
  {
  }

  /** A node with an identifier of a kind is the node of an item of that kind. */
  lemma HeadOwner(quads: set<Quad>, kind: Kind, log: seq<Placed>, other: seq<Placed>, q: Quad) returns (i: nat)
    requires View(quads, kind, log, other)
    requires q in quads && HeadOnly(kind, q.p)
    ensures i < |log| && log[i].node == q.s
  {
    ViewMeans(quads, kind, log, other);
    var kind' := Other(kind);
    assert !In(other, q) by {
      forall j | 0 <= j < |other|
        ensures !Has(other[j], q)
      {
        assert WellKinded(kind', other[j].item);
        ChildrenFit(kind', other[j], q);
      }
    }
    var j :| 0 <= j < |log| && Has(log[j], q);
    assert WellKinded(kind, log[j].item);
    ChildrenFit(kind, log[j], q);
    i := j;
  }

  // ---- The rows of an item ----

  function RowAt(p: Placed, k: nat): Row
    requires k < |p.item.children|
  {
    Row(p.node, p.order, p.item.head, Some(ChildRow(p.node + 1 + k, k, p.item.children[k])))
  }

  /** The rows of an item's first `n` children. */
  function ChildRows(p: Placed, n: nat): (rows: seq<Row>)
    requires n <= |p.item.children|
    ensures |rows| == n && forall k :: 0 <= k < n ==> rows[k] == RowAt(p, k)
  {
    if n == 0 then [] else ChildRows(p, n - 1) + [RowAt(p, n - 1)]
  }

  function ItemRows(p: Placed): seq<Row> {
    if p.item.children == [] then [Row(p.node, p.order, p.item.head, None)] else ChildRows(p, |p.item.children|)
  }

  function AllRows(log: seq<Placed>): seq<Row> {
    if log == [] then [] else AllRows(log[..|log| - 1]) + ItemRows(log[|log| - 1])
  }

  lemma ItemRowsAre(p: Placed, row: Row)
    ensures row in ItemRows(p) <==>
      && row.node == p.node && row.order == p.order && row.head == p.item.head
      && match row.child
         case None => p.item.children == []
         case Some(c) =>
           && c.order < |p.item.children|
           && c == ChildRow(p.node + 1 + c.order, c.order, p.item.children[c.order])
  {
    if p.item.children != [] {
      var rows := ChildRows(p, |p.item.children|);
      if row.child.Some? && row.child.value.order < |p.item.children| {
        assert rows[row.child.value.order] == RowAt(p, row.child.value.order);
      }
    }
  }

  ghost predicate RowOf(log: seq<Placed>, row: Row, i: nat) {
    i < |log| && row in ItemRows(log[i])
  }

  lemma {:induction false} RowsIncludeItem(log: seq<Placed>, row: Row, i: nat)
    requires RowOf(log, row, i)
    ensures row in AllRows(log)
    decreases |log|
  {
    var front, last := log[..|log| - 1], log[|log| - 1];
    if i < |front| {
      assert front[i] == log[i];
      RowsIncludeItem(front, row, i);
    }
    InConcat(AllRows(front), ItemRows(last), row);
  }

  lemma {:induction false} RowHasItem(log: seq<Placed>, row: Row) returns (i: nat)
    requires row in AllRows(log)
    ensures RowOf(log, row, i)
    decreases |log|
  {
    var front, last := log[..|log| - 1], log[|log| - 1];
    InConcat(AllRows(front), ItemRows(last), row);
    if row in ItemRows(last) {
      i := |log| - 1;
    } else {
      i := RowHasItem(front, row);
      assert front[i] == log[i];
    }
  }

  predicate RowAscending(rows: seq<Row>) {
    forall i, j :: 0 <= i < j < |rows| ==> RowLess(rows[i], rows[j])
  }

  lemma {:induction false} AllRowsAscend(log: seq<Placed>)
    requires Ascending(log)
    ensures RowAscending(AllRows(log))
    decreases |log|
  {
    if log != [] {
      var front, last := log[..|log| - 1], log[|log| - 1];
      AllRowsAscend(front);
      var a, b := AllRows(front), ItemRows(last);
      forall i, j | 0 <= i < j < |a + b|
        ensures RowLess((a + b)[i], (a + b)[j])
      {
        if i < |a| <= j {
          var k := RowHasItem(front, a[i]);
          ItemRowsAre(front[k], a[i]);
          ItemRowsAre(last, b[j - |a|]);
          assert log[k].order < last.order;
        }
      }
    }
  }

  /** Two strictly increasing lists of the same rows are the same list. */
  lemma {:induction false} SameRows(a: seq<Row>, b: seq<Row>)
    requires RowAscending(a) && NoDup(a) && NoDup(b) && RowSorted(b)
    requires Elems(a) == Elems(b)
    ensures a == b
    decreases |a|
  {
    if a == [] {
      assert b == [] by {
        assert forall i :: 0 <= i < |b| ==> b[i] in Elems(b);
      }
    } else {
      assert a[0] in Elems(b);
      LastRowsAgree(a, b);
      FrontsAgree(a, b);
      SameRows(a[..|a| - 1], b[..|b| - 1]);
      assert a == a[..|a| - 1] + [a[|a| - 1]] && b == b[..|b| - 1] + [b[|b| - 1]];
    }
  }

  lemma LastRowsAgree(a: seq<Row>, b: seq<Row>)
    requires RowAscending(a) && RowSorted(b) && a != [] && b != []
    requires Elems(a) == Elems(b)
    ensures a[|a| - 1] == b[|b| - 1]
  {
    var lastA, lastB := a[|a| - 1], b[|b| - 1];
    assert lastB in Elems(b) && lastA in Elems(a);
    var i := Position(a, lastB);
    var j := Position(b, lastA);
    assert i < |a| - 1 ==> RowLess(lastB, lastA);
    assert j < |b| - 1 ==> !RowLess(lastB, lastA);
  }

  // ---- The solutions are the rows of the log ----

  lemma HeadFound(quads: set<Quad>, kind: Kind, log: seq<Placed>, other: seq<Placed>, i: nat, order: nat, head: Head)
    requires View(quads, kind, log, other) && i < |log| && KindOf(head) == kind
    ensures HeadMatches(quads, log[i].node, order, head) <==> order == log[i].order && head == log[i].item.head
  {
    KindAt(quads, kind, log, other, i);
    var n := log[i].node;
    forall p, o
      ensures Quad(n, p, o) in quads <==> Has(log[i], Quad(n, p, o))
    {
      OwnQuads(quads, kind, log, other, i, Quad(n, p, o));
    }
    if kind.BatchKind? {
      OptionalHead(quads, log[i], HolderPid, log[i].item.head.holderPid, head.holderPid);
      OptionalHead(quads, log[i], RejectionReason, log[i].item.head.rejectionReason, head.rejectionReason);
    }
  }

  lemma OptionalHead(quads: set<Quad>, p: Placed, field: Predicate, stored: Option<string>, v: Option<string>)
    requires forall o :: Quad(p.node, field, o) in quads <==> Opt(stored, o)
    ensures Optionally(quads, p.node, field, v) <==> v == stored
  {
    if stored.Some? {
      assert Quad(p.node, field, Text(stored.value)) in quads;
    }
  }

  lemma ChildFound(quads: set<Quad>, kind: Kind, log: seq<Placed>, other: seq<Placed>, i: nat, c: ChildRow)
    requires View(quads, kind, log, other) && i < |log| && Fits(kind, c.child)
    ensures ChildMatches(quads, log[i].node, c) <==>
      && c.order < |log[i].item.children|
      && c == ChildRow(log[i].node + 1 + c.order, c.order, log[i].item.children[c.order])
  {
    KindAt(quads, kind, log, other, i);
    var p := log[i];
    OwnQuads(quads, kind, log, other, i, Quad(p.node, LinkOf(kind), Blank(c.node)));
    if p.node < c.node <= p.node + |p.item.children| {
      var k := c.node - p.node - 1;
      assert Fits(kind, p.item.children[k]);
      forall f, o
        ensures Quad(c.node, f, o) in quads <==> ChildHas(p.item.children[k], k, f, o)
      {
        OwnQuads(quads, kind, log, other, i, Quad(c.node, f, o));
      }
      if kind.OfferKind? {
        OptionalHead(quads, p.(node := c.node), CredentialType, p.item.children[k].offeredType, c.child.offeredType);
      }
    }
  }

  lemma SolutionsAre(quads: set<Quad>, kind: Kind, log: seq<Placed>, other: seq<Placed>, row: Row)
    requires View(quads, kind, log, other)
    ensures Solution(quads, kind, row) <==> row in AllRows(log)
  {
    if Solution(quads, kind, row) {
      var id := Quad(row.node, if kind.BatchKind? then BatchId else OfferId, Text(row.head.id));
      var i := HeadOwner(quads, kind, log, other, id);
      SolutionsOf(quads, kind, log, other, i, row);
      RowsIncludeItem(log, row, i);
    }
    if row in AllRows(log) {
      var i := RowHasItem(log, row);
      ItemRowsAre(log[i], row);
      KindAt(quads, kind, log, other, i);
      SolutionsOf(quads, kind, log, other, i, row);
    }
  }

  lemma SolutionsOf(quads: set<Quad>, kind: Kind, log: seq<Placed>, other: seq<Placed>, i: nat, row: Row)
    requires View(quads, kind, log, other) && i < |log| && row.node == log[i].node && KindOf(row.head) == kind
    ensures Solution(quads, kind, row) <==> row in ItemRows(log[i])
  {
    var p := log[i];
    KindAt(quads, kind, log, other, i);
    ItemRowsAre(p, row);
    HeadFound(quads, kind, log, other, i, row.order, row.head);
    match row.child
    case Some(c) =>
      if Fits(kind, c.child) {
        ChildFound(quads, kind, log, other, i, c);
      } else if c.order < |p.item.children| {
        assert Fits(kind, p.item.children[c.order]);
      }
    case None =>
      forall c: ChildRow | Fits(kind, c.child)
        ensures ChildMatches(quads, row.node, c) <==>
          && c.order < |p.item.children|
          && c == ChildRow(p.node + 1 + c.order, c.order, p.item.children[c.order])
      {
        ChildFound(quads, kind, log, other, i, c);
      }
      if p.item.children != [] {
        var c := ChildRow(p.node + 1, 0, p.item.children[0]);
        assert Fits(kind, c.child) && ChildMatches(quads, row.node, c);
      }
  }

  /** There is exactly one answer to the query, and it lists the rows of the log in order. */
  lemma AnswerIsTheRows(quads: set<Quad>, kind: Kind, log: seq<Placed>, other: seq<Placed>, rows: seq<Row>)
    requires View(quads, kind, log, other)
    ensures Answers(quads, kind, rows) <==> rows == AllRows(log)
  {
    ViewAscends(quads, kind, log, other);
    AllRowsAscend(log);
    forall row
      ensures Solution(quads, kind, row) <==> row in AllRows(log)
    {
      SolutionsAre(quads, kind, log, other, row);
    }
    if Answers(quads, kind, rows) {
      assert Elems(AllRows(log)) == Elems(rows);
      SameRows(AllRows(log), rows);
    }
  }

  // ---- Grouping ----

  /** One turn of the grouping loop: a new item when the node changes, then the child if there is one. */
  function Grouped(out: seq<(nat, Item)>, row: Row): seq<(nat, Item)> {
    var out' :=
      if out != [] && out[|out| - 1].0 == row.node then out else out + [(row.node, Item(row.head, []))];
    match row.child
    case None => out'
    case Some(c) =>
      var (node, item) := out'[|out'| - 1];
      out'[|out'| - 1 := (node, item.(children := item.children + [c.child]))]
  }

  function Group(rows: seq<Row>): seq<(nat, Item)> {
    if rows == [] then [] else Grouped(Group(rows[..|rows| - 1]), rows[|rows| - 1])
  }

  function Tagged(log: seq<Placed>): (t: seq<(nat, Item)>)
    ensures |t| == |log| && forall i :: 0 <= i < |log| ==> t[i] == (log[i].node, log[i].item)
  {
    if log == [] then [] else Tagged(log[..|log| - 1]) + [(log[|log| - 1].node, log[|log| - 1].item)]
  }

  lemma {:induction false} GroupChildren(before: seq<Row>, out: seq<(nat, Item)>, p: Placed, n: nat)
    requires n <= |p.item.children| && 0 < n
    requires Group(before) == out && (out == [] || out[|out| - 1].0 != p.node)
    ensures Group(before + ChildRows(p, n)) == out + [(p.node, Item(p.item.head, p.item.children[..n]))]
    decreases n
  {
    var rows := before + ChildRows(p, n - 1);
    assert before + ChildRows(p, n) == rows + [RowAt(p, n - 1)];
    GroupLast(rows, RowAt(p, n - 1));
    if n == 1 {
      assert rows == before;
      FirstChild(out, p);
    } else {
      GroupChildren(before, out, p, n - 1);
      NextChild(out, p, n - 1);
    }
  }

  lemma FirstChild(out: seq<(nat, Item)>, p: Placed)
    requires p.item.children != [] && (out == [] || out[|out| - 1].0 != p.node)
    ensures Grouped(out, RowAt(p, 0)) == out + [(p.node, Item(p.item.head, p.item.children[..1]))]
  {
    assert [] + [p.item.children[0]] == p.item.children[..1];
  }

  lemma NextChild(out: seq<(nat, Item)>, p: Placed, n: nat)
    requires n < |p.item.children|
    ensures Grouped(out + [(p.node, Item(p.item.head, p.item.children[..n]))], RowAt(p, n))
      == out + [(p.node, Item(p.item.head, p.item.children[..n + 1]))]
  {
    assert p.item.children[..n] + [p.item.children[n]] == p.item.children[..n + 1];
  }

  lemma GroupLast(rows: seq<Row>, row: Row)
    ensures Group(rows + [row]) == Grouped(Group(rows), row)
  {
    assert (rows + [row])[..|rows|] == rows;
  }

  /** Grouping the rows of a log gives the log back, item by item. */
  lemma {:induction false} GroupAllRows(log: seq<Placed>)
    requires Ascending(log)
    ensures Group(AllRows(log)) == Tagged(log)
    decreases |log|
  {
    if log != [] {
      var front, p := log[..|log| - 1], log[|log| - 1];
      GroupAllRows(front);
      var before, out := AllRows(front), Tagged(front);
      assert front != [] ==> out[|out| - 1].0 == front[|front| - 1].node && log[|front| - 1].node < p.node;
      if p.item.children == [] {
        var rows := before + [Row(p.node, p.order, p.item.head, None)];
        assert rows[..|rows| - 1] == before;
        assert p.item == Item(p.item.head, []);
      } else {
        GroupChildren(before, out, p, |p.item.children|);
        assert p.item.children[..|p.item.children|] == p.item.children;
      }
    }
  }
}
