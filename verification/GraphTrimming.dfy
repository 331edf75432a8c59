/** Evicting the oldest items of one kind, and finding the credentials of a type. */
module GraphTrimming {
  import opened Prelude
  import opened GraphModel
  import opened GraphQueries

  function Nodes(log: seq<Placed>): (nodes: seq<nat>)
    ensures |nodes| == |log| && forall i :: 0 <= i < |log| ==> nodes[i] == log[i].node
  {
    if log == [] then [] else Nodes(log[..|log| - 1]) + [log[|log| - 1].node]
  }

  lemma NodesDiffer(log: seq<Placed>)
    requires Ascending(log)
    ensures NoDup(Nodes(log)) && |Elems(Nodes(log))| == |log|
  {
    forall i, j | 0 <= i < j < |log|
      ensures log[i].node != log[j].node
    {
    }
    NoDupCardinality(Nodes(log));
  }

  /** Only the item nodes of a kind carry its class. */
  lemma TypedQuad(quads: set<Quad>, kind: Kind, log: seq<Placed>, other: seq<Placed>, n: nat)
    requires View(quads, kind, log, other)
    ensures Quad(n, RdfType, Type(ClassOf(kind))) in quads <==> n in Nodes(log)
  {
    ViewMeans(quads, kind, log, other);
    var q := Quad(n, RdfType, Type(ClassOf(kind)));
    if n in Nodes(log) {
      var i := Position(Nodes(log), n);
      assert WellKinded(kind, log[i].item) && Has(log[i], q);
      assert In(log, q);
    }
    NotTypedIn(kind, other, n);
    if q in quads {
      var j :| 0 <= j < |log| && Has(log[j], q);
      assert WellKinded(kind, log[j].item);
      ChildrenFit(kind, log[j], q);
      assert Nodes(log)[j] == n;
    }
  }

  /** Items of the other kind, and their children, carry another class. */
  lemma NotTypedIn(kind: Kind, other: seq<Placed>, n: nat)
    requires LogOk(Other(kind), other)
    ensures !In(other, Quad(n, RdfType, Type(ClassOf(kind))))
  {
    forall j | 0 <= j < |other|
      ensures !Has(other[j], Quad(n, RdfType, Type(ClassOf(kind))))
    {
      assert WellKinded(Other(kind), other[j].item);
      ChildrenFit(Other(kind), other[j], Quad(n, RdfType, Type(ClassOf(kind))));
    }
  }

  lemma CountIsLength(quads: set<Quad>, kind: Kind, log: seq<Placed>, other: seq<Placed>)
    requires View(quads, kind, log, other)
    ensures NodesOf(quads, ClassOf(kind)) == Elems(Nodes(log))
    ensures |NodesOf(quads, ClassOf(kind))| == |log|
  {
    ViewAscends(quads, kind, log, other);
    NodesDiffer(log);
    forall n: nat
      ensures n in NodesOf(quads, ClassOf(kind)) <==> n in Nodes(log)
    {
      TypedQuad(quads, kind, log, other, n);
      if Quad(n, RdfType, Type(ClassOf(kind))) in quads {
        assert n in NodesOf(quads, ClassOf(kind));
      }
    }
  }

  lemma OrderOfNode(quads: set<Quad>, kind: Kind, log: seq<Placed>, other: seq<Placed>, i: nat, q: Quad)
    requires View(quads, kind, log, other) && i < |log| && q.s == log[i].node && IsOrder(q)
    ensures q in quads <==> q.o.i == log[i].order
  {
    OwnQuads(quads, kind, log, other, i, q);
  }

  /** The first `n` nodes of the log are an answer to "the n oldest". */
  lemma FirstAreOldest(quads: set<Quad>, kind: Kind, log: seq<Placed>, other: seq<Placed>, n: nat)
    requires View(quads, kind, log, other) && n <= |log|
    ensures Oldest(quads, ClassOf(kind), n, Elems(Nodes(log)[..n]))
  {
    CountIsLength(quads, kind, log, other);
    FirstAreEarlier(quads, kind, log, other, n);
    FirstAreMany(quads, kind, log, other, n);
  }

  lemma FirstAreMany(quads: set<Quad>, kind: Kind, log: seq<Placed>, other: seq<Placed>, n: nat)
    requires View(quads, kind, log, other) && n <= |log|
    ensures |Elems(Nodes(log)[..n])| == n && Elems(Nodes(log)[..n]) <= Elems(Nodes(log))
  {
    ViewAscends(quads, kind, log, other);
    NodesDiffer(log);
    NoDupCardinality(Nodes(log)[..n]);
  }

  lemma FirstAreEarlier(quads: set<Quad>, kind: Kind, log: seq<Placed>, other: seq<Placed>, n: nat)
    requires View(quads, kind, log, other) && n <= |log|
    requires NodesOf(quads, ClassOf(kind)) == Elems(Nodes(log))
    ensures forall q, r :: q in quads && r in quads && IsOrder(q) && IsOrder(r) ==>
      (q.s in Elems(Nodes(log)[..n]) && r.s in NodesOf(quads, ClassOf(kind)) && r.s !in Elems(Nodes(log)[..n]) ==>
         q.o.i <= r.o.i)
  {
    forall q, r | q in quads && r in quads && IsOrder(q) && IsOrder(r)
        && q.s in Nodes(log)[..n] && r.s in Nodes(log) && r.s !in Nodes(log)[..n]
      ensures q.o.i <= r.o.i
    {
      FirstPrecede(quads, kind, log, other, n, q, r);
    }
  }

  lemma FirstPrecede(quads: set<Quad>, kind: Kind, log: seq<Placed>, other: seq<Placed>, n: nat, q: Quad, r: Quad)
    requires View(quads, kind, log, other) && n <= |log|
    requires q in quads && r in quads && IsOrder(q) && IsOrder(r)
    requires q.s in Nodes(log)[..n] && r.s in Nodes(log) && r.s !in Nodes(log)[..n]
    ensures q.o.i <= r.o.i
  {
    ViewAscends(quads, kind, log, other);
    var i, j := Position(Nodes(log)[..n], q.s), Position(Nodes(log), r.s);
    assert n <= j by {
      assert forall k :: 0 <= k < n ==> Nodes(log)[k] in Nodes(log)[..n];
    }
    OrderOfNode(quads, kind, log, other, i, q);
    OrderOfNode(quads, kind, log, other, j, r);
  }

  /** And they are the only answer. */
  lemma OldestAreFirst(quads: set<Quad>, kind: Kind, log: seq<Placed>, other: seq<Placed>, n: nat, picked: set<nat>)
    requires View(quads, kind, log, other) && n <= |log|
    requires Oldest(quads, ClassOf(kind), n, picked)
    ensures picked == Elems(Nodes(log)[..n])
  {
    ViewAscends(quads, kind, log, other);
    NodesDiffer(log);
    var nodes := Nodes(log)[..n];
    NoDupCardinality(nodes);
    forall i | 0 <= i < n
      ensures nodes[i] in picked
    {
      FirstIsPicked(quads, kind, log, other, n, picked, i);
    }
    SameSize(Elems(nodes), picked);
  }

  lemma SameSize<T>(a: set<T>, b: set<T>)
    requires a <= b && |a| == |b|
    ensures a == b
  {
    assert b == a + (b - a);
  }

  lemma FirstIsPicked(quads: set<Quad>, kind: Kind, log: seq<Placed>, other: seq<Placed>, n: nat, picked: set<nat>,
                      i: nat)
    requires View(quads, kind, log, other) && i < n <= |log|
    requires Oldest(quads, ClassOf(kind), n, picked)
    ensures log[i].node in picked
  {
    if log[i].node !in picked {
      PickedAreOlder(quads, kind, log, other, n, picked, i);
      ViewAscends(quads, kind, log, other);
      NodesDiffer(log);
      NoDupCardinality(Nodes(log)[..i]);
      SubsetCardinality(picked, Elems(Nodes(log)[..i]));
      assert false;
    }
  }

  lemma PickedAreOlder(quads: set<Quad>, kind: Kind, log: seq<Placed>, other: seq<Placed>, n: nat, picked: set<nat>,
                       i: nat)
    requires View(quads, kind, log, other) && i < n <= |log|
    requires Oldest(quads, ClassOf(kind), n, picked) && log[i].node !in picked
    ensures picked <= Elems(Nodes(log)[..i])
  {
    CountIsLength(quads, kind, log, other);
    forall v | v in picked
      ensures v in Nodes(log)[..i]
    {
      PickedIsOlder(quads, kind, log, other, n, picked, i, Position(Nodes(log), v));
    }
  }

  lemma PickedIsOlder(quads: set<Quad>, kind: Kind, log: seq<Placed>, other: seq<Placed>, n: nat, picked: set<nat>,
                      i: nat, j: nat)
    requires View(quads, kind, log, other) && i < n <= |log| && j < |log|
    requires NodesOf(quads, ClassOf(kind)) == Elems(Nodes(log))
    requires Oldest(quads, ClassOf(kind), n, picked) && log[i].node !in picked && log[j].node in picked
    ensures log[j].node in Nodes(log)[..i]
  {
    var q, r := Quad(log[j].node, Order, Integer(log[j].order)), Quad(log[i].node, Order, Integer(log[i].order));
    OrderOfNode(quads, kind, log, other, i, r);
    OrderOfNode(quads, kind, log, other, j, q);
    assert Nodes(log)[i] == r.s;
    assert log[j].order <= log[i].order;
    ViewAscends(quads, kind, log, other);
    assert Nodes(log)[..i][j] == log[j].node;
  }

  /** A quad goes exactly when one of the first `n` items owns it. */
  lemma QuadIsDeleted(quads: set<Quad>, kind: Kind, log: seq<Placed>, other: seq<Placed>, n: nat, q: Quad)
    requires View(quads, kind, log, other) && n <= |log| && q in quads
    ensures var picked := Elems(Nodes(log)[..n]);
      q.s in picked || PointedAt(quads, LinkOf(kind), picked, q.s) <==> In(log[..n], q)
  {
    if In(log[..n], q) {
      var i :| 0 <= i < n && Has(log[..n][i], q);
      OwnedIsReached(quads, kind, log, other, n, i, q);
    }
    ReachedIsOwned(quads, kind, log, other, n, q);
  }

  lemma ReachedIsOwned(quads: set<Quad>, kind: Kind, log: seq<Placed>, other: seq<Placed>, n: nat, q: Quad)
    requires View(quads, kind, log, other) && n <= |log| && q in quads
    ensures var picked := Elems(Nodes(log)[..n]);
      q.s in picked || PointedAt(quads, LinkOf(kind), picked, q.s) ==> In(log[..n], q)
  {
    var nodes := Nodes(log)[..n];
    if q.s in nodes {
      NodeIsOwned(quads, kind, log, other, n, q);
    } else if l :| l in quads && l.s in Elems(nodes) && l.p == LinkOf(kind) && l.o == Blank(q.s) {
      ChildIsOwned(quads, kind, log, other, n, l, q);
    }
  }

  lemma NodeIsOwned(quads: set<Quad>, kind: Kind, log: seq<Placed>, other: seq<Placed>, n: nat, q: Quad)
    requires View(quads, kind, log, other) && n <= |log| && q in quads && q.s in Nodes(log)[..n]
    ensures In(log[..n], q)
  {
    InsideIsOwned(quads, kind, log, other, n, Position(Nodes(log)[..n], q.s), q);
  }

  lemma ChildIsOwned(quads: set<Quad>, kind: Kind, log: seq<Placed>, other: seq<Placed>, n: nat, l: Quad, q: Quad)
    requires View(quads, kind, log, other) && n <= |log| && q in quads
    requires l in quads && l.s in Nodes(log)[..n] && l.p == LinkOf(kind) && l.o == Blank(q.s)
    ensures In(log[..n], q)
  {
    var i := Position(Nodes(log)[..n], l.s);
    LinkStaysInside(quads, kind, log, other, i, l);
    InsideIsOwned(quads, kind, log, other, n, i, q);
  }

  lemma OwnedIsReached(quads: set<Quad>, kind: Kind, log: seq<Placed>, other: seq<Placed>, n: nat, i: nat, q: Quad)
    requires View(quads, kind, log, other) && i < n <= |log| && Has(log[i], q)
    ensures var picked := Elems(Nodes(log)[..n]); q.s in picked || PointedAt(quads, LinkOf(kind), picked, q.s)
  {
    assert Nodes(log)[..n][i] == log[i].node;
    if q.s != log[i].node {
      var l := Quad(log[i].node, LinkOf(kind), Blank(q.s));
      KindAt(quads, kind, log, other, i);
      OwnQuads(quads, kind, log, other, i, l);
      assert l in quads;
    }
  }

  /** A link points at a node of the item it starts from. */
  lemma LinkStaysInside(quads: set<Quad>, kind: Kind, log: seq<Placed>, other: seq<Placed>, i: nat, l: Quad)
    requires View(quads, kind, log, other) && i < |log|
    requires l in quads && l.s == log[i].node && l.p == LinkOf(kind) && l.o.Blank?
    ensures log[i].node <= l.o.n <= log[i].node + |log[i].item.children|
  {
    KindAt(quads, kind, log, other, i);
    OwnQuads(quads, kind, log, other, i, l);
  }

  lemma InsideIsOwned(quads: set<Quad>, kind: Kind, log: seq<Placed>, other: seq<Placed>, n: nat, i: nat, q: Quad)
    requires View(quads, kind, log, other) && i < n <= |log| && q in quads
    requires log[i].node <= q.s <= log[i].node + |log[i].item.children|
    ensures In(log[..n], q)
  {
    OwnQuads(quads, kind, log, other, i, q);
    assert log[..n][i] == log[i];
  }

  /** What the first items do not own, the rest or the other kind does. */
  lemma OwnedOnce(quads: set<Quad>, kind: Kind, log: seq<Placed>, other: seq<Placed>, n: nat, q: Quad)
    requires View(quads, kind, log, other) && n <= |log|
    ensures q in quads && !In(log[..n], q) <==> In(log[n..], q) || In(other, q)
  {
    ViewMeans(quads, kind, log, other);
    if i :| 0 <= i < |log| && Has(log[i], q) {
      if i < n {
        assert log[..n][i] == log[i];
      } else {
        assert log[n..][i - n] == log[i];
      }
    }
    if i :| 0 <= i < |log[n..]| && Has(log[n..][i], q) {
      assert log[n..][i] == log[i + n];
      NotEarlier(kind, log, other, n, i + n, q);
    }
    if j :| 0 <= j < |other| && Has(other[j], q) {
      HasOwns(other[j], q);
      assert forall i :: 0 <= i < n ==> log[..n][i] == log[i] && Apart(log[i], other[j]) && !Has(log[i], q);
    }
  }

  lemma NotEarlier(kind: Kind, log: seq<Placed>, other: seq<Placed>, n: nat, i: nat, q: Quad)
    requires LogOk(kind, log) && n <= i < |log| && Has(log[i], q)
    ensures !In(log[..n], q)
  {
    HasOwns(log[i], q);
    forall k | 0 <= k < n
      ensures !Has(log[..n][k], q)
    {
      assert log[..n][k] == log[k];
    }
  }

  /** The delete removes the first `n` items of the kind, with their children, and touches nothing else. */
  lemma DeleteDropsFirst(quads: set<Quad>, kind: Kind, log: seq<Placed>, other: seq<Placed>, n: nat)
    requires View(quads, kind, log, other) && n <= |log|
    ensures View(Without(quads, LinkOf(kind), Elems(Nodes(log)[..n])), kind, log[n..], other)
  {
    var after := Without(quads, LinkOf(kind), Elems(Nodes(log)[..n]));
    forall q
      ensures q in after <==> In(log[n..], q) || In(other, q)
    {
      OwnedOnce(quads, kind, log, other, n, q);
      if q in quads {
        QuadIsDeleted(quads, kind, log, other, n, q);
      }
    }
    ViewMeans(after, kind, log[n..], other);
    RestIsTidy(quads, kind, log, other, n);
  }

  lemma RestIsTidy(quads: set<Quad>, kind: Kind, log: seq<Placed>, other: seq<Placed>, n: nat)
    requires View(quads, kind, log, other) && n <= |log|
    ensures LogOk(kind, log[n..]) && LogOk(Other(kind), other) && Separate(log[n..], other)
  {
    assert Shows(Tidy, quads, kind, log, other);
    assert forall i :: 0 <= i < |log[n..]| ==> log[n..][i] == log[i + n];
  }

  /** Every item is on nodes below `node` and has an order below `order`. */
  ghost predicate Below(log: seq<Placed>, node: nat, order: nat) {
    forall i :: 0 <= i < |log| ==> log[i].node + |log[i].item.children| < node && log[i].order < order
  }

  ghost predicate AreQuadsOf(quads: seq<Quad>, p: Placed) {
    forall q :: q in quads <==> Has(p, q)
  }

  /** Placing an item on new nodes, after every other, adds exactly its quads. */
  lemma InsertAppends(quads: set<Quad>, kind: Kind, log: seq<Placed>, other: seq<Placed>, p: Placed, more: seq<Quad>)
    requires View(quads, kind, log, other) && WellKinded(kind, p.item)
    requires Below(log, p.node, p.order) && Below(other, p.node, p.order)
    requires AreQuadsOf(more, p)
    ensures View(quads + Elems(more), kind, log + [p], other)
  {
    ViewMeans(quads, kind, log, other);
    ViewMeans(quads + Elems(more), kind, log + [p], other);
    var log' := log + [p];
    forall q
      ensures In(log', q) <==> In(log, q) || Has(p, q)
    {
      if i :| 0 <= i < |log| && Has(log[i], q) {
        assert log'[i] == log[i];
      }
      assert log'[|log|] == p;
    }
  }

  lemma Swap(quads: set<Quad>, kind: Kind, log: seq<Placed>, other: seq<Placed>)
    requires View(quads, kind, log, other)
    ensures View(quads, Other(kind), other, log)
  {
    ViewMeans(quads, kind, log, other);
    ViewMeans(quads, Other(kind), other, log);
    forall i, j | 0 <= i < |other| && 0 <= j < |log|
      ensures Apart(other[i], log[j])
    {
      assert Apart(log[j], other[i]);
    }
  }

  /** The node of a batch or an offer. */
  ghost predicate IsItemNode(quads: set<Quad>, n: nat) {
    Quad(n, RdfType, Type(CredentialBatch)) in quads || Quad(n, RdfType, Type(AcceptedCredentialOffer)) in quads
  }

  /** Linked to by an item: `ds:hasCredential` from a batch, `ds:offersCredential` from an offer. */
  ghost predicate IsLinked(quads: set<Quad>, n: nat, kind: Kind, from: nat) {
    Quad(from, LinkOf(kind), Blank(n)) in quads && Quad(from, RdfType, Type(ClassOf(kind))) in quads
  }

  /** Nothing is orphaned: a quad's subject is an item's own node, or a child that an item of the store links to. */
  lemma NoOrphans(quads: set<Quad>, batches: seq<Placed>, offers: seq<Placed>, q: Quad)
    requires View(quads, BatchKind, batches, offers) && q in quads
    ensures IsItemNode(quads, q.s) || exists kind, from :: IsLinked(quads, q.s, kind, from)
  {
    ViewMeans(quads, BatchKind, batches, offers);
    if i :| 0 <= i < |batches| && Has(batches[i], q) {
      HeadOrLinked(quads, BatchKind, batches, i, q);
    } else {
      var i :| 0 <= i < |offers| && Has(offers[i], q);
      HeadOrLinked(quads, OfferKind, offers, i, q);
    }
  }

  lemma HeadOrLinked(quads: set<Quad>, kind: Kind, log: seq<Placed>, i: nat, q: Quad)
    requires LogOk(kind, log) && i < |log| && Has(log[i], q)
    requires forall r :: In(log, r) ==> r in quads
    ensures IsItemNode(quads, q.s) || IsLinked(quads, q.s, kind, log[i].node)
  {
    assert WellKinded(kind, log[i].item);
    var n := log[i].node;
    var own, link := Quad(n, RdfType, Type(ClassOf(kind))), Quad(n, LinkOf(kind), Blank(q.s));
    assert Has(log[i], own);
    assert In(log, own);
    if q.s != n {
      assert Has(log[i], link);
      assert In(log, link);
    }
  }

  // ---- The credentials of a type ----

  /** One solution of the query behind `credentials_of_types`, before projection. */
  datatype Hit = Hit(batch: nat, node: nat, child: Child)

  ghost predicate IsHit(quads: set<Quad>, hit: Hit) {
    && hit.child.Credential?
    && Quad(hit.batch, Status, Text(ISSUED)) in quads
    && Quad(hit.batch, HasCredential, Blank(hit.node)) in quads
    && Quad(hit.node, CredentialType, Text(hit.child.credentialType)) in quads
    && Quad(hit.node, Format, Text(hit.child.format)) in quads
    && Quad(hit.node, Payload, Text(hit.child.payload)) in quads
  }

  /** Every answer the engine may give, in any order: the solutions are a bag, once each before projection. */
  ghost predicate HitAnswer(quads: set<Quad>, hits: seq<Hit>) {
    NoDup(hits) && forall hit :: hit in hits <==> IsHit(quads, hit)
  }

  function Picked(hits: seq<Hit>, types: seq<string>): seq<Child> {
    if hits == [] then
      []
    else
      var last := hits[|hits| - 1];
      Picked(hits[..|hits| - 1], types)
      + if last.child.Credential? && last.child.credentialType in types then [last.child] else []
  }

  function ItemHits(p: Placed, n: nat): (hits: seq<Hit>)
    requires n <= |p.item.children|
    ensures |hits| == n && forall k :: 0 <= k < n ==> hits[k] == Hit(p.node, p.node + 1 + k, p.item.children[k])
  {
    if n == 0 then [] else ItemHits(p, n - 1) + [Hit(p.node, p.node + n, p.item.children[n - 1])]
  }

  predicate IsIssued(p: Placed) {
    p.item.head.BatchHead? && p.item.head.status == ISSUED
  }

  function AllHits(log: seq<Placed>): seq<Hit> {
    if log == [] then
      []
    else
      var p := log[|log| - 1];
      AllHits(log[..|log| - 1]) + if IsIssued(p) then ItemHits(p, |p.item.children|) else []
  }

  predicate HitOf(log: seq<Placed>, hit: Hit, i: nat) {
    && i < |log| && IsIssued(log[i]) && hit.batch == log[i].node
    && log[i].node < hit.node <= log[i].node + |log[i].item.children|
    && hit.child == log[i].item.children[hit.node - log[i].node - 1]
  }

  lemma ItemHitsAre(p: Placed, hit: Hit)
    ensures hit in ItemHits(p, |p.item.children|) <==>
      && hit.batch == p.node && p.node < hit.node <= p.node + |p.item.children|
      && hit.child == p.item.children[hit.node - p.node - 1]
  {
    var hits := ItemHits(p, |p.item.children|);
    if hit.batch == p.node && p.node < hit.node <= p.node + |p.item.children|
       && hit.child == p.item.children[hit.node - p.node - 1] {
      assert hits[hit.node - p.node - 1] == hit;
    }
  }

  lemma {:induction false} HitsInclude(log: seq<Placed>, hit: Hit, i: nat)
    requires HitOf(log, hit, i)
    ensures hit in AllHits(log)
    decreases |log|
  {
    var front, p := log[..|log| - 1], log[|log| - 1];
    if i < |front| {
      assert front[i] == log[i];
      HitsInclude(front, hit, i);
    } else {
      ItemHitsAre(p, hit);
    }
    InConcat(AllHits(front), if IsIssued(p) then ItemHits(p, |p.item.children|) else [], hit);
  }

  lemma {:induction false} HitHasItem(log: seq<Placed>, hit: Hit) returns (i: nat)
    requires hit in AllHits(log)
    ensures HitOf(log, hit, i)
    decreases |log|
  {
    var front, p := log[..|log| - 1], log[|log| - 1];
    InConcat(AllHits(front), if IsIssued(p) then ItemHits(p, |p.item.children|) else [], hit);
    if hit in AllHits(front) {
      i := HitHasItem(front, hit);
      assert front[i] == log[i];
    } else {
      ItemHitsAre(p, hit);
      i := |log| - 1;
    }
  }

  lemma {:induction false} HitsDiffer(log: seq<Placed>)
    requires Ascending(log)
    ensures NoDup(AllHits(log))
    decreases |log|
  {
    if log != [] {
      var front, p := log[..|log| - 1], log[|log| - 1];
      HitsDiffer(front);
      var a, b := AllHits(front), if IsIssued(p) then ItemHits(p, |p.item.children|) else [];
      forall i, j | 0 <= i < j < |a + b|
        ensures (a + b)[i] != (a + b)[j]
      {
        if i < |a| <= j {
          var k := HitHasItem(front, a[i]);
          assert log[k].node < p.node;
        }
      }
    }
  }

  lemma HitsAre(quads: set<Quad>, log: seq<Placed>, other: seq<Placed>, hit: Hit)
    requires View(quads, BatchKind, log, other)
    ensures IsHit(quads, hit) <==> hit in AllHits(log)
  {
    if IsHit(quads, hit) {
      var i := LinkOwner(quads, log, other, Quad(hit.batch, HasCredential, Blank(hit.node)));
      HitsOf(quads, log, other, hit, i);
      HitsInclude(log, hit, i);
    }
    if hit in AllHits(log) {
      var i := HitHasItem(log, hit);
      HitsOf(quads, log, other, hit, i);
    }
  }

  lemma LinkOwner(quads: set<Quad>, log: seq<Placed>, other: seq<Placed>, q: Quad) returns (i: nat)
    requires View(quads, BatchKind, log, other) && q in quads && q.p == HasCredential
    ensures i < |log| && log[i].node == q.s
  {
    ViewMeans(quads, BatchKind, log, other);
    assert !In(other, q) by {
      forall j | 0 <= j < |other|
        ensures !Has(other[j], q)
      {
        assert WellKinded(OfferKind, other[j].item);
      }
    }
    var j :| 0 <= j < |log| && Has(log[j], q);
    i := j;
  }

  lemma HitsOf(quads: set<Quad>, log: seq<Placed>, other: seq<Placed>, hit: Hit, i: nat)
    requires View(quads, BatchKind, log, other) && i < |log| && log[i].node == hit.batch
    ensures IsHit(quads, hit) <==> HitOf(log, hit, i)
  {
    var p := log[i];
    KindAt(quads, BatchKind, log, other, i);
    if p.node < hit.node <= p.node + |p.item.children| {
      assert Fits(BatchKind, p.item.children[hit.node - p.node - 1]);
    }
    IssuedFound(quads, log, other, i, hit.node);
    if p.node < hit.node <= p.node + |p.item.children| && hit.child.Credential? {
      CredentialFound(quads, log, other, i, hit.node, hit.child);
    }
  }

  lemma IssuedFound(quads: set<Quad>, log: seq<Placed>, other: seq<Placed>, i: nat, node: nat)
    requires View(quads, BatchKind, log, other) && i < |log|
    ensures Quad(log[i].node, Status, Text(ISSUED)) in quads <==> IsIssued(log[i])
    ensures Quad(log[i].node, HasCredential, Blank(node)) in quads <==>
      log[i].node < node <= log[i].node + |log[i].item.children|
  {
    KindAt(quads, BatchKind, log, other, i);
    OwnQuads(quads, BatchKind, log, other, i, Quad(log[i].node, Status, Text(ISSUED)));
    OwnQuads(quads, BatchKind, log, other, i, Quad(log[i].node, HasCredential, Blank(node)));
  }

  lemma CredentialFound(quads: set<Quad>, log: seq<Placed>, other: seq<Placed>, i: nat, node: nat, child: Child)
    requires View(quads, BatchKind, log, other) && i < |log| && child.Credential?
    requires log[i].node < node <= log[i].node + |log[i].item.children|
    ensures child == log[i].item.children[node - log[i].node - 1] <==>
      && Quad(node, CredentialType, Text(child.credentialType)) in quads
      && Quad(node, Format, Text(child.format)) in quads
      && Quad(node, Payload, Text(child.payload)) in quads
  {
    KindAt(quads, BatchKind, log, other, i);
    assert Fits(BatchKind, log[i].item.children[node - log[i].node - 1]);
    OwnQuads(quads, BatchKind, log, other, i, Quad(node, CredentialType, Text(child.credentialType)));
    OwnQuads(quads, BatchKind, log, other, i, Quad(node, Format, Text(child.format)));
    OwnQuads(quads, BatchKind, log, other, i, Quad(node, Payload, Text(child.payload)));
  }

  /** The hits of the log, in order, are what the plain list would return. */
  lemma {:induction false} HitsAreWanted(log: seq<Placed>, types: seq<string>)
    ensures Picked(AllHits(log), types) == Wanted(Items(log), types)
    decreases |log|
  {
    if log != [] {
      var front, p := log[..|log| - 1], log[|log| - 1];
      HitsAreWanted(front, types);
      assert Items(log)[..|log| - 1] == Items(front);
      if IsIssued(p) {
        PickedConcat(AllHits(front), ItemHits(p, |p.item.children|), types);
        PickedItem(p, |p.item.children|, types);
        assert p.item.children[..|p.item.children|] == p.item.children;
      } else {
        assert AllHits(front) + [] == AllHits(front);
      }
    }
  }

  lemma {:induction false} PickedConcat(a: seq<Hit>, b: seq<Hit>, types: seq<string>)
    ensures Picked(a + b, types) == Picked(a, types) + Picked(b, types)
    decreases |b|
  {
    if b == [] {
      assert a + b == a;
    } else {
      var front := b[..|b| - 1];
      assert (a + b)[..|a + b| - 1] == a + front;
      PickedConcat(a, front, types);
    }
  }

  lemma {:induction false} PickedItem(p: Placed, n: nat, types: seq<string>)
    requires n <= |p.item.children|
    ensures Picked(ItemHits(p, n), types) == OfTypes(p.item.children[..n], types)
  {
    if n > 0 {
      PickedItem(p, n - 1, types);
      var last := p.item.children[n - 1];
      PickedLast(ItemHits(p, n - 1), Hit(p.node, p.node + n, last), types);
      OfTypesLast(p.item.children[..n - 1], last, types);
      assert p.item.children[..n] == p.item.children[..n - 1] + [last];
    }
  }

  lemma PickedLast(front: seq<Hit>, last: Hit, types: seq<string>)
    ensures Picked(front + [last], types)
      == Picked(front, types)
         + if last.child.Credential? && last.child.credentialType in types then [last.child] else []
  {
    assert (front + [last])[..|front|] == front;
  }

  lemma OfTypesLast(front: seq<Child>, last: Child, types: seq<string>)
    ensures OfTypes(front + [last], types)
      == OfTypes(front, types) + if last.Credential? && last.credentialType in types then [last] else []
  {
    assert (front + [last])[..|front|] == front;
  }

  /** Which credentials are picked does not depend on the order of the hits. */
  lemma {:induction false} PickedBag(a: seq<Hit>, b: seq<Hit>, types: seq<string>)
    requires NoDup(a) && NoDup(b) && Elems(a) == Elems(b)
    ensures multiset(Picked(a, types)) == multiset(Picked(b, types))
    decreases |a|
  {
    if a == [] {
      assert Elems(a) == {};
      NoElems(b);
    } else {
      var front, last := a[..|a| - 1], a[|a| - 1];
      assert last in Elems(a);
      var k := Position(b, last);
      FrontElems(a);
      DroppingNoDup(b, k);
      PickedBag(front, Dropping(b, k), types);
      PickedSplit(a, |a| - 1, types);
      assert Dropping(a, |a| - 1) == front;
      PickedSplit(b, k, types);
    }
  }

  lemma PickedSplit(hits: seq<Hit>, k: nat, types: seq<string>)
    requires k < |hits|
    ensures multiset(Picked(hits, types))
      == multiset(Picked(Dropping(hits, k), types)) + multiset(Picked([hits[k]], types))
  {
    var before, it, after := hits[..k], [hits[k]], hits[k + 1..];
    assert hits == (before + it) + after;
    PickedConcat(before + it, after, types);
    PickedConcat(before, it, types);
    PickedConcat(before, after, types);
  }
}
