/** The credential graph in place. Its two logs and two histories are ghost: only the quads are stored. */
module CredentialGraphStore {
  import opened Prelude
  import opened GraphModel
  import opened GraphQueries
  import opened GraphTrimming

  type Entry = c: Child | c.Credential? witness Credential("", "", "")

  type OfferEntry = c: Child | c.Offered? witness Offered("", None)

  class CredentialGraph {
    var quads: set<Quad>
    var nextOrder: nat
    var nextBlank: nat

    /** What the quads stand for, oldest first. */
    ghost var batches: seq<Placed>
    ghost var offers: seq<Placed>

    /** Everything ever stored, oldest first. */
    ghost var allBatches: seq<Item>
    ghost var allOffers: seq<Item>

    ghost predicate Valid()
      reads this
    {
      && View(quads, BatchKind, batches, offers)
      && Below(batches, nextBlank, nextOrder) && Below(offers, nextBlank, nextOrder)
      && Items(batches) == Last(allBatches, MAX_CREDENTIAL_BATCHES)
      && Items(offers) == Last(allOffers, MAX_ACCEPTED_OFFERS)
    }

    constructor ()
      ensures Valid() && quads == {} && allBatches == [] && allOffers == []
    {
      quads := {};
      nextOrder := 0;
      nextBlank := 0;
      batches, offers, allBatches, allOffers := [], [], [], [];
      ViewMeans({}, BatchKind, [], []);
    }

    /** Deletes the oldest nodes of a kind beyond the cap, and their children. */
    method TrimOldest(kind: Kind, cap: nat, ghost log: seq<Placed>, ghost other: seq<Placed>)
      requires View(quads, kind, log, other)
      modifies this`quads
      ensures View(quads, kind, Last(log, cap), other)
    {
      CountIsLength(quads, kind, log, other);
      var count := |NodesOf(quads, ClassOf(kind))|;
      if count <= cap {
        return;
      }
      var excess := count - cap;
      var picked := PickOldest(quads, kind, excess, log, other);
      DeleteDropsFirst(quads, kind, log, other, excess);
      quads := Without(quads, LinkOf(kind), picked);
    }

    method InsertAll(more: seq<Quad>)
      modifies this`quads
      ensures quads == old(quads) + Elems(more)
    {
      for i := 0 to |more|
        invariant quads == old(quads) + Elems(more[..i])
      {
        assert more[..i + 1] == more[..i] + [more[i]];
        quads := quads + {more[i]};
      }
      assert more[..|more|] == more;
    }

    /** Inserts the quads of an item newer than every other, then applies the cap of its kind. */
    method Place(kind: Kind, cap: nat, more: seq<Quad>, ghost p: Placed, ghost log: seq<Placed>,
                 ghost other: seq<Placed>)
      requires View(quads, kind, log, other) && WellKinded(kind, p.item)
      requires Below(log, p.node, p.order) && Below(other, p.node, p.order)
      requires AreQuadsOf(more, p)
      modifies this`quads
      ensures View(quads, kind, Last(log + [p], cap), other)
    {
      InsertAppends(quads, kind, log, other, p, more);
      InsertAll(more);
      TrimOldest(kind, cap, log + [p], other);
    }

    /** Stores a batch: its quads, then the cap on batches. */
    method AddBatch(id: string, issuerPid: string, holderPid: Option<string>, status: string,
                    rejectionReason: Option<string>, credentials: seq<Entry>)
      requires Valid()
      modifies this
      ensures Valid()
      ensures allBatches
        == old(allBatches) + [Item(BatchHead(id, issuerPid, holderPid, status, rejectionReason), credentials)]
      ensures allOffers == old(allOffers) && offers == old(offers)
    {
      var node, order := nextBlank, nextOrder;
      ghost var item := Item(BatchHead(id, issuerPid, holderPid, status, rejectionReason), credentials);
      ghost var p := Placed(node, order, item);
      nextOrder := nextOrder + 1;
      nextBlank := nextBlank + 1 + |credentials|;
      var more := BatchQuads(id, issuerPid, holderPid, status, rejectionReason, credentials, node, order);
      BelowNext(batches, offers, p, MAX_CREDENTIAL_BATCHES, nextBlank, nextOrder);
      Place(BatchKind, MAX_CREDENTIAL_BATCHES, more, p, batches, offers);
      LastItems(batches, p, allBatches, MAX_CREDENTIAL_BATCHES);
      batches := Last(batches + [p], MAX_CREDENTIAL_BATCHES);
      allBatches := allBatches + [item];
    }

    /** Stores an offer: its quads, then the cap on offers. */
    method AddOffer(id: string, issuer: string, credentials: seq<OfferEntry>)
      requires Valid()
      modifies this
      ensures Valid()
      ensures allOffers == old(allOffers) + [Item(OfferHead(id, issuer), credentials)]
      ensures allBatches == old(allBatches) && batches == old(batches)
    {
      var node, order := nextBlank, nextOrder;
      ghost var item := Item(OfferHead(id, issuer), credentials);
      ghost var p := Placed(node, order, item);
      nextOrder := nextOrder + 1;
      nextBlank := nextBlank + 1 + |credentials|;
      var more := OfferQuads(id, issuer, credentials, node, order);
      Swap(quads, BatchKind, batches, offers);
      BelowNext(offers, batches, p, MAX_ACCEPTED_OFFERS, nextBlank, nextOrder);
      Place(OfferKind, MAX_ACCEPTED_OFFERS, more, p, offers, batches);
      LastItems(offers, p, allOffers, MAX_ACCEPTED_OFFERS);
      offers := Last(offers + [p], MAX_ACCEPTED_OFFERS);
      allOffers := allOffers + [item];
      Swap(quads, OfferKind, offers, batches);
    }

    /** All batches, from any answer the engine gives: the last ones stored, in order, as they were stored. */
    method Batches(rows: seq<Row>) returns (items: seq<Item>)
      requires Valid() && Answers(quads, BatchKind, rows)
      ensures items == Last(allBatches, MAX_CREDENTIAL_BATCHES)
    {
      AnswerIsTheRows(quads, BatchKind, batches, offers, rows);
      ViewAscends(quads, BatchKind, batches, offers);
      GroupAllRows(batches);
      items := GroupRows(rows);
      UntagTagged(batches);
    }

    method Offers(rows: seq<Row>) returns (items: seq<Item>)
      requires Valid() && Answers(quads, OfferKind, rows)
      ensures items == Last(allOffers, MAX_ACCEPTED_OFFERS)
    {
      Swap(quads, BatchKind, batches, offers);
      AnswerIsTheRows(quads, OfferKind, offers, batches, rows);
      ViewAscends(quads, OfferKind, offers, batches);
      GroupAllRows(offers);
      items := GroupRows(rows);
      UntagTagged(offers);
    }

    /** A batch by its id: the oldest kept one with that id. */
    method Batch(rows: seq<Row>, id: string) returns (r: Option<Item>)
      requires Valid() && Answers(quads, BatchKind, rows)
      ensures match r
        case None => forall k :: !FirstWithId(Last(allBatches, MAX_CREDENTIAL_BATCHES), id, k)
        case Some(item) => exists k :: FirstWithId(Last(allBatches, MAX_CREDENTIAL_BATCHES), id, k)
                                       && Last(allBatches, MAX_CREDENTIAL_BATCHES)[k] == item
    {
      var items := Batches(rows);
      for k := 0 to |items|
        invariant forall j :: 0 <= j < k ==> items[j].head.id != id
      {
        if items[k].head.id == id {
          assert FirstWithId(items, id, k);
          return Some(items[k]);
        }
      }
      return None;
    }

    /** Any answer to the type query gives the credentials the plain list would, as a bag. */
    method CredentialsOfTypes(hits: seq<Hit>, types: seq<string>) returns (found: seq<Child>)
      requires Valid() && HitAnswer(quads, hits)
      ensures multiset(found) == multiset(Wanted(Last(allBatches, MAX_CREDENTIAL_BATCHES), types))
    {
      found := [];
      for i := 0 to |hits|
        invariant found == Picked(hits[..i], types)
      {
        PickedLast(hits[..i], hits[i], types);
        assert hits[..i + 1] == hits[..i] + [hits[i]];
        var child := hits[i].child;
        if child.Credential? && child.credentialType in types {
          found := found + [child];
        }
      }
      assert hits[..|hits|] == hits;
      AnyHitsWanted(quads, batches, offers, hits, types);
    }
  }

  ghost predicate FirstWithId(items: seq<Item>, id: string, k: int) {
    0 <= k < |items| && items[k].head.id == id && forall j :: 0 <= j < k ==> items[j].head.id != id
  }

  lemma AnyHitsWanted(quads: set<Quad>, log: seq<Placed>, other: seq<Placed>, hits: seq<Hit>, types: seq<string>)
    requires View(quads, BatchKind, log, other) && HitAnswer(quads, hits)
    ensures multiset(Picked(hits, types)) == multiset(Wanted(Items(log), types))
  {
    forall hit
      ensures hit in hits <==> hit in AllHits(log)
    {
      HitsAre(quads, log, other, hit);
    }
    assert Elems(hits) == Elems(AllHits(log));
    ViewAscends(quads, BatchKind, log, other);
    HitsDiffer(log);
    PickedBag(hits, AllHits(log), types);
    HitsAreWanted(log, types);
  }

  lemma BelowNext(log: seq<Placed>, other: seq<Placed>, p: Placed, cap: nat, blank: nat, order: nat)
    requires Below(log, p.node, p.order) && Below(other, p.node, p.order)
    requires p.order < order && p.node + |p.item.children| < blank
    ensures Below(Last(log + [p], cap), blank, order) && Below(other, blank, order)
  {
  }

  lemma LastItems(log: seq<Placed>, p: Placed, all: seq<Item>, cap: nat)
    requires Items(log) == Last(all, cap) && cap > 0
    ensures Items(Last(log + [p], cap)) == Last(all + [p.item], cap)
  {
    var a, b := Items(Last(log + [p], cap)), Last(all + [p.item], cap);
    assert |log| == if |all| <= cap then |all| else cap;
    assert |a| == |b|;
    forall i | 0 <= i < |a|
      ensures a[i] == b[i]
    {
      assert i < |a| - 1 ==> Items(log)[i + |log| + 1 - |a|] == Last(all, cap)[i + |log| + 1 - |a|];
    }
  }

  /** The nodes of a kind that the eviction picks: the oldest, and there is only one choice. */
  method PickOldest(quads: set<Quad>, kind: Kind, n: nat, ghost log: seq<Placed>, ghost other: seq<Placed>)
      returns (picked: set<nat>)
    requires View(quads, kind, log, other) && n <= |log|
    ensures Oldest(quads, ClassOf(kind), n, picked) && picked == Elems(Nodes(log)[..n])
  {
    FirstAreOldest(quads, kind, log, other, n);
    picked :| picked <= NodesOf(quads, ClassOf(kind)) && Oldest(quads, ClassOf(kind), n, picked);
    OldestAreFirst(quads, kind, log, other, n, picked);
  }

  /** The grouping loop shared by both queries: it mutates the last output element. */
  method GroupRows(rows: seq<Row>) returns (items: seq<Item>)
    ensures items == Untagged(Group(rows))
  {
    var out: seq<(nat, Item)> := [];
    for i := 0 to |rows|
      invariant out == Group(rows[..i])
    {
      assert rows[..i + 1][..i] == rows[..i];
      var row := rows[i];
      if out == [] || out[|out| - 1].0 != row.node {
        out := out + [(row.node, Item(row.head, []))];
      }
      match row.child
      case None =>
      case Some(c) =>
        var (node, item) := out[|out| - 1];
        out := out[|out| - 1 := (node, item.(children := item.children + [c.child]))];
    }
    assert rows[..|rows|] == rows;
    items := [];
    for i := 0 to |out|
      invariant items == Untagged(out[..i])
    {
      assert out[..i + 1][..i] == out[..i];
      items := items + [out[i].1];
    }
    assert out[..|out|] == out;
  }

  function Untagged(out: seq<(nat, Item)>): (items: seq<Item>)
    ensures |items| == |out| && forall i :: 0 <= i < |out| ==> items[i] == out[i].1
  {
    if out == [] then [] else Untagged(out[..|out| - 1]) + [out[|out| - 1].1]
  }

  lemma UntagTagged(log: seq<Placed>)
    ensures Untagged(Tagged(log)) == Items(log)
  {
  }

  // ---- Building the quads of an item ----

  method BatchQuads(id: string, issuerPid: string, holderPid: Option<string>, status: string,
                    rejectionReason: Option<string>, credentials: seq<Entry>, node: nat, order: nat)
      returns (quads: seq<Quad>)
    ensures AreQuadsOf(quads,
      Placed(node, order, Item(BatchHead(id, issuerPid, holderPid, status, rejectionReason), credentials)))
  {
    var head := BatchHead(id, issuerPid, holderPid, status, rejectionReason);
    quads := [
      Quad(node, RdfType, Type(CredentialBatch)),
      Quad(node, BatchId, Text(id)),
      Quad(node, Order, Integer(order)),
      Quad(node, IssuerPid, Text(issuerPid)),
      Quad(node, Status, Text(status))];
    if holderPid.Some? {
      quads := quads + [Quad(node, HolderPid, Text(holderPid.value))];
    }
    if rejectionReason.Some? {
      quads := quads + [Quad(node, RejectionReason, Text(rejectionReason.value))];
    }
    for i := 0 to |credentials|
      invariant forall q :: q in quads <==> Has(Placed(node, order, Item(head, credentials[..i])), q)
    {
      var cred, entry := node + 1 + i, credentials[i];
      var more := [
        Quad(node, HasCredential, Blank(cred)),
        Quad(cred, RdfType, Type(VerifiableCredential)),
        Quad(cred, Order, Integer(i)),
        Quad(cred, CredentialType, Text(entry.credentialType)),
        Quad(cred, Format, Text(entry.format)),
        Quad(cred, Payload, Text(entry.payload))];
      ChildQuadsAdded(node, order, head, credentials, i, quads, more);
      quads := quads + more;
    }
    assert credentials[..|credentials|] == credentials;
  }

  method OfferQuads(id: string, issuer: string, credentials: seq<OfferEntry>, node: nat, order: nat)
      returns (quads: seq<Quad>)
    ensures AreQuadsOf(quads, Placed(node, order, Item(OfferHead(id, issuer), credentials)))
  {
    var head := OfferHead(id, issuer);
    quads := [
      Quad(node, RdfType, Type(AcceptedCredentialOffer)),
      Quad(node, OfferId, Text(id)),
      Quad(node, Order, Integer(order)),
      Quad(node, Issuer, Text(issuer))];
    for i := 0 to |credentials|
      invariant forall q :: q in quads <==> Has(Placed(node, order, Item(head, credentials[..i])), q)
    {
      var oc, entry := node + 1 + i, credentials[i];
      var more := [
        Quad(node, OffersCredential, Blank(oc)),
        Quad(oc, Order, Integer(i)),
        Quad(oc, CredentialId, Text(entry.id))];
      if entry.offeredType.Some? {
        more := more + [Quad(oc, CredentialType, Text(entry.offeredType.value))];
      }
      ChildQuadsAdded(node, order, head, credentials, i, quads, more);
      quads := quads + more;
    }
    assert credentials[..|credentials|] == credentials;
  }

  lemma ChildQuadsAdded(node: nat, order: nat, head: Head, children: seq<Child>, i: nat, quads: seq<Quad>,
                        more: seq<Quad>)
    requires i < |children|
    requires forall q :: q in quads <==> Has(Placed(node, order, Item(head, children[..i])), q)
    requires forall q :: q in more <==>
      || q == Quad(node, LinkOf(KindOf(head)), Blank(node + 1 + i))
      || (q.s == node + 1 + i && ChildHas(children[i], i, q.p, q.o))
    ensures forall q :: q in quads + more <==> Has(Placed(node, order, Item(head, children[..i + 1])), q)
  {
    var a, b := Placed(node, order, Item(head, children[..i])), Placed(node, order, Item(head, children[..i + 1]));
    forall q
      ensures Has(b, q) <==> Has(a, q) || q in more
    {
      if node < q.s <= node + i {
        assert children[..i][q.s - node - 1] == children[..i + 1][q.s - node - 1];
      }
    }
  }
}
