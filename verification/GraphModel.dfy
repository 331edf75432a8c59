/**
 The credential graph as a set of quads. A stored item is a node with literal fields and one child
 node for each credential it lists; insertion order is an integer literal, since quads have none of
 their own. The fixed queries are given their meaning over the set.
 */
module GraphModel {
  import opened Prelude

  const MAX_CREDENTIAL_BATCHES: nat := 2048
  const MAX_ACCEPTED_OFFERS: nat := 2048

  datatype Kind = BatchKind | OfferKind

  datatype Class = CredentialBatch | AcceptedCredentialOffer | VerifiableCredential

  datatype Term = Blank(n: nat) | Type(c: Class) | Text(s: string) | Integer(i: nat)

  datatype Predicate =
    | RdfType | Order
    | BatchId | IssuerPid | HolderPid | Status | RejectionReason | HasCredential
    | OfferId | Issuer | OffersCredential
    | CredentialType | Format | Payload | CredentialId

  /** Every subject in this store is a blank node. */
  datatype Quad = Quad(s: nat, p: Predicate, o: Term)

  datatype Head =
    | BatchHead(id: string, issuerPid: string, holderPid: Option<string>, status: string,
                rejectionReason: Option<string>)
    | OfferHead(id: string, issuer: string)

  /** A payload is the text of its JSON value. */
  datatype Child =
    | Credential(credentialType: string, format: string, payload: string)
    | Offered(id: string, offeredType: Option<string>)

  datatype Item = Item(head: Head, children: seq<Child>)

  /** An item in the store: its node, the value of `ds:order`, and its children on the nodes that follow. */
  datatype Placed = Placed(node: nat, order: nat, item: Item)

  function KindOf(head: Head): Kind {
    if head.BatchHead? then BatchKind else OfferKind
  }

  function ClassOf(kind: Kind): Class {
    if kind.BatchKind? then CredentialBatch else AcceptedCredentialOffer
  }

  function LinkOf(kind: Kind): Predicate {
    if kind.BatchKind? then HasCredential else OffersCredential
  }

  predicate Fits(kind: Kind, child: Child) {
    if kind.BatchKind? then child.Credential? else child.Offered?
  }

  /** A batch lists credentials, an offer lists offered credentials. */
  predicate WellKinded(kind: Kind, item: Item) {
    KindOf(item.head) == kind && forall k :: 0 <= k < |item.children| ==> Fits(kind, item.children[k])
  }

  predicate Opt(v: Option<string>, o: Term) {
    v.Some? && o == Text(v.value)
  }

  predicate HeadHas(head: Head, order: nat, p: Predicate, o: Term) {
    match head
    case BatchHead(id, issuerPid, holderPid, status, reason) =>
      || (p == RdfType && o == Type(CredentialBatch))
      || (p == BatchId && o == Text(id))
      || (p == Order && o == Integer(order))
      || (p == IssuerPid && o == Text(issuerPid))
      || (p == Status && o == Text(status))
      || (p == HolderPid && Opt(holderPid, o))
      || (p == RejectionReason && Opt(reason, o))
    case OfferHead(id, issuer) =>
      || (p == RdfType && o == Type(AcceptedCredentialOffer))
      || (p == OfferId && o == Text(id))
      || (p == Order && o == Integer(order))
      || (p == Issuer && o == Text(issuer))
  }

  predicate ChildHas(child: Child, k: nat, p: Predicate, o: Term) {
    match child
    case Credential(credentialType, format, payload) =>
      || (p == RdfType && o == Type(VerifiableCredential))
      || (p == Order && o == Integer(k))
      || (p == CredentialType && o == Text(credentialType))
      || (p == Format && o == Text(format))
      || (p == Payload && o == Text(payload))
    case Offered(id, offeredType) =>
      || (p == Order && o == Integer(k))
      || (p == CredentialId && o == Text(id))
      || (p == CredentialType && Opt(offeredType, o))
  }

  /** Whether a quad belongs to a placed item, its own node's or one of its children's. */
  predicate Has(p: Placed, q: Quad) {
    if q.s == p.node then
      || HeadHas(p.item.head, p.order, q.p, q.o)
      || (q.p == LinkOf(KindOf(p.item.head)) && q.o.Blank? && p.node < q.o.n <= p.node + |p.item.children|)
    else if p.node < q.s <= p.node + |p.item.children| then
      ChildHas(p.item.children[q.s - p.node - 1], q.s - p.node - 1, q.p, q.o)
    else
      false
  }

  ghost predicate In(log: seq<Placed>, q: Quad) {
    exists i :: 0 <= i < |log| && Has(log[i], q)
  }

  /** One after another: nodes do not overlap and orders increase. */
  ghost predicate Ascending(log: seq<Placed>) {
    forall i, j :: 0 <= i < j < |log| ==>
      log[i].node + |log[i].item.children| < log[j].node && log[i].order < log[j].order
  }

  predicate Apart(a: Placed, b: Placed) {
    (a.node + |a.item.children| < b.node || b.node + |b.item.children| < a.node) && a.order != b.order
  }

  ghost predicate Separate(a: seq<Placed>, b: seq<Placed>) {
    forall i, j :: 0 <= i < |a| && 0 <= j < |b| ==> Apart(a[i], b[j])
  }

  ghost predicate LogOk(kind: Kind, log: seq<Placed>) {
    Ascending(log) && forall i :: 0 <= i < |log| ==> WellKinded(kind, log[i].item)
  }

  // ---- What the queries mean ----

  datatype ChildRow = ChildRow(node: nat, order: nat, child: Child)

  /** One solution of the query behind `batches` or `offers`. */
  datatype Row = Row(node: nat, order: nat, head: Head, child: Option<ChildRow>)

  /** An OPTIONAL pattern with one variable: bound to a value there is, or unbound when there is none. */
  ghost predicate Optionally(quads: set<Quad>, s: nat, p: Predicate, v: Option<string>) {
    match v
    case Some(text) => Quad(s, p, Text(text)) in quads
    case None => forall o :: Quad(s, p, o) !in quads
  }

  ghost predicate HeadMatches(quads: set<Quad>, node: nat, order: nat, head: Head) {
    match head
    case BatchHead(id, issuerPid, holderPid, status, reason) =>
      && Quad(node, Order, Integer(order)) in quads
      && Quad(node, BatchId, Text(id)) in quads
      && Quad(node, IssuerPid, Text(issuerPid)) in quads
      && Quad(node, Status, Text(status)) in quads
      && Optionally(quads, node, HolderPid, holderPid)
      && Optionally(quads, node, RejectionReason, reason)
    case OfferHead(id, issuer) =>
      && Quad(node, Order, Integer(order)) in quads
      && Quad(node, OfferId, Text(id)) in quads
      && Quad(node, Issuer, Text(issuer)) in quads
  }

  ghost predicate ChildMatches(quads: set<Quad>, node: nat, row: ChildRow) {
    match row.child
    case Credential(credentialType, format, payload) =>
      && Quad(node, HasCredential, Blank(row.node)) in quads
      && Quad(row.node, Order, Integer(row.order)) in quads
      && Quad(row.node, CredentialType, Text(credentialType)) in quads
      && Quad(row.node, Format, Text(format)) in quads
      && Quad(row.node, Payload, Text(payload)) in quads
    case Offered(id, offeredType) =>
      && Quad(node, OffersCredential, Blank(row.node)) in quads
      && Quad(row.node, Order, Integer(row.order)) in quads
      && Quad(row.node, CredentialId, Text(id)) in quads
      && Optionally(quads, row.node, CredentialType, offeredType)
  }

  ghost predicate Solution(quads: set<Quad>, kind: Kind, row: Row) {
    && KindOf(row.head) == kind
    && HeadMatches(quads, row.node, row.order, row.head)
    && match row.child
       case Some(c) => Fits(kind, c.child) && ChildMatches(quads, row.node, c)
       case None => forall c: ChildRow :: Fits(kind, c.child) ==> !ChildMatches(quads, row.node, c)
  }

  /** `ORDER BY`: by the item's order, then by the child's; unbound sorts first. */
  predicate RowLess(a: Row, b: Row) {
    || a.order < b.order
    || (a.order == b.order && b.child.Some? && (a.child.None? || a.child.value.order < b.child.value.order))
  }

  predicate RowSorted(rows: seq<Row>) {
    forall i, j :: 0 <= i < j < |rows| ==> !RowLess(rows[j], rows[i])
  }

  /** Every answer a query engine may give: each solution once, in the order asked for. */
  ghost predicate Answers(quads: set<Quad>, kind: Kind, rows: seq<Row>) {
    && NoDup(rows) && RowSorted(rows)
    && forall row :: row in rows <==> Solution(quads, kind, row)
  }

  function NodesOf(quads: set<Quad>, cls: Class): set<nat> {
    set q | q in quads && q.p == RdfType && q.o == Type(cls) :: q.s
  }

  predicate IsOrder(q: Quad) {
    q.p == Order && q.o.Integer?
  }

  /** `ORDER BY ASC(?order) LIMIT n` over the nodes of a class: n of them, and none left out is older. */
  predicate Oldest(quads: set<Quad>, cls: Class, n: nat, picked: set<nat>) {
    && picked <= NodesOf(quads, cls) && |picked| == n
    && forall q, r :: q in quads && r in quads && IsOrder(q) && IsOrder(r) ==>
         (q.s in picked && r.s in NodesOf(quads, cls) && r.s !in picked ==> q.o.i <= r.o.i)
  }

  /** `DELETE` of every quad of the picked nodes and of what their links point at. */
  function Without(quads: set<Quad>, link: Predicate, picked: set<nat>): set<Quad> {
    set q | q in quads && q.s !in picked && !PointedAt(quads, link, picked, q.s)
  }

  predicate PointedAt(quads: set<Quad>, link: Predicate, picked: set<nat>, n: nat) {
    exists l :: l in quads && l.s in picked && l.p == link && l.o == Blank(n)
  }

  // ---- The plain list ----

  function Items(log: seq<Placed>): (items: seq<Item>)
    ensures |items| == |log|
    ensures forall i :: 0 <= i < |log| ==> items[i] == log[i].item
  {
    if log == [] then [] else Items(log[..|log| - 1]) + [log[|log| - 1].item]
  }

  const ISSUED: string := "ISSUED"

  /** The plain list's answer: the credentials of the wanted types in the ISSUED batches, in order. */
  function Wanted(items: seq<Item>, types: seq<string>): seq<Child> {
    if items == [] then
      []
    else
      var last := items[|items| - 1];
      Wanted(items[..|items| - 1], types)
      + if last.head.BatchHead? && last.head.status == ISSUED then OfTypes(last.children, types) else []
  }

  function OfTypes(children: seq<Child>, types: seq<string>): seq<Child> {
    if children == [] then
      []
    else
      var last := children[|children| - 1];
      OfTypes(children[..|children| - 1], types)
      + if last.Credential? && last.credentialType in types then [last] else []
  }
}
