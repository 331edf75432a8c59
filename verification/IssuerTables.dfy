/**
 The Issuer Service's four tables as values: the credential catalog, the holder registry, the
 issuance processes and the issued credentials with their status list. Every function here is what
 one critical section does to a table; the classes beside this file compute the same values in place.
 */
module IssuerTables {
  import opened Prelude
  import opened HolderKeys

  const MAX_CREDENTIAL_DEFINITIONS := 256
  const MAX_HOLDERS := 4096
  const MAX_REQUEST_CREDENTIALS := 16
  const MAX_PENDING_PROCESSES_PER_HOLDER := 8
  const MAX_PENDING_PROCESSES := 1024
  const MAX_TRACKED_REQUESTS: nat := 2048
  const STATUS_LIST_BITS: nat := 131_072

  // ---- Credential definitions ----

  datatype Definition = Definition(id: string, credentialType: string, format: string, validity: nat, createdAt: nat)

  datatype IssuerError = NotFound | Conflict | Full

  ghost predicate Names(catalog: seq<Definition>, id: string) {
    exists k :: 0 <= k < |catalog| && catalog[k].id == id
  }

  /** The definition at `k` is the first with this id. */
  ghost predicate FirstWith(catalog: seq<Definition>, id: string, k: nat) {
    k < |catalog| && catalog[k].id == id && forall i :: 0 <= i < k ==> catalog[i].id != id
  }

  /** The first definition with this id. */
  function Lookup(catalog: seq<Definition>, id: string): (r: Option<Definition>)
    ensures r.Some? <==> Names(catalog, id)
    ensures r.Some? ==> r.value in catalog && r.value.id == id
  {
    if catalog == [] then
      None
    else if catalog[0].id == id then
      Some(catalog[0])
    else
      var r := Lookup(catalog[1..], id);
      assert forall k :: 1 <= k < |catalog| ==> catalog[k] == catalog[1..][k - 1];
      r
  }

  function CreateDefinition(catalog: seq<Definition>, d: Definition): Result<seq<Definition>, IssuerError> {
    if Lookup(catalog, d.id).Some? then Err(Conflict)
    else if |catalog| >= MAX_CREDENTIAL_DEFINITIONS then Err(Full)
    else Ok(catalog + [d])
  }

  /** The first definition with the id of `d` replaced by `d`, its creation time kept. */
  function UpdateDefinition(catalog: seq<Definition>, d: Definition): (r: seq<Definition>)
    ensures |r| == |catalog|
    ensures forall k :: 0 <= k < |catalog| ==> r[k].id == catalog[k].id
    ensures forall k :: 0 <= k < |catalog| ==>
      r[k] == if FirstWith(catalog, d.id, k) then d.(createdAt := catalog[k].createdAt) else catalog[k]
  {
    assert forall k :: 1 <= k < |catalog| && catalog[0].id != d.id ==>
      (FirstWith(catalog, d.id, k) <==> FirstWith(catalog[1..], d.id, k - 1));
    if catalog == [] then
      []
    else if catalog[0].id == d.id then
      [d.(createdAt := catalog[0].createdAt)] + catalog[1..]
    else
      [catalog[0]] + UpdateDefinition(catalog[1..], d)
  }

  function WithoutDefinition(catalog: seq<Definition>, id: string): (r: seq<Definition>)
  {
    if catalog == [] then []
    else if catalog[0].id == id then WithoutDefinition(catalog[1..], id)
    else [catalog[0]] + WithoutDefinition(catalog[1..], id)
  }

  /** Removing one id keeps every other. */
  lemma {:induction false} WithoutKeepsOthers(catalog: seq<Definition>, id: string, other: string)
    ensures Names(WithoutDefinition(catalog, id), other) <==> Names(catalog, other) && other != id
  {
    if catalog != [] {
      var rest := catalog[1..];
      WithoutKeepsOthers(rest, id, other);
      var r := WithoutDefinition(rest, id);
      assert Names(catalog, other) <==> catalog[0].id == other || Names(rest, other) by {
        assert forall k :: 1 <= k < |catalog| ==> catalog[k] == rest[k - 1];
        assert forall k :: 0 <= k < |rest| ==> rest[k] == catalog[k + 1];
      }
      if catalog[0].id != id {
        var w := [catalog[0]] + r;
        assert Names(w, other) <==> catalog[0].id == other || Names(r, other) by {
          assert w[0] == catalog[0];
          assert forall k :: 1 <= k < |w| ==> w[k] == r[k - 1];
          assert forall k :: 0 <= k < |r| ==> r[k] == w[k + 1];
        }
      }
    }
  }

  // ---- Holders ----

  datatype HolderStatus = HolderPending | HolderApproved | HolderRejected

  datatype Holder = Holder(holderId: string, did: string, status: HolderStatus, createdAt: nat)

  datatype HolderApproval = Auto | Manual

  datatype Registry = Registry(holders: map<string, Holder>, byDid: map<string, string>, order: seq<string>)

  /** Two maps and an order that tell the same story, with one holder for each key. */
  ghost predicate RegistryOk(r: Registry) {
    && NoDup(r.order)
    && (forall id :: id in r.order <==> id in r.holders)
    && |r.order| == |r.holders| <= MAX_HOLDERS
    && (forall id :: id in r.holders ==> Indexed(r, id))
    && (forall key :: key in r.byDid ==>
         r.byDid[key] in r.holders && HolderKey(r.holders[r.byDid[key]].did) == key)
  }

  ghost predicate Indexed(r: Registry, id: string)
    requires id in r.holders
  {
    var key := HolderKey(r.holders[id].did);
    r.holders[id].holderId == id && key in r.byDid && r.byDid[key] == id
  }

  function ByDid(r: Registry, did: string): Option<Holder> {
    var key := HolderKey(did);
    if key in r.byDid && r.byDid[key] in r.holders then Some(r.holders[r.byDid[key]]) else None
  }

  function AddHolder(r: Registry, h: Holder): Result<Registry, IssuerError> {
    if h.holderId in r.holders then Err(Conflict)
    else if ByDid(r, h.did).Some? then Err(Conflict)
    else if |r.holders| >= MAX_HOLDERS then Err(Full)
    else Ok(Registry(r.holders[h.holderId := h], r.byDid[HolderKey(h.did) := h.holderId], r.order + [h.holderId]))
  }

  /** Looks the caller up, or registers it with the configured first status. */
  function AdmitHolder(r: Registry, mode: HolderApproval, did: string, newId: string, now: nat)
    : Result<(Registry, Holder), IssuerError>
  {
    match ByDid(r, did)
    case Some(h) => Ok((r, h))
    case None =>
      var h := Holder(newId, did, if mode.Auto? then HolderApproved else HolderPending, now);
      match AddHolder(r, h)
      case Ok(r') => Ok((r', h))
      case Err(e) => Err(e)
  }

  function SetHolderStatus(r: Registry, id: string, status: HolderStatus): Registry
    requires id in r.holders
  {
    r.(holders := r.holders[id := r.holders[id].(status := status)])
  }

  lemma AddHolderKeepsRegistry(r: Registry, h: Holder)
    requires RegistryOk(r) && AddHolder(r, h).Ok?
    ensures RegistryOk(AddHolder(r, h).value)
  {
    var r' := AddHolder(r, h).value;
    var key := HolderKey(h.did);
    assert key !in r.byDid;
    forall id | id in r'.holders
      ensures Indexed(r', id)
    {
      if id != h.holderId {
        assert Indexed(r, id);
      }
    }
    forall k | k in r'.byDid
      ensures r'.byDid[k] in r'.holders && HolderKey(r'.holders[r'.byDid[k]].did) == k
    {
      if k != key {
        assert r.byDid[k] != h.holderId;
      }
    }
    forall i, j | 0 <= i < j < |r'.order|
      ensures r'.order[i] != r'.order[j]
    {
      if j == |r.order| {
        assert r.order[i] in r.holders;
      }
    }
  }

  lemma AdmitHolderKeepsRegistry(r: Registry, mode: HolderApproval, did: string, newId: string, now: nat)
    requires RegistryOk(r) && AdmitHolder(r, mode, did, newId, now).Ok?
    ensures var (r', h) := AdmitHolder(r, mode, did, newId, now).value;
      && RegistryOk(r')
      && h.holderId in r'.holders && r'.holders[h.holderId] == h
      && HolderKey(h.did) == HolderKey(did)
      && (forall id :: id in r.holders ==> id in r'.holders && r'.holders[id] == r.holders[id])
  {
    match ByDid(r, did)
    case Some(h) =>
      assert Indexed(r, r.byDid[HolderKey(did)]);
    case None =>
      var h := Holder(newId, did, if mode.Auto? then HolderApproved else HolderPending, now);
      AddHolderKeepsRegistry(r, h);
  }

  lemma SetStatusKeepsRegistry(r: Registry, id: string, status: HolderStatus)
    requires RegistryOk(r) && id in r.holders
    ensures RegistryOk(SetHolderStatus(r, id, status))
  {
    var r' := SetHolderStatus(r, id, status);
    assert r'.holders.Keys == r.holders.Keys;
    forall x | x in r'.holders
      ensures Indexed(r', x)
    {
      assert Indexed(r, x);
    }
  }

  /** Every spelling that the key folds together finds the same record, and no other spelling does. */
  lemma OneHolderPerSpelling(r: Registry, a: string, b: string)
    requires RegistryOk(r)
    ensures SameSpelling(a, b) ==> ByDid(r, a) == ByDid(r, b)
    ensures ByDid(r, a).Some? && ByDid(r, a) == ByDid(r, b) ==> SameSpelling(a, b)
    ensures ByDid(r, a).Some? <==> exists id :: id in r.holders && SameSpelling(r.holders[id].did, a)
    ensures forall id :: id in r.holders && SameSpelling(r.holders[id].did, a) ==> ByDid(r, a) == Some(r.holders[id])
  {
    KeysAgree(a, b);
    forall id | id in r.holders
      ensures SameSpelling(r.holders[id].did, a) <==> HolderKey(r.holders[id].did) == HolderKey(a)
      ensures SameSpelling(r.holders[id].did, a) ==> ByDid(r, a) == Some(r.holders[id])
    {
      KeysAgree(r.holders[id].did, a);
      assert Indexed(r, id);
    }
    if ByDid(r, a).Some? {
      assert r.byDid[HolderKey(a)] in r.holders;
    }
  }

  // ---- Issuance processes ----

  datatype ProcessState = Submitted | Approved | Delivered | Errored | Rejected {
    predicate IsActive() { Submitted? || Approved? }

    predicate IsTerminal() { !IsActive() }
  }

  datatype Process = Process(
    id: string,
    state: ProcessState,
    holderId: string,
    holderDid: string,
    holderPid: string,
    definitions: seq<string>,
    errorDetail: Option<string>,
    createdAt: nat,
    stateTimestamp: nat,
    deliveryBearer: Option<string>,
    deliveryStarted: bool)

  datatype RequestLog = RequestLog(records: map<string, Process>, order: seq<string>)

  datatype TableFull = TableFull

  ghost predicate LogOk(log: RequestLog) {
    && NoDup(log.order)
    && (forall id :: id in log.order <==> id in log.records)
    && |log.order| == |log.records|
    && (forall id :: id in log.records ==> log.records[id].id == id)
  }

  /** Whether the entry at a position of the order may be evicted. */
  predicate Evictable(log: RequestLog, id: string) {
    id !in log.records || log.records[id].state.IsTerminal()
  }

  /** The oldest evictable position from `k` on. */
  function OldestEvictable(log: RequestLog, k: nat): (r: Option<nat>)
    requires k <= |log.order|
    ensures r.Some? ==> k <= r.value < |log.order| && Evictable(log, log.order[r.value])
    ensures r.Some? ==> forall i :: k <= i < r.value ==> !Evictable(log, log.order[i])
    ensures r.None? ==> forall i :: k <= i < |log.order| ==> !Evictable(log, log.order[i])
    decreases |log.order| - k
  {
    if k == |log.order| then None
    else if Evictable(log, log.order[k]) then Some(k)
    else OldestEvictable(log, k + 1)
  }

  function Evicted(log: RequestLog, k: nat): RequestLog
    requires k < |log.order|
  {
    RequestLog(log.records - {log.order[k]}, Dropping(log.order, k))
  }

  function Track(log: RequestLog, capacity: nat, id: string, p: Process): Result<RequestLog, TableFull>
    decreases |log.order|
  {
    if |log.records| < capacity then
      Ok(RequestLog(log.records[id := p], log.order + [id]))
    else
      match OldestEvictable(log, 0)
      case None => Err(TableFull)
      case Some(k) => Track(Evicted(log, k), capacity, id, p)
  }

  lemma EvictedOk(log: RequestLog, k: nat)
    requires LogOk(log) && k < |log.order|
    ensures LogOk(Evicted(log, k)) && |Evicted(log, k).records| == |log.records| - 1
  {
    DroppingNoDup(log.order, k);
    var id := log.order[k];
    assert id in log.records;
    assert (log.records - {id}).Keys == log.records.Keys - {id};
    assert |log.records.Keys| == |log.records|;
    assert |(log.records - {id}).Keys| == |log.records - {id}|;
  }

  lemma AppendedOk(log: RequestLog, id: string, p: Process)
    requires LogOk(log) && id !in log.records && p.id == id
    ensures LogOk(RequestLog(log.records[id := p], log.order + [id]))
  {
    assert log.records[id := p].Keys == log.records.Keys + {id};
  }

  /** The processes of the log, oldest first. */
  ghost function Rows(log: RequestLog): (rows: seq<Process>)
    requires LogOk(log)
    ensures |rows| == |log.order|
    ensures forall i :: 0 <= i < |rows| ==> log.order[i] in log.records && rows[i] == log.records[log.order[i]]
  {
    assert forall i :: 0 <= i < |log.order| ==> log.order[i] in log.order;
    RowsAlong(log.records, log.order)
  }

  ghost function RowsAlong(records: map<string, Process>, order: seq<string>): (rows: seq<Process>)
    requires forall i :: 0 <= i < |order| ==> order[i] in records
    ensures |rows| == |order|
    ensures forall i :: 0 <= i < |rows| ==> rows[i] == records[order[i]]
  {
    if order == [] then
      []
    else
      RowsAlong(records, order[..|order| - 1]) + [records[order[|order| - 1]]]
  }

  /** The first row no one waits for. */
  ghost predicate FirstTerminal(rows: seq<Process>, k: nat) {
    && k < |rows| && rows[k].state.IsTerminal()
    && forall i :: 0 <= i < k ==> rows[i].state.IsActive()
  }

  /**
   Inserting into the arrival-ordered sequence: below capacity the row is appended; at capacity the
   oldest terminal row makes room; the row is refused exactly when every row is active.
   */
  lemma TrackRefinesSequence(log: RequestLog, capacity: nat, id: string, p: Process)
    requires LogOk(log) && |log.records| <= capacity && id !in log.records && p.id == id
    ensures var r := Track(log, capacity, id, p);
      && (r.Err? <==> |Rows(log)| == capacity && forall i :: 0 <= i < |Rows(log)| ==> Rows(log)[i].state.IsActive())
      && (r.Ok? ==> LogOk(r.value) && |r.value.records| <= capacity)
      && (r.Ok? && |Rows(log)| < capacity ==> Rows(r.value) == Rows(log) + [p])
      && (r.Ok? && |Rows(log)| == capacity ==>
           exists k :: FirstTerminal(Rows(log), k) && Rows(r.value) == Dropping(Rows(log), k) + [p])
  {
    if |log.records| < capacity {
      TrackWithRoom(log, capacity, id, p);
    } else {
      TrackWhenFull(log, capacity, id, p);
      if k: nat :| OldestEvictable(log, 0) == Some(k) {
        assert FirstTerminal(Rows(log), k);
      }
    }
  }

  lemma TrackWithRoom(log: RequestLog, capacity: nat, id: string, p: Process)
    requires LogOk(log) && |log.records| < capacity && id !in log.records && p.id == id
    ensures var log' := RequestLog(log.records[id := p], log.order + [id]);
      && Track(log, capacity, id, p) == Ok(log')
      && LogOk(log') && |log'.records| <= capacity
      && Rows(log') == Rows(log) + [p]
  {
    AppendedOk(log, id, p);
    AddSize(log.records, id, p);
    RowsOneMore(log, id, p);
  }

  lemma RowsOneMore(log: RequestLog, id: string, p: Process)
    requires LogOk(log) && id !in log.records && LogOk(RequestLog(log.records[id := p], log.order + [id]))
    ensures Rows(RequestLog(log.records[id := p], log.order + [id])) == Rows(log) + [p]
  {
    assert forall i :: 0 <= i < |log.order| ==> log.order[i] in log.order;
    RowsAppended(log.records, log.order, id, p);
  }

  lemma TrackWhenFull(log: RequestLog, capacity: nat, id: string, p: Process)
    requires LogOk(log) && |log.records| == capacity && id !in log.records && p.id == id
    ensures match OldestEvictable(log, 0)
      case None =>
        Track(log, capacity, id, p).Err? && forall i :: 0 <= i < |Rows(log)| ==> Rows(log)[i].state.IsActive()
      case Some(k) =>
        var log' := RequestLog(Evicted(log, k).records[id := p], Evicted(log, k).order + [id]);
        && Track(log, capacity, id, p) == Ok(log')
        && LogOk(log') && |log'.records| == capacity
        && FirstTerminal(Rows(log), k) && Rows(log') == Dropping(Rows(log), k) + [p]
  {
    match OldestEvictable(log, 0)
    case None =>
      assert forall i :: 0 <= i < |log.order| ==> !Evictable(log, log.order[i]);
    case Some(k) =>
      EvictedOk(log, k);
      AppendedOk(Evicted(log, k), id, p);
      TrackAfterEviction(log, capacity, k, id, p);
      RowsAfterEviction(log, k, id, p);
      OldestIsFirstTerminal(log, k);
  }

  lemma OldestIsFirstTerminal(log: RequestLog, k: nat)
    requires LogOk(log) && OldestEvictable(log, 0) == Some(k)
    ensures FirstTerminal(Rows(log), k)
  {
    assert Evictable(log, log.order[k]);
    assert forall i :: 0 <= i < k ==> !Evictable(log, log.order[i]);
  }

  lemma RowsWithout(records: map<string, Process>, order: seq<string>, k: nat)
    requires k < |order| && NoDup(order)
    requires forall i :: 0 <= i < |order| ==> order[i] in records
    ensures forall i :: 0 <= i < |Dropping(order, k)| ==> Dropping(order, k)[i] in records - {order[k]}
    ensures RowsAlong(records - {order[k]}, Dropping(order, k)) == Dropping(RowsAlong(records, order), k)
  {
    var rest := Dropping(order, k);
    forall i | 0 <= i < |rest|
      ensures rest[i] == order[if i < k then i else i + 1] && rest[i] in records - {order[k]}
    {
    }
  }

  lemma RowsAppended(records: map<string, Process>, order: seq<string>, id: string, p: Process)
    requires forall i :: 0 <= i < |order| ==> order[i] in records
    requires id !in records
    ensures forall i :: 0 <= i < |order + [id]| ==> (order + [id])[i] in records[id := p]
    ensures RowsAlong(records[id := p], order + [id]) == RowsAlong(records, order) + [p]
  {
  }

  lemma RowsAfterEviction(log: RequestLog, k: nat, id: string, p: Process)
    requires LogOk(log) && k < |log.order| && id !in log.records && p.id == id
    requires LogOk(RequestLog(Evicted(log, k).records[id := p], Evicted(log, k).order + [id]))
    ensures Rows(RequestLog(Evicted(log, k).records[id := p], Evicted(log, k).order + [id]))
      == Dropping(Rows(log), k) + [p]
  {
    assert forall i :: 0 <= i < |log.order| ==> log.order[i] in log.order;
    RowsWithout(log.records, log.order, k);
    RowsAppended(Evicted(log, k).records, Evicted(log, k).order, id, p);
  }

  /** What an insertion can have done to the map of records. */
  ghost predicate Tracked(before: map<string, Process>, after: map<string, Process>, id: string, p: Process) {
    && id in after && after[id] == p
    && (forall x :: x in after && x != id ==> x in before && after[x] == before[x])
    && (forall x :: x in before && x !in after ==> before[x].state.IsTerminal())
  }

  lemma TrackEffect(log: RequestLog, capacity: nat, id: string, p: Process)
    requires LogOk(log) && |log.records| <= capacity && id !in log.records && p.id == id
    requires Track(log, capacity, id, p).Ok?
    ensures var log' := Track(log, capacity, id, p).value;
      LogOk(log') && |log'.records| <= capacity && Tracked(log.records, log'.records, id, p)
  {
    if |log.records| < capacity {
      TrackWithRoom(log, capacity, id, p);
    } else {
      TrackWhenFull(log, capacity, id, p);
      var k := OldestEvictable(log, 0).value;
      assert Evictable(log, log.order[k]);
      EvictedTracked(log.records, log.order[k], id, p);
    }
  }

  lemma EvictedTracked(records: map<string, Process>, gone: string, id: string, p: Process)
    requires gone in records ==> records[gone].state.IsTerminal()
    requires id !in records
    ensures Tracked(records, (records - {gone})[id := p], id, p)
  {
  }

  lemma TrackAfterEviction(log: RequestLog, capacity: nat, k: nat, id: string, p: Process)
    requires |log.records| >= capacity && OldestEvictable(log, 0) == Some(k)
    requires |Evicted(log, k).records| < capacity
    ensures Track(log, capacity, id, p)
      == Ok(RequestLog(Evicted(log, k).records[id := p], Evicted(log, k).order + [id]))
  {
  }

  // ---- Pending caps ----

  ghost function PendingIds(records: map<string, Process>): set<string> {
    set id | id in records && records[id].state.Submitted?
  }

  ghost function PendingIdsOf(records: map<string, Process>, holderId: string): set<string> {
    set id | id in records && records[id].state.Submitted? && records[id].holderId == holderId
  }

  /** The SUBMITTED processes among `ids`, and those of one holder. */
  ghost function PendingAmong(records: map<string, Process>, ids: seq<string>): set<string> {
    set id | id in ids && id in records && records[id].state.Submitted?
  }

  ghost function PendingAmongOf(records: map<string, Process>, ids: seq<string>, holderId: string): set<string> {
    set id | id in ids && id in records && records[id].state.Submitted? && records[id].holderId == holderId
  }

  lemma PendingNext(records: map<string, Process>, order: seq<string>, i: nat)
    requires i < |order| && NoDup(order) && order[i] in records
    ensures |PendingAmong(records, order[..i + 1])|
      == |PendingAmong(records, order[..i])| + if records[order[i]].state.Submitted? then 1 else 0
  {
    var id := order[i];
    assert order[..i + 1] == order[..i] + [id];
    assert id !in order[..i];
    var extra := if records[id].state.Submitted? then {id} else {};
    assert PendingAmong(records, order[..i + 1]) == PendingAmong(records, order[..i]) + extra;
  }

  lemma PendingNextOf(records: map<string, Process>, order: seq<string>, i: nat, holderId: string)
    requires i < |order| && NoDup(order) && order[i] in records
    ensures |PendingAmongOf(records, order[..i + 1], holderId)|
      == |PendingAmongOf(records, order[..i], holderId)|
         + if records[order[i]].state.Submitted? && records[order[i]].holderId == holderId then 1 else 0
  {
    var id := order[i];
    assert order[..i + 1] == order[..i] + [id];
    assert id !in order[..i];
    var mine := if records[id].state.Submitted? && records[id].holderId == holderId then {id} else {};
    assert PendingAmongOf(records, order[..i + 1], holderId) == PendingAmongOf(records, order[..i], holderId) + mine;
  }

  // ---- Changes made to one process or to all of a holder's ----

  /** Claiming: only a process still APPROVED is taken, and it is marked started. */
  function Claim(log: RequestLog, pid: string): Option<(RequestLog, Process)> {
    if pid in log.records && log.records[pid].state.Approved? then
      var p := log.records[pid].(deliveryStarted := true);
      Some((log.(records := log.records[pid := p]), p))
    else
      None
  }

  /** The last step of a delivery: DELIVERED without an error, ERRORED with one. */
  function Settle(log: RequestLog, pid: string, error: Option<string>, now: nat): RequestLog {
    if pid in log.records then
      log.(records := log.records[pid := log.records[pid].(
        state := if error.None? then Delivered else Errored, stateTimestamp := now, errorDetail := error)])
    else
      log
  }

  /** Where a decision moves the processes it reaches, and what it makes of the holder. */
  function Verdict(approve: bool): ProcessState {
    if approve then Approved else Rejected
  }

  function StatusAfter(approve: bool): HolderStatus {
    if approve then HolderApproved else HolderRejected
  }

  /** The processes an operator decision moves. */
  predicate Moves(p: Process, holderId: string, next: ProcessState) {
    && p.holderId == holderId
    && (p.state.Submitted? || (next.Rejected? && p.state.Approved? && !p.deliveryStarted))
  }

  function MovedIds(log: RequestLog, holderId: string, next: ProcessState): set<string> {
    set id | id in log.records && Moves(log.records[id], holderId, next)
  }

  function Decide(log: RequestLog, holderId: string, next: ProcessState, now: nat): RequestLog {
    log.(records := map id | id in log.records ::
      if Moves(log.records[id], holderId, next)
      then log.records[id].(state := next, stateTimestamp := now)
      else log.records[id])
  }

  /** A decision that has not reached the ids of `todo` yet. */
  ghost function DecidedSoFar(records: map<string, Process>, todo: set<string>, holderId: string, next: ProcessState,
                              now: nat)
    : map<string, Process>
  {
    map id | id in records ::
      if id !in todo && Moves(records[id], holderId, next)
      then records[id].(state := next, stateTimestamp := now)
      else records[id]
  }

  ghost function MovedSoFar(records: map<string, Process>, todo: set<string>, holderId: string,
                            next: ProcessState): set<string> {
    set id | id in records && id !in todo && Moves(records[id], holderId, next)
  }

  lemma DecideNext(records: map<string, Process>, todo: set<string>, id: string, holderId: string, next: ProcessState,
                   now: nat)
    requires id in todo && id in records
    ensures DecidedSoFar(records, todo, holderId, next, now)[id] == records[id]
    ensures var so := DecidedSoFar(records, todo, holderId, next, now);
      var moved := MovedSoFar(records, todo, holderId, next);
      && id !in moved
      && DecidedSoFar(records, todo - {id}, holderId, next, now)
           == (if Moves(records[id], holderId, next)
               then so[id := records[id].(state := next, stateTimestamp := now)] else so)
      && MovedSoFar(records, todo - {id}, holderId, next)
           == (if Moves(records[id], holderId, next) then moved + {id} else moved)
  {
  }

  lemma DecideStarts(records: map<string, Process>, holderId: string, next: ProcessState, now: nat)
    ensures DecidedSoFar(records, records.Keys, holderId, next, now) == records
    ensures MovedSoFar(records, records.Keys, holderId, next) == {}
  {
  }

  lemma DecideEnds(log: RequestLog, holderId: string, next: ProcessState, now: nat)
    ensures Decide(log, holderId, next, now) == log.(records := DecidedSoFar(log.records, {}, holderId, next, now))
    ensures MovedSoFar(log.records, {}, holderId, next) == MovedIds(log, holderId, next)
  {
    assert Decide(log, holderId, next, now).records == DecidedSoFar(log.records, {}, holderId, next, now);
  }

  lemma UpdateKeepsLog(log: RequestLog, id: string, p: Process)
    requires LogOk(log) && id in log.records && p.id == id
    ensures LogOk(log.(records := log.records[id := p]))
  {
    assert log.records[id := p].Keys == log.records.Keys;
  }

  lemma DecideKeepsLog(log: RequestLog, holderId: string, next: ProcessState, now: nat)
    requires LogOk(log)
    ensures LogOk(Decide(log, holderId, next, now))
  {
    assert Decide(log, holderId, next, now).records.Keys == log.records.Keys;
  }

  /** Whether an active process still needs a definition. */
  predicate InUse(log: RequestLog, id: string) {
    exists pid :: pid in log.records && log.records[pid].state.IsActive() && id in log.records[pid].definitions
  }

  // ---- The status list and the issued credentials ----

  datatype RecordStatus = Active | Revoked

  datatype Record = Record(
    id: string,
    credentialType: string,
    definitionId: string,
    holderId: string,
    holderDid: string,
    processId: string,
    format: string,
    issuedAt: nat,
    expiresAt: nat,
    status: RecordStatus,
    index: nat)

  /** A signed StatusList2021Credential: a function of the bits and the time of signing. */
  datatype StatusJwt = StatusJwt(bits: set<nat>, iat: nat)

  datatype StatusBits = StatusBits(next: nat, free: set<nat>, revoked: set<nat>, cached: Option<StatusJwt>)

  ghost function Allocate(list: StatusBits): (StatusBits, Option<nat>) {
    if list.free != {} then
      var i := Least(list.free);
      (list.(free := list.free - {i}), Some(i))
    else if list.next < STATUS_LIST_BITS then
      (list.(next := list.next + 1), Some(list.next))
    else
      (list, None)
  }

  function Release(list: StatusBits, i: nat): StatusBits {
    if i < list.next && i !in list.revoked then list.(free := list.free + {i}) else list
  }

  function ReleaseAll(list: StatusBits, indexes: seq<nat>): StatusBits
    decreases |indexes|
  {
    if indexes == [] then list else ReleaseAll(Release(list, indexes[0]), indexes[1..])
  }

  /** Setting a bit drops the cached JWT only when the bit changes. */
  function SetBit(list: StatusBits, i: nat): StatusBits {
    if i in list.revoked then list else list.(revoked := list.revoked + {i}, cached := None)
  }

  /** The public endpoint: the cached JWT, or a newly signed one that is then cached. */
  function ServeList(list: StatusBits, now: nat): (StatusBits, StatusJwt) {
    match list.cached
    case Some(jwt) => (list, jwt)
    case None => var jwt := StatusJwt(list.revoked, now); (list.(cached := Some(jwt)), jwt)
  }

  lemma {:induction false} ReleaseAllEffect(list: StatusBits, indexes: seq<nat>)
    requires forall k :: 0 <= k < |indexes| ==> indexes[k] < list.next && indexes[k] !in list.revoked
    ensures ReleaseAll(list, indexes) == list.(free := list.free + Elems(indexes))
    decreases |indexes|
  {
    if indexes == [] {
      assert list.free + Elems(indexes) == list.free;
    } else {
      var list' := Release(list, indexes[0]);
      assert forall k :: 0 <= k < |indexes[1..]| ==> indexes[1..][k] == indexes[k + 1];
      ReleaseAllEffect(list', indexes[1..]);
      assert indexes == [indexes[0]] + indexes[1..];
      assert list.free + Elems(indexes) == list'.free + Elems(indexes[1..]);
    }
  }

  datatype Issued = Issued(records: map<string, Record>, order: seq<string>, list: StatusBits)

  /** The order lists every record exactly once. */
  ghost predicate IssuedOk(issued: Issued) {
    && NoDup(issued.order)
    && (forall id :: id in issued.order <==> id in issued.records)
    && (forall id :: id in issued.records ==> issued.records[id].id == id)
  }

  function FileRecord(issued: Issued, r: Record): Issued {
    issued.(records := issued.records[r.id := r], order := issued.order + [r.id])
  }

  function FileRecords(issued: Issued, rs: seq<Record>): Issued
    decreases |rs|
  {
    if rs == [] then issued else FileRecords(FileRecord(issued, rs[0]), rs[1..])
  }

  function Revoke(issued: Issued, id: string): Issued {
    if id in issued.records then
      issued.(records := issued.records[id := issued.records[id].(status := Revoked)],
              list := SetBit(issued.list, issued.records[id].index))
    else
      issued
  }

  /** Filing records with new and distinct ids adds exactly those. */
  lemma {:induction false} FileRecordsEffect(issued: Issued, rs: seq<Record>)
    requires forall k :: 0 <= k < |rs| ==> rs[k].id !in issued.records
    requires forall i, j :: 0 <= i < j < |rs| ==> rs[i].id != rs[j].id
    ensures var after := FileRecords(issued, rs);
      && after.list == issued.list
      && (forall k :: 0 <= k < |rs| ==> rs[k].id in after.records && after.records[rs[k].id] == rs[k])
      && (forall id :: id in issued.records ==> id in after.records && after.records[id] == issued.records[id])
      && (forall id :: id in after.records ==> id in issued.records || exists k :: 0 <= k < |rs| && rs[k].id == id)
    decreases |rs|
  {
    if rs != [] {
      var mid, rest := FileRecord(issued, rs[0]), rs[1..];
      assert forall k :: 0 <= k < |rest| ==> rest[k] == rs[k + 1];
      FileRecordsEffect(mid, rest);
      var after := FileRecords(mid, rest);
      forall k | 0 <= k < |rs|
        ensures rs[k].id in after.records && after.records[rs[k].id] == rs[k]
      {
        if k > 0 {
          assert rest[k - 1] == rs[k];
        }
      }
      forall id | id in after.records && id !in issued.records
        ensures exists k :: 0 <= k < |rs| && rs[k].id == id
      {
        if id !in mid.records {
          var k :| 0 <= k < |rest| && rest[k].id == id;
          assert rs[k + 1].id == id;
        } else {
          assert rs[0].id == id;
        }
      }
    }
  }

  lemma FileRecordOk(issued: Issued, r: Record)
    requires IssuedOk(issued) && r.id !in issued.records
    ensures IssuedOk(FileRecord(issued, r))
  {
  }

  lemma {:induction false} FileRecordsOk(issued: Issued, rs: seq<Record>)
    requires IssuedOk(issued)
    requires forall k :: 0 <= k < |rs| ==> rs[k].id !in issued.records
    requires forall i, j :: 0 <= i < j < |rs| ==> rs[i].id != rs[j].id
    ensures IssuedOk(FileRecords(issued, rs))
    decreases |rs|
  {
    if rs != [] {
      FileRecordOk(issued, rs[0]);
      assert forall k :: 0 <= k < |rs[1..]| ==> rs[1..][k] == rs[k + 1];
      FileRecordsOk(FileRecord(issued, rs[0]), rs[1..]);
    }
  }

  // ---- The ids of one request ----

  /** The distinct ids of a message, first occurrence first. */
  function Distinct(ids: seq<string>): (r: seq<string>)
    ensures NoDup(r)
    ensures forall x :: x in r <==> x in ids
  {
    if ids == [] then
      []
    else
      var front, last := ids[..|ids| - 1], ids[|ids| - 1];
      var r := Distinct(front);
      assert ids == front + [last];
      if last in r then r else r + [last]
  }

  /** What the handler keeps: it stops one past the limit. */
  function RequestedIds(ids: seq<string>): seq<string> {
    var d := Distinct(ids);
    if |d| <= MAX_REQUEST_CREDENTIALS then d else d[..MAX_REQUEST_CREDENTIALS + 1]
  }

  /** A shorter message has the beginning of the longer one's distinct ids. */
  lemma {:induction false} DistinctGrows(ids: seq<string>, n: nat)
    requires n <= |ids|
    ensures Distinct(ids[..n]) <= Distinct(ids)
    decreases |ids| - n
  {
    if n < |ids| {
      DistinctGrows(ids, n + 1);
      assert ids[..n + 1][..n] == ids[..n];
      assert Distinct(ids[..n]) <= Distinct(ids[..n + 1]);
    } else {
      assert ids[..n] == ids;
    }
  }

  /** The distinct ids are in first-occurrence order. */
  lemma {:induction false} DistinctKeepsOrder(ids: seq<string>, i: nat, j: nat)
    requires i < j < |Distinct(ids)|
    ensures exists k :: 0 <= k < |ids| && ids[k] == Distinct(ids)[i] && Distinct(ids)[j] !in ids[..k + 1]
  {
    var front, last := ids[..|ids| - 1], ids[|ids| - 1];
    var r := Distinct(front);
    assert ids == front + [last];
    if j < |r| {
      DistinctKeepsOrder(front, i, j);
      var k :| 0 <= k < |front| && front[k] == r[i] && r[j] !in front[..k + 1];
      assert ids[k] == Distinct(ids)[i] && ids[..k + 1] == front[..k + 1];
    } else {
      assert Distinct(ids) == r + [last];
      assert r[i] in front;
      var k := Position(front, r[i]);
      assert last !in front;
      assert ids[k] == Distinct(ids)[i] && ids[..k + 1] == front[..k + 1];
    }
  }

  method CollectRequestedIds(ids: seq<string>) returns (requested: seq<string>)
    ensures requested == RequestedIds(ids)
  {
    requested := [];
    for n := 0 to |ids|
      invariant requested == Distinct(ids[..n])
      invariant |requested| <= MAX_REQUEST_CREDENTIALS
    {
      assert ids[..n + 1][..n] == ids[..n];
      if ids[n] !in requested {
        requested := requested + [ids[n]];
        DistinctGrows(ids, n + 1);
        if |requested| > MAX_REQUEST_CREDENTIALS {
          return;
        }
      }
    }
    assert ids[..|ids|] == ids;
  }

  // ---- All four tables ----

  datatype Tables = Tables(catalog: seq<Definition>, holders: Registry, requests: RequestLog, issued: Issued)

  datatype Reply = Created | BadRequest | Forbidden | Unavailable

  /** The critical section of the Credential Request API, under three locks. */
  ghost function AcceptRequest(
    t: Tables, mode: HolderApproval, did: string, holderPid: string, bearer: Option<string>,
    requested: seq<string>, newHolderId: string, pid: string, now: nat): (Tables, Reply)
  {
    if requested == [] || |requested| > MAX_REQUEST_CREDENTIALS then
      (t, BadRequest)
    else if exists id :: id in requested && Lookup(t.catalog, id).None? then
      (t, BadRequest)
    else
      match AdmitHolder(t.holders, mode, did, newHolderId, now)
      case Err(_) => (t, Unavailable)
      case Ok((holders, holder)) =>
        AcceptFrom(t.(holders := holders), holder, did, holderPid, bearer, requested, pid, now)
  }

  /** The rest of it, once the holder is known: refused, capped, or tracked. */
  ghost function AcceptFrom(
    t: Tables, holder: Holder, did: string, holderPid: string, bearer: Option<string>,
    requested: seq<string>, pid: string, now: nat): (Tables, Reply)
  {
    if holder.status.HolderRejected? then
      (t, Forbidden)
    else if holder.status.HolderPending? && AtPendingCap(t.requests, holder.holderId) then
      (t, Unavailable)
    else
      match Track(t.requests, MAX_TRACKED_REQUESTS, pid,
                  NewProcess(pid, holder, did, holderPid, bearer, requested, now))
      case Err(_) => (t, Unavailable)
      case Ok(log) => (t.(requests := log), Created)
  }

  ghost predicate AtPendingCap(log: RequestLog, holderId: string) {
    || |PendingIdsOf(log.records, holderId)| >= MAX_PENDING_PROCESSES_PER_HOLDER
    || |PendingIds(log.records)| >= MAX_PENDING_PROCESSES
  }

  function NewProcess(pid: string, holder: Holder, did: string, holderPid: string, bearer: Option<string>,
                      requested: seq<string>, now: nat): Process
  {
    Process(pid, if holder.status.HolderPending? then Submitted else Approved,
            holder.holderId, did, holderPid, requested, None, now, now, bearer, false)
  }

  const OID4VCI_HOLDER_PID: string := "oid4vci"

  function RedeemedProcess(pid: string, holderId: string, did: string, definitionId: string, now: nat): Process {
    Process(pid, Delivered, holderId, did, OID4VCI_HOLDER_PID, [definitionId], None, now, now, None, true)
  }

  /** A credential for `d`, minted under `index` for `holderDid`. */
  function Mint(credentialId: string, d: Definition, holderId: string, holderDid: string, pid: string, index: nat,
                now: nat): Record {
    Record(credentialId, d.credentialType, d.id, holderId, holderDid, pid, d.format, now, now + d.validity, Active,
           index)
  }
}
