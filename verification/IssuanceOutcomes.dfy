/**
 What one step of the issuance protocol answers and changes, exactly: who is let in, with which first
 status, when a request is refused and how, and what a process or a record then says.
 */
module IssuanceOutcomes {
  import opened Prelude
  import opened HolderKeys
  import opened IssuerTables
  import opened Protocol
  import opened IssuanceInvariant
  import opened IssuanceSteps
  import opened IssuanceTheorems

  // ---- Holders ----

  /** The registered holder a DID belongs to. */
  ghost predicate BelongsTo(r: Registry, did: string, id: string) {
    id in r.holders && SameSpelling(r.holders[id].did, did)
  }

  ghost predicate IsUnknown(r: Registry, did: string) {
    forall id :: !BelongsTo(r, did, id)
  }

  /** There is no place for a new holder: its id is taken, or 4096 are registered. */
  ghost predicate NoPlace(r: Registry, newId: string) {
    newId in r.holders || |r.holders| >= 4096
  }

  /** A caller of an unknown DID starts out APPROVED in Auto mode and PENDING in Manual mode; no one else changes. */
  ghost predicate Admits(r: Registry, mode: HolderApproval, did: string, newId: string, now: nat, r': Registry) {
    && newId in r'.holders
    && r'.holders[newId] == Holder(newId, did, if mode.Manual? then HolderPending else HolderApproved, now)
    && (forall id :: id != newId ==> (id in r'.holders <==> id in r.holders))
    && (forall id :: id in r.holders && id != newId ==> r'.holders[id] == r.holders[id])
  }

  lemma AdmissionOutcome(r: Registry, mode: HolderApproval, did: string, newId: string, now: nat)
    requires RegistryOk(r)
    ensures var a := AdmitHolder(r, mode, did, newId, now);
      && (a.Err? <==> IsUnknown(r, did) && NoPlace(r, newId))
      && (a.Ok? && !IsUnknown(r, did) ==> a.value.0 == r && BelongsTo(r, did, a.value.1.holderId)
                                          && a.value.1 == r.holders[a.value.1.holderId])
      && (a.Ok? && IsUnknown(r, did) ==> Admits(r, mode, did, newId, now, a.value.0)
                                         && a.value.1 == a.value.0.holders[newId])
  {
    OneHolderPerSpelling(r, did, did);
    if !IsUnknown(r, did) {
      var id :| BelongsTo(r, did, id);
      assert Indexed(r, id);
    }
    if ByDid(r, did).Some? {
      var id :| id in r.holders && SameSpelling(r.holders[id].did, did);
      assert BelongsTo(r, did, id);
    }
  }

  /** An operator registers a holder as APPROVED, unless its id or DID is taken or the registry is full. */
  lemma RegistrationOutcome(h: Hub, holder: Holder)
    requires Inv(h)
    ensures var h' := RegisterStep(h, holder);
      if NoPlace(h.t.holders, holder.holderId) || !IsUnknown(h.t.holders, holder.did) then h' == h
      else
        && h' == h.(t := h.t.(holders := h'.t.holders))
        && holder.holderId in h'.t.holders.holders
        && h'.t.holders.holders[holder.holderId] == holder.(status := HolderApproved)
        && forall id :: id in h.t.holders.holders ==>
             id in h'.t.holders.holders && h'.t.holders.holders[id] == h.t.holders.holders[id]
  {
    assert Sat(TheTables, h);
    UnknownMeans(h.t.holders, holder.did);
  }

  lemma UnknownMeans(r: Registry, did: string)
    requires RegistryOk(r)
    ensures IsUnknown(r, did) <==> ByDid(r, did).None?
  {
    OneHolderPerSpelling(r, did, did);
    if ByDid(r, did).Some? {
      var id :| id in r.holders && SameSpelling(r.holders[id].did, did);
      assert BelongsTo(r, did, id);
    }
    if !IsUnknown(r, did) {
      var id :| BelongsTo(r, did, id);
      assert id in r.holders && SameSpelling(r.holders[id].did, did);
    }
  }

  /** A decision changes the status of the one holder it names, to APPROVED or REJECTED. */
  lemma DecisionOutcome(h: Hub, holderId: string, approve: bool, moved: seq<string>, now: nat)
    ensures var before, after := h.t.holders.holders, DecideStep(h, holderId, approve, moved, now).t.holders.holders;
      && after.Keys == before.Keys
      && (forall id :: id in before && id != holderId ==> after[id] == before[id])
      && (holderId in before ==>
           after[holderId] == before[holderId].(status := if approve then HolderApproved else HolderRejected))
  {
  }

  /** The processes a decision on a holder reaches: what waits for it, and on a rejection what has not been started. */
  ghost predicate Reached(p: Process, holderId: string, approve: bool) {
    p.holderId == holderId && (p.state.Submitted? || (!approve && p.state.Approved? && !p.deliveryStarted))
  }

  /**
   A decision moves the processes it reaches, and those only, and an approval queues one delivery for each,
   in the order the events name them.
   */
  lemma DecisionReaches(h: Hub, holderId: string, approve: bool, moved: seq<string>, now: nat)
    requires Enabled(h, DecideHolder(holderId, approve, moved, now)) && holderId in h.t.holders.holders
    ensures var h', before := DecideStep(h, holderId, approve, moved, now), h.t.requests.records;
      var after := h'.t.requests.records;
      && after.Keys == before.Keys && h'.t.requests.order == h.t.requests.order
      && (forall pid :: pid in before ==>
           after[pid] == if Reached(before[pid], holderId, approve)
                         then before[pid].(state := if approve then Approved else Rejected, stateTimestamp := now)
                         else before[pid])
      && (forall pid :: pid in moved <==> pid in before && Reached(before[pid], holderId, approve))
      && |h'.tasks| == |h.tasks| + (if approve then |moved| else 0)
      && (forall i :: 0 <= i < |h.tasks| ==> h'.tasks[i] == h.tasks[i])
      && (forall k :: 0 <= k < |moved| && approve ==> h'.tasks[|h.tasks| + k] == Delivery(moved[k], Queued))
  {
    var h' := DecideStep(h, holderId, approve, moved, now);
    assert h'.t.requests == Decide(h.t.requests, holderId, Verdict(approve), now);
    assert forall pid :: pid in moved <==> pid in Elems(moved);
  }

  // ---- Credential Requests ----

  /** A message the Credential Request API refuses outright. */
  ghost predicate Malformed(h: Hub, ids: seq<string>) {
    || Distinct(ids) == [] || |Distinct(ids)| > 16
    || exists id :: id in ids && !Names(h.t.catalog, id)
  }

  /** The caller's holder as it stands when its request is judged. */
  ghost function Standing(h: Hub, did: string): Option<HolderStatus> {
    match ByDid(h.t.holders, did)
    case None => None
    case Some(holder) => Some(holder.status)
  }

  ghost predicate WouldWait(h: Hub, did: string) {
    Standing(h, did) == Some(HolderPending) || (Standing(h, did).None? && h.mode.Manual?)
  }

  /** The holder id a request is filed under. */
  ghost function Filer(h: Hub, did: string, newHolderId: string): string {
    match ByDid(h.t.holders, did)
    case None => newHolderId
    case Some(holder) => holder.holderId
  }

  /** The process waits for an operator. */
  ghost predicate Waits(h: Hub, pid: string) {
    pid in h.t.requests.records && h.t.requests.records[pid].state == Submitted
  }

  ghost predicate WaitsFor(h: Hub, pid: string, holderId: string) {
    Waits(h, pid) && h.t.requests.records[pid].holderId == holderId
  }

  /** Eight processes of the holder wait already, or 1024 in all. */
  ghost predicate TooManyWait(h: Hub, holderId: string) {
    || (exists pids: set<string> :: |pids| >= 8 && forall pid :: pid in pids ==> WaitsFor(h, pid, holderId))
    || (exists pids: set<string> :: |pids| >= 1024 && forall pid :: pid in pids ==> Waits(h, pid))
  }

  lemma CapMeans(h: Hub, holderId: string)
    ensures AtPendingCap(h.t.requests, holderId) <==> TooManyWait(h, holderId)
  {
    var records := h.t.requests.records;
    var mine, all := PendingIdsOf(records, holderId), PendingIds(records);
    assert forall pid :: pid in mine ==> WaitsFor(h, pid, holderId);
    assert forall pid :: pid in all ==> Waits(h, pid);
    forall pids: set<string> | forall pid :: pid in pids ==> WaitsFor(h, pid, holderId)
      ensures |pids| <= |mine|
    {
      SubsetCardinality(pids, mine);
    }
    forall pids: set<string> | forall pid :: pid in pids ==> Waits(h, pid)
      ensures |pids| <= |all|
    {
      SubsetCardinality(pids, all);
    }
  }

  /** In no state of any run do more than 8 processes of one holder wait, nor more than 1024 in all. */
  lemma WaitingIsBounded(h: Hub, holderId: string, pids: set<string>)
    requires Reachable(h) && forall pid :: pid in pids ==> Waits(h, pid)
    ensures |pids| <= 1024
    ensures (forall pid :: pid in pids ==> WaitsFor(h, pid, holderId)) ==> |pids| <= 8
  {
    RequestTableIsBounded(h, holderId);
    SubsetCardinality(pids, PendingIds(h.t.requests.records));
    if forall pid :: pid in pids ==> WaitsFor(h, pid, holderId) {
      SubsetCardinality(pids, PendingIdsOf(h.t.requests.records, holderId));
    }
  }

  /** All 2048 processes are SUBMITTED or APPROVED. */
  ghost predicate AllActive(h: Hub) {
    && |h.t.requests.records| == 2048
    && forall pid :: pid in h.t.requests.records ==> h.t.requests.records[pid].state.IsActive()
  }

  ghost predicate Busy(h: Hub, did: string, newHolderId: string) {
    || (Standing(h, did).None? && NoPlace(h.t.holders, newHolderId))
    || (WouldWait(h, did) && TooManyWait(h, Filer(h, did, newHolderId)))
    || AllActive(h)
  }

  lemma MalformedMeans(h: Hub, ids: seq<string>)
    ensures var requested := RequestedIds(ids);
      Malformed(h, ids) <==>
        || requested == [] || |requested| > MAX_REQUEST_CREDENTIALS
        || exists id :: id in requested && Lookup(h.t.catalog, id).None?
  {
    var requested, d := RequestedIds(ids), Distinct(ids);
    if |d| <= MAX_REQUEST_CREDENTIALS {
      assert forall id :: id in ids <==> id in requested;
    }
  }

  lemma TableIsFull(h: Hub, pid: string, p: Process)
    requires LogOk(h.t.requests) && |h.t.requests.records| <= MAX_TRACKED_REQUESTS
    requires pid !in h.t.requests.records && p.id == pid
    ensures Track(h.t.requests, MAX_TRACKED_REQUESTS, pid, p).Err? <==> AllActive(h)
  {
    TrackRefinesSequence(h.t.requests, MAX_TRACKED_REQUESTS, pid, p);
    RowsAreRecords(h.t.requests);
  }

  lemma RowsAreRecords(log: RequestLog)
    requires LogOk(log)
    ensures (forall i :: 0 <= i < |Rows(log)| ==> Rows(log)[i].state.IsActive())
      <==> (forall x :: x in log.records ==> log.records[x].state.IsActive())
    ensures |Rows(log)| == |log.records|
  {
    if forall i :: 0 <= i < |Rows(log)| ==> Rows(log)[i].state.IsActive() {
      forall x | x in log.records
        ensures log.records[x].state.IsActive()
      {
        assert Rows(log)[Position(log.order, x)] == log.records[x];
      }
    }
  }

  /**
   How a Credential Request is answered. A malformed message is a bad request; a rejected holder is
   forbidden; a full registry, too many waiting processes or a table of active ones make the service
   unavailable; and every other request is accepted.
   */
  lemma RequestOutcome(h: Hub, did: string, holderPid: string, bearer: Option<string>, ids: seq<string>,
                       newHolderId: string, pid: string, now: nat)
    requires Inv(h) && pid !in h.minted
    ensures var reply := AcceptRequest(h.t, h.mode, did, holderPid, bearer, RequestedIds(ids), newHolderId, pid, now).1;
      && (reply.BadRequest? <==> Malformed(h, ids))
      && (reply.Forbidden? <==> !Malformed(h, ids) && Standing(h, did) == Some(HolderRejected))
      && (reply.Unavailable? <==>
           !Malformed(h, ids) && Standing(h, did) != Some(HolderRejected) && Busy(h, did, newHolderId))
  {
    MalformedMeans(h, ids);
    if !Malformed(h, ids) {
      JudgedRequest(h, did, holderPid, bearer, ids, newHolderId, pid, now);
    }
  }

  lemma JudgedRequest(h: Hub, did: string, holderPid: string, bearer: Option<string>, ids: seq<string>,
                      newHolderId: string, pid: string, now: nat)
    requires Inv(h) && pid !in h.minted && !Malformed(h, ids)
    ensures var reply := AcceptRequest(h.t, h.mode, did, holderPid, bearer, RequestedIds(ids), newHolderId, pid, now).1;
      && !reply.BadRequest?
      && (reply.Forbidden? <==> Standing(h, did) == Some(HolderRejected))
      && (reply.Unavailable? <==> Standing(h, did) != Some(HolderRejected) && Busy(h, did, newHolderId))
  {
    assert Sat(TheTables, h);
    var requested := RequestedIds(ids);
    MalformedMeans(h, ids);
    AdmissionOutcome(h.t.holders, h.mode, did, newHolderId, now);
    UnknownMeans(h.t.holders, did);
    ProcessesAreMinted(h);
    if AdmitHolder(h.t.holders, h.mode, did, newHolderId, now).Ok? {
      var (holders, holder) := AdmitHolder(h.t.holders, h.mode, did, newHolderId, now).value;
      TableIsFull(h, pid, NewProcess(pid, holder, did, holderPid, bearer, requested, now));
      JudgedOutcome(h, holders, holder, did, holderPid, bearer, requested, newHolderId, pid, now);
    }
  }

  lemma JudgedOutcome(h: Hub, holders: Registry, holder: Holder, did: string, holderPid: string, bearer: Option<string>,
                      requested: seq<string>, newHolderId: string, pid: string, now: nat)
    requires AdmitHolder(h.t.holders, h.mode, did, newHolderId, now) == Ok((holders, holder))
    requires var p := NewProcess(pid, holder, did, holderPid, bearer, requested, now);
      Track(h.t.requests, MAX_TRACKED_REQUESTS, pid, p).Err? <==> AllActive(h)
    ensures holder.status.HolderPending? <==> WouldWait(h, did)
    ensures var t := h.t.(holders := holders);
      var reply := AcceptFrom(t, holder, did, holderPid, bearer, requested, pid, now).1;
      && !reply.BadRequest?
      && (reply.Forbidden? <==> Standing(h, did) == Some(HolderRejected))
      && (reply.Unavailable? <==>
           && Standing(h, did) != Some(HolderRejected)
           && ((WouldWait(h, did) && TooManyWait(h, Filer(h, did, newHolderId))) || AllActive(h)))
  {
    CapMeans(h, holder.holderId);
  }

  /** The process an accepted request leaves, field by field, and who is known afterwards. */
  lemma AcceptedOutcome(h: Hub, did: string, holderPid: string, bearer: Option<string>, ids: seq<string>,
                        newHolderId: string, pid: string, now: nat)
    requires Inv(h) && pid !in h.minted
    requires AcceptRequest(h.t, h.mode, did, holderPid, bearer, RequestedIds(ids), newHolderId, pid, now).1.Created?
    ensures var h' := RequestStep(h, did, holderPid, bearer, ids, newHolderId, pid, now);
      && pid in h'.t.requests.records
      && h'.t.requests.records[pid]
         == Process(pid, if WouldWait(h, did) then Submitted else Approved, Filer(h, did, newHolderId), did, holderPid,
                    Distinct(ids), None, now, now, bearer, false)
      && (WouldWait(h, did) ==> h'.tasks == h.tasks)
      && (!WouldWait(h, did) ==> h'.tasks == h.tasks + [Delivery(pid, Queued)])
      && (if IsUnknown(h.t.holders, did) then Admits(h.t.holders, h.mode, did, newHolderId, now, h'.t.holders)
          else h'.t.holders == h.t.holders)
  {
    assert Sat(TheTables, h);
    AdmissionOutcome(h.t.holders, h.mode, did, newHolderId, now);
    UnknownMeans(h.t.holders, did);
    AcceptedTables(h, did, holderPid, bearer, ids, newHolderId, pid, now);
  }

  lemma AcceptedTables(h: Hub, did: string, holderPid: string, bearer: Option<string>, ids: seq<string>,
                       newHolderId: string, pid: string, now: nat)
    requires Inv(h) && pid !in h.minted
    requires AcceptRequest(h.t, h.mode, did, holderPid, bearer, RequestedIds(ids), newHolderId, pid, now).1.Created?
    ensures AdmitHolder(h.t.holders, h.mode, did, newHolderId, now).Ok?
    ensures var (holders, holder) := AdmitHolder(h.t.holders, h.mode, did, newHolderId, now).value;
      var p := NewProcess(pid, holder, did, holderPid, bearer, Distinct(ids), now);
      var h' := RequestStep(h, did, holderPid, bearer, ids, newHolderId, pid, now);
      && pid in h'.t.requests.records && h'.t.requests.records[pid] == p
      && h'.t.holders == holders
      && h'.tasks == h.tasks + (if p.state.Approved? then [Delivery(pid, Queued)] else [])
  {
    assert Sat(TheTables, h);
    var requested := RequestedIds(ids);
    RequestedFit(ids, requested);
    ProcessesAreMinted(h);
    var (holders, holder) := AdmitHolder(h.t.holders, h.mode, did, newHolderId, now).value;
    var p := NewProcess(pid, holder, did, holderPid, bearer, requested, now);
    TrackEffect(h.t.requests, MAX_TRACKED_REQUESTS, pid, p);
    var log := Track(h.t.requests, MAX_TRACKED_REQUESTS, pid, p).value;
    var t := AcceptRequest(h.t, h.mode, did, holderPid, bearer, requested, newHolderId, pid, now).0;
    assert t == h.t.(holders := holders, requests := log);
    QueuedTask(h.(t := t, minted := h.minted + {pid}), pid);
  }

  lemma QueuedTask(h: Hub, pid: string)
    ensures Spawn(h, [pid]).tasks == h.tasks + [Delivery(pid, Queued)] && Spawn(h, [pid]).t == h.t
  {
  }

  // ---- The catalog ----

  /** An id at most once, and at most 256 definitions. */
  ghost predicate CatalogOk(catalog: seq<Definition>) {
    |catalog| <= 256 && forall i, j :: 0 <= i < j < |catalog| ==> catalog[i].id != catalog[j].id
  }

  /** A definition is created exactly when its id is new and there are fewer than 256. */
  lemma CreationOutcome(h: Hub, d: Definition)
    ensures CreateDefStep(h, d)
      == if Names(h.t.catalog, d.id) || |h.t.catalog| >= 256 then h else h.(t := h.t.(catalog := h.t.catalog + [d]))
  {
  }

  lemma {:induction false} WithoutIsDistinct(catalog: seq<Definition>, id: string)
    requires CatalogOk(catalog)
    ensures CatalogOk(WithoutDefinition(catalog, id)) && |WithoutDefinition(catalog, id)| <= |catalog|
    decreases |catalog|
  {
    if catalog != [] {
      var first, rest := catalog[0], catalog[1..];
      WithoutIsDistinct(rest, id);
      WithoutKeepsOthers(rest, id, first.id);
      var r := WithoutDefinition(rest, id);
      assert !Names(rest, first.id);
      assert forall k :: 0 <= k < |r| ==> r[k].id != first.id;
    }
  }

  lemma CatalogStays(h: Hub, e: Event)
    requires CatalogOk(h.t.catalog)
    ensures CatalogOk(Step(h, e).t.catalog)
  {
    match e
    case CreateDef(d) => CreationOutcome(h, d);
    case UpdateDef(d) =>
    case DeleteDef(id) => WithoutIsDistinct(h.t.catalog, id);
    case _ => CatalogUntouched(h, e);
  }

  lemma CatalogUntouched(h: Hub, e: Event)
    requires !e.CreateDef? && !e.UpdateDef? && !e.DeleteDef?
    ensures Step(h, e).t.catalog == h.t.catalog
  {
    match e
    case Request(_, _, _, _, _, _, _) =>
    case DecideHolder(_, _, _, _) =>
    case RegisterHolder(_) =>
    case ClaimTask(_) =>
    case Gather(_) =>
    case Abort(_, _) =>
    case Sign(_, _, _) =>
    case Post(_, _, _) =>
    case ReleaseIndexes(_) =>
    case FileSigned(_) =>
    case Finish(_, _) =>
    case _ => RedemptionLeavesCatalog(h, e);
  }

  lemma RedemptionLeavesCatalog(h: Hub, e: Event)
    requires || e.Redeem? || e.RedeemHolder? || e.RedeemIndex? || e.RedeemLog? || e.RedeemRelease? || e.RedeemFile?
             || e.RevokeCredential? || e.ServeStatusList?
    ensures Step(h, e).t.catalog == h.t.catalog
  {
  }

  // ---- OID4VCI issuances ----

  /** An OID4VCI issuance is denied for a rejected holder or want of a place, and else goes on under its holder. */
  lemma RedeemHolderOutcome(h: Hub, i: nat, newHolderId: string, now: nat)
    requires Inv(h) && Redeems(h, i) && h.tasks[i].stage.Admitted?
    ensures var h', Admitted(d, did) := RedeemHolderStep(h, i, newHolderId, now), h.tasks[i].stage;
      var standing := Standing(h, did);
      if standing == Some(HolderRejected) || (standing.None? && NoPlace(h.t.holders, newHolderId)) then
        h' == SetStage(h, i, Denied)
      else
        && i < |h'.tasks| && h'.tasks[i] == Redemption(HolderKnown(d, did, Filer(h, did, newHolderId)))
        && if standing.Some? then h'.t == h.t else Admits(h.t.holders, h.mode, did, newHolderId, now, h'.t.holders)
  {
    assert Sat(TheTables, h);
    AdmissionOutcome(h.t.holders, h.mode, h.tasks[i].stage.did, newHolderId, now);
    UnknownMeans(h.t.holders, h.tasks[i].stage.did);
  }

  /** The process it is logged as, unless all processes are active. */
  lemma RedeemLogOutcome(h: Hub, i: nat, pid: string, now: nat)
    requires Inv(h) && pid !in h.minted && Redeems(h, i) && h.tasks[i].stage.Numbered?
    ensures var h', Numbered(d, did, holderId, index) := RedeemLogStep(h, i, pid, now), h.tasks[i].stage;
      if AllActive(h) then h' == SetStage(h, i, Refused(index))
      else
        && i < |h'.tasks| && h'.tasks[i] == Redemption(Logged(d, did, holderId, index, pid))
        && pid in h'.t.requests.records
        && h'.t.requests.records[pid]
           == Process(pid, Delivered, holderId, did, "oid4vci", [d.id], None, now, now, None, true)
  {
    assert Sat(TheTables, h);
    ProcessesAreMinted(h);
    var Numbered(d, did, holderId, index) := h.tasks[i].stage;
    var p := RedeemedProcess(pid, holderId, did, d.id, now);
    TableIsFull(h, pid, p);
    if !AllActive(h) {
      TrackEffect(h.t.requests, MAX_TRACKED_REQUESTS, pid, p);
    }
  }

  // ---- Times and errors ----

  function Reading(e: Event): Option<nat> {
    match e
    case Request(_, _, _, _, _, _, now) => Some(now)
    case DecideHolder(_, _, _, now) => Some(now)
    case Finish(_, now) => Some(now)
    case RedeemLog(_, _, now) => Some(now)
    case _ => None
  }

  /** A process that changes state is stamped with the time of the step; one that does not keeps its stamp. */
  ghost predicate Stamped(before: Process, after: Process, reading: Option<nat>) {
    && after.createdAt == before.createdAt
    && (after.state != before.state ==> reading == Some(after.stateTimestamp))
    && (after.state == before.state ==>
         after.stateTimestamp == before.stateTimestamp && after.errorDetail == before.errorDetail)
  }

  lemma ChangesAreStamped(h: Hub, e: Event, pid: string)
    requires Inv(h) && Enabled(h, e) && pid in h.t.requests.records && pid in Step(h, e).t.requests.records
    ensures Stamped(h.t.requests.records[pid], Step(h, e).t.requests.records[pid], Reading(e))
  {
    match e
    case Request(did, holderPid, bearer, ids, newHolderId, p, now) =>
      RequestKeepsOthers(h, did, holderPid, bearer, ids, newHolderId, p, now, pid);
    case RedeemLog(i, p, now) => LogKeepsOthers(h, i, p, now, pid);
    case DecideHolder(holderId, approve, moved, now) => DecideStamps(h, holderId, approve, moved, now, pid);
    case ClaimTask(i) => ClaimStamps(h, i, pid);
    case Finish(i, now) => FinishStamps(h, i, now, pid);
    case _ => RequestsUntouched(h, e);
  }

  lemma DecideStamps(h: Hub, holderId: string, approve: bool, moved: seq<string>, now: nat, pid: string)
    requires pid in h.t.requests.records
    ensures pid in DecideStep(h, holderId, approve, moved, now).t.requests.records
    ensures Stamped(h.t.requests.records[pid], DecideStep(h, holderId, approve, moved, now).t.requests.records[pid],
                    Some(now))
  {
  }

  lemma ClaimStamps(h: Hub, i: nat, pid: string)
    requires pid in h.t.requests.records
    ensures pid in ClaimStep(h, i).t.requests.records
    ensures Stamped(h.t.requests.records[pid], ClaimStep(h, i).t.requests.records[pid], None)
  {
  }

  lemma RequestsUntouched(h: Hub, e: Event)
    requires !e.Request? && !e.RedeemLog? && !e.DecideHolder? && !e.ClaimTask? && !e.Finish?
    ensures Step(h, e).t.requests == h.t.requests
  {
  }

  lemma RequestKeepsOthers(h: Hub, did: string, holderPid: string, bearer: Option<string>, ids: seq<string>,
                           newHolderId: string, pid: string, now: nat, other: string)
    requires Inv(h) && pid !in h.minted && other in h.t.requests.records
    ensures var records := RequestStep(h, did, holderPid, bearer, ids, newHolderId, pid, now).t.requests.records;
      other in records ==> records[other] == h.t.requests.records[other]
  {
    ProcessesAreMinted(h);
    if AcceptRequest(h.t, h.mode, did, holderPid, bearer, RequestedIds(ids), newHolderId, pid, now).1.Created? {
      var h1, p := AcceptedProcess(h, did, holderPid, bearer, ids, newHolderId, pid, now);
      TrackTables(h1, p);
    }
  }

  lemma LogKeepsOthers(h: Hub, i: nat, pid: string, now: nat, other: string)
    requires Inv(h) && pid !in h.minted && other in h.t.requests.records
    ensures var records := RedeemLogStep(h, i, pid, now).t.requests.records;
      other in records ==> records[other] == h.t.requests.records[other]
  {
    ProcessesAreMinted(h);
    if Redeems(h, i) && h.tasks[i].stage.Numbered? {
      var Numbered(d, did, holderId, n) := h.tasks[i].stage;
      var p := RedeemedProcess(pid, holderId, did, d.id, now);
      if Track(h.t.requests, MAX_TRACKED_REQUESTS, pid, p).Ok? {
        TrackTables(h, p);
      }
    }
  }

  lemma FinishStamps(h: Hub, i: nat, now: nat, pid: string)
    requires Inv(h) && pid in h.t.requests.records
    ensures Stamped(h.t.requests.records[pid], FinishStep(h, i, now).t.requests.records[pid], Some(now))
  {
    if Delivers(h, i) && h.tasks[i].phase.Settling? {
      SettlingIsLinked(h, i);
    }
  }

  /** A finished delivery's process: DELIVERED without an error, ERRORED with the one it met, at this time. */
  lemma FinishOutcome(h: Hub, i: nat, now: nat)
    requires Inv(h) && Delivers(h, i) && h.tasks[i].phase.Settling?
    ensures var pid, error := h.tasks[i].pid, h.tasks[i].phase.error;
      var records := FinishStep(h, i, now).t.requests.records;
      && pid in h.t.requests.records && pid in records
      && records[pid] == h.t.requests.records[pid].(
           state := if error.Some? then Errored else Delivered, stateTimestamp := now, errorDetail := error)
      && forall other :: other in h.t.requests.records && other != pid ==>
           other in records && records[other] == h.t.requests.records[other]
  {
    SettlingIsLinked(h, i);
  }

  // ---- Indexes ----

  /** An index that a running task holds or a record owns. */
  ghost predicate Taken(h: Hub, i: nat) {
    || (exists k :: 0 <= k < |h.tasks| && i in Held(h.tasks[k]))
    || (exists id :: id in h.t.issued.records && h.t.issued.records[id].index == i)
  }

  /** The index allocated is the lowest one that is not taken. */
  lemma LowestIsAllocated(h: Hub, i: nat)
    requires Reachable(h)
    ensures Allocate(h.t.issued.list).1 == Some(i) <==>
      i < 131072 && !Taken(h, i) && forall j: nat :: j < i ==> Taken(h, j)
  {
    ReachableInv(h);
    assert Sat(ThePartition, h);
    TakenMeans(h, i);
    match Allocate(h.t.issued.list).1
    case Some(m) =>
      TakenMeans(h, m);
      AllocatedIsLowest(h);
      LowerAreTaken(h, m);
      assert m < i ==> !Taken(h, m);
      assert i < m ==> Taken(h, i);
    case None =>
  }

  ghost predicate HandedOut(list: StatusBits, i: nat) {
    i < list.next && i !in list.free
  }

  lemma LowerAreTaken(h: Hub, m: nat)
    requires Partition(h) && Allocate(h.t.issued.list).1 == Some(m)
    ensures forall j: nat :: j < m ==> Taken(h, j)
  {
    AllocatedIsLowest(h);
    var list := h.t.issued.list;
    forall j: nat | j < m
      ensures Taken(h, j)
    {
      assert HandedOut(list, j);
      TakenMeans(h, j);
    }
  }

  lemma TakenMeans(h: Hub, j: nat)
    requires Partition(h)
    ensures Taken(h, j) <==> HandedOut(h.t.issued.list, j)
  {
    if k :| 0 <= k < |h.tasks| && j in Held(h.tasks[k]) {
      assert Holds(h, InFlight(k), j);
      assert !Holds(h, Pool, j);
    }
    if id :| id in h.t.issued.records && h.t.issued.records[id].index == j {
      assert Holds(h, Recorded(id), j);
      assert !Holds(h, Pool, j);
    }
    if j < h.t.issued.list.next && j !in h.t.issued.list.free {
      assert Owned(h, j);
      var o :| Holds(h, o, j);
      assert !o.Pool?;
    }
  }

  lemma AllocatedIsLowest(h: Hub)
    requires Partition(h) && Allocate(h.t.issued.list).1.Some?
    ensures var list, i := h.t.issued.list, Allocate(h.t.issued.list).1.value;
      i < 131072 && !HandedOut(list, i) && forall j: nat :: j < i ==> HandedOut(list, j)
  {
    assert forall j :: j in h.t.issued.list.free ==> Holds(h, Pool, j);
  }

  // ---- Listings ----

  /** Holders, definitions and credentials are listed in the order they came: a step only adds at the end. */
  ghost predicate ListsGrow(h: Hub, h': Hub) {
    && h.t.holders.order <= h'.t.holders.order
    && h.t.issued.order <= h'.t.issued.order
  }

  lemma OrdersGrow(h: Hub, e: Event)
    ensures ListsGrow(h, Step(h, e))
  {
    match e
    case Request(did, _, _, ids, newHolderId, pid, now) => RequestGrows(h, e);
    case RegisterHolder(_) =>
    case FileSigned(i) =>
      if Delivers(h, i) && h.tasks[i].phase.Posted? {
        FiledGrows(h.t.issued, h.tasks[i].phase.signed);
      }
    case ReleaseIndexes(i) =>
      if Delivers(h, i) && h.tasks[i].phase.Failing? {
      }
    case RedeemHolder(_, _, _) =>
    case RedeemFile(_, _, _) =>
    case _ => OrdersStay(h, e);
  }

  lemma RequestGrows(h: Hub, e: Event)
    requires e.Request?
    ensures ListsGrow(h, Step(h, e))
  {
  }

  lemma {:induction false} FiledGrows(issued: Issued, rs: seq<Record>)
    ensures FileRecords(issued, rs).order == issued.order + seq(|rs|, k requires 0 <= k < |rs| => rs[k].id)
    decreases |rs|
  {
    if rs != [] {
      FiledGrows(FileRecord(issued, rs[0]), rs[1..]);
      assert forall k :: 0 <= k < |rs[1..]| ==> rs[1..][k] == rs[k + 1];
    }
  }

  lemma OrdersStay(h: Hub, e: Event)
    requires !e.Request? && !e.RegisterHolder? && !e.FileSigned? && !e.ReleaseIndexes?
    requires !e.RedeemHolder? && !e.RedeemFile?
    ensures Step(h, e).t.holders.order == h.t.holders.order && Step(h, e).t.issued.order == h.t.issued.order
  {
    match e
    case DecideHolder(_, _, _, _) =>
    case CreateDef(_) =>
    case UpdateDef(_) =>
    case DeleteDef(_) =>
    case ClaimTask(_) =>
    case Gather(_) =>
    case Abort(_, _) =>
    case Sign(_, _, _) =>
    case Post(_, _, _) =>
    case Finish(_, _) =>
    case Redeem(_, _) =>
    case RedeemIndex(_) =>
    case RedeemLog(_, _, _) =>
    case RedeemRelease(_) =>
    case RevokeCredential(_) =>
    case ServeStatusList(_) =>
  }
}
