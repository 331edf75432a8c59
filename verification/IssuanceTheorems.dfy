/** What holds in every state of every run of the issuance protocol, said without the history variables. */
module IssuanceTheorems {
  import opened Prelude
  import opened IssuerTables
  import opened Protocol
  import opened IssuanceInvariant
  import opened IssuanceSteps

  /** A state some run reaches. */
  ghost predicate Reachable(h: Hub) {
    exists mode, now, es :: ValidRun(Start(mode, now), es) && h == Run(Start(mode, now), es)
  }

  lemma ReachableInv(h: Hub)
    requires Reachable(h)
    ensures Inv(h)
  {
    var mode, now, es :| ValidRun(Start(mode, now), es) && h == Run(Start(mode, now), es);
    StartHolds(mode, now);
    RunKeeps(Start(mode, now), es);
  }

  // ---- Indexes ----

  /** No two issued credentials share an index, and none shares one with a credential being issued. */
  lemma IndexesAreNotShared(h: Hub, a: string, b: string)
    requires Reachable(h)
    ensures Partition(h)
    ensures a in h.t.issued.records && b in h.t.issued.records && a != b ==>
      h.t.issued.records[a].index != h.t.issued.records[b].index
    ensures a in h.t.issued.records ==>
      forall k :: 0 <= k < |h.tasks| ==> h.t.issued.records[a].index !in Held(h.tasks[k])
  {
    ReachableInv(h);
    assert Sat(ThePartition, h);
    if a in h.t.issued.records {
      var n := h.t.issued.records[a].index;
      assert Holds(h, Recorded(a), n);
      forall k | 0 <= k < |h.tasks|
        ensures n !in Held(h.tasks[k])
      {
        assert !Holds(h, InFlight(k), n);
      }
      if b in h.t.issued.records && a != b && h.t.issued.records[b].index == n {
        assert Holds(h, Recorded(b), n) && Recorded(b) != Recorded(a);
      }
    }
  }

  /** An index is refused exactly when all of them are in flight or recorded. */
  lemma ExhaustedMeansInUse(h: Hub)
    requires Reachable(h)
    ensures Allocate(h.t.issued.list).1.None? <==>
      forall i: nat :: i < STATUS_LIST_BITS ==> InUseIndex(h, i)
  {
    ReachableInv(h);
    assert Sat(ThePartition, h);
    var list := h.t.issued.list;
    if Allocate(list).1.None? {
      forall i: nat | i < STATUS_LIST_BITS
        ensures InUseIndex(h, i)
      {
        assert Owned(h, i);
        var o :| Holds(h, o, i);
        assert o != Pool;
      }
    }
    if list.free != {} {
      var n := Least(list.free);
      assert Holds(h, Pool, n);
      assert !InUseIndex(h, n);
    }
    if list.next < STATUS_LIST_BITS {
      assert !InUseIndex(h, list.next);
    }
  }

  ghost predicate InUseIndex(h: Hub, i: nat) {
    exists o :: o != Pool && Holds(h, o, i)
  }

  /** Indexes handed back after a failed delivery really return to the pool: the guard never refuses. */
  lemma FailedDeliveryReturnsIndexes(h: Hub, i: nat)
    requires Reachable(h) && Delivers(h, i) && h.tasks[i].phase.Failing?
    ensures ReleaseStep(h, i).t.issued.list
      == h.t.issued.list.(free := h.t.issued.list.free + Elems(h.tasks[i].phase.taken))
  {
    ReachableInv(h);
    ReleaseEffect(h, i);
  }

  /** The list bounds the records: there is never more than one for each of its bits. */
  lemma RecordsAreBounded(h: Hub)
    requires Reachable(h)
    ensures |h.t.issued.records| <= STATUS_LIST_BITS
  {
    ReachableInv(h);
    assert Sat(ThePartition, h);
    var records := h.t.issued.records;
    forall a | a in records
      ensures records[a].index < STATUS_LIST_BITS
      ensures forall b :: b in records && b != a ==> records[b].index != records[a].index
    {
      assert Holds(h, Recorded(a), records[a].index);
      forall b | b in records && b != a
        ensures records[b].index != records[a].index
      {
        assert Holds(h, Recorded(b), records[b].index);
        assert Recorded(a) != Recorded(b);
      }
    }
    PigeonHole(records, STATUS_LIST_BITS);
  }

  lemma {:induction false} PigeonHole(records: map<string, Record>, n: nat)
    requires forall a :: a in records ==> records[a].index < n
    requires forall a, b :: a in records && b in records && a != b ==> records[a].index != records[b].index
    ensures |records| <= n
    decreases n
  {
    if n == 0 {
      assert records.Keys == {};
      assert |records.Keys| == 0;
    } else if exists a :: a in records && records[a].index == n - 1 {
      var a :| a in records && records[a].index == n - 1;
      PigeonHole(records - {a}, n - 1);
      assert records.Keys == (records - {a}).Keys + {a};
      assert |records.Keys| == |(records - {a}).Keys| + 1;
    } else {
      PigeonHole(records, n - 1);
    }
  }

  // ---- The life of a process ----

  /** What a step may do to one process. */
  ghost predicate LegalMove(a: Process, b: Process) {
    || a == b
    || (&& b == a.(state := b.state, stateTimestamp := b.stateTimestamp, errorDetail := b.errorDetail,
                   deliveryStarted := b.deliveryStarted)
        && match a.state
           case Submitted => b.deliveryStarted == a.deliveryStarted && (b.state.Approved? || b.state.Rejected?)
           case Approved =>
             if a.deliveryStarted then b.deliveryStarted && (b.state.Delivered? || b.state.Errored?)
             else if b.deliveryStarted then b.state.Approved? else b.state.Rejected?
           case _ => false)
  }

  /** Between two states of the request table: legal moves, only terminal records lost, only new ids gained. */
  ghost predicate LegalMoves(h: Hub, h': Hub) {
    var before, after := h.t.requests.records, h'.t.requests.records;
    && (forall pid :: pid in before && pid in after ==> LegalMove(before[pid], after[pid]))
    && (forall pid :: pid in before && pid !in after ==> before[pid].state.IsTerminal())
    && (forall pid :: pid in after && pid !in before ==> pid !in h.minted)
    && h.minted <= h'.minted
  }

  lemma SameRequestsLegal(h: Hub, h': Hub)
    requires h'.t.requests == h.t.requests && h.minted <= h'.minted
    ensures LegalMoves(h, h')
  {
  }

  lemma TrackedLegal(h: Hub, h': Hub, p: Process)
    requires Tracked(h.t.requests.records, h'.t.requests.records, p.id, p)
    requires p.id !in h.minted && h.minted <= h'.minted && h.t.requests.records.Keys <= h.minted
    ensures LegalMoves(h, h')
  {
    forall pid | pid in h.t.requests.records && pid in h'.t.requests.records
      ensures LegalMove(h.t.requests.records[pid], h'.t.requests.records[pid]) || pid == p.id
    {
    }
  }

  lemma ProcessesAreMinted(h: Hub)
    requires Inv(h)
    ensures h.t.requests.records.Keys <= h.minted
  {
    assert Sat(TheLinks, h);
  }

  lemma RequestLegal(h: Hub, did: string, holderPid: string, bearer: Option<string>, ids: seq<string>,
                     newHolderId: string, pid: string, now: nat)
    requires Inv(h) && pid !in h.minted
    ensures LegalMoves(h, RequestStep(h, did, holderPid, bearer, ids, newHolderId, pid, now))
  {
    var (t, reply) := AcceptRequest(h.t, h.mode, did, holderPid, bearer, RequestedIds(ids), newHolderId, pid, now);
    if reply.Created? {
      var h1, p := AcceptedProcess(h, did, holderPid, bearer, ids, newHolderId, pid, now);
      TrackTables(h1, p);
      ProcessesAreMinted(h);
      TrackedLegal(h, RequestStep(h, did, holderPid, bearer, ids, newHolderId, pid, now), p);
    } else {
      SameRequestsLegal(h, RequestStep(h, did, holderPid, bearer, ids, newHolderId, pid, now));
    }
  }

  lemma RedeemLogLegal(h: Hub, i: nat, pid: string, now: nat)
    requires Inv(h) && pid !in h.minted
    ensures LegalMoves(h, RedeemLogStep(h, i, pid, now))
  {
    if Redeems(h, i) && h.tasks[i].stage.Numbered? {
      var Numbered(d, did, holderId, n) := h.tasks[i].stage;
      var p := RedeemedProcess(pid, holderId, did, d.id, now);
      if Track(h.t.requests, MAX_TRACKED_REQUESTS, pid, p).Ok? {
        TrackTables(h, p);
        ProcessesAreMinted(h);
        TrackedLegal(h, RedeemLogStep(h, i, pid, now), p);
      }
    }
  }

  lemma DecideLegal(h: Hub, holderId: string, approve: bool, moved: seq<string>, now: nat)
    requires Inv(h)
    ensures LegalMoves(h, DecideStep(h, holderId, approve, moved, now))
  {
  }

  lemma ClaimLegal(h: Hub, i: nat)
    requires Inv(h)
    ensures LegalMoves(h, ClaimStep(h, i))
  {
    if Delivers(h, i) && h.tasks[i].phase.Queued? && Claim(h.t.requests, h.tasks[i].pid).Some? {
      assert Sat(TheLinks, h);
      assert TaskLinked(h, i) && ProcessLinked(h, h.tasks[i].pid);
    }
  }

  lemma FinishLegal(h: Hub, i: nat, now: nat)
    requires Inv(h)
    ensures LegalMoves(h, FinishStep(h, i, now))
  {
    if Delivers(h, i) && h.tasks[i].phase.Settling? {
      assert Sat(TheLinks, h);
      assert TaskLinked(h, i);
    }
  }

  lemma StepLegal(h: Hub, e: Event)
    requires Inv(h) && Enabled(h, e)
    ensures LegalMoves(h, Step(h, e))
  {
    match e
    case Request(did, holderPid, bearer, ids, newHolderId, pid, now) =>
      RequestLegal(h, did, holderPid, bearer, ids, newHolderId, pid, now);
    case DecideHolder(holderId, approve, moved, now) => DecideLegal(h, holderId, approve, moved, now);
    case ClaimTask(i) => ClaimLegal(h, i);
    case Finish(i, now) => FinishLegal(h, i, now);
    case RedeemLog(i, pid, now) => RedeemLogLegal(h, i, pid, now);
    case _ => SameRequestsLegal(h, Step(h, e));
  }

  /**
   A terminal record never changes again: whatever happens later, it is there unchanged or has been
   evicted, and its id never comes back with another content.
   */
  lemma {:induction false} TerminalForever(h: Hub, es: seq<Event>, pid: string, p: Process)
    requires Inv(h) && ValidRun(h, es) && pid in h.minted && p.state.IsTerminal()
    requires pid in h.t.requests.records ==> h.t.requests.records[pid] == p
    ensures var last := Run(h, es).t.requests.records; pid in last ==> last[pid] == p
    ensures pid !in h.t.requests.records ==> pid !in Run(h, es).t.requests.records
    decreases |es|
  {
    if es != [] {
      StepLegal(h, es[0]);
      StepKeeps(h, es[0]);
      TerminalForever(Step(h, es[0]), es[1..], pid, p);
    }
  }

  /** Re-approving never revives: once a process is REJECTED, no later state holds a record for it. */
  lemma RejectedIsNeverIssued(h: Hub, es: seq<Event>, pid: string, id: string)
    requires Inv(h) && ValidRun(h, es)
    requires pid in h.t.requests.records && h.t.requests.records[pid].state.Rejected?
    ensures var last := Run(h, es);
      && (pid in last.t.requests.records ==> last.t.requests.records[pid] == h.t.requests.records[pid])
      && (id in last.t.issued.records ==> last.t.issued.records[id].processId != pid)
  {
    assert Sat(TheLinks, h);
    assert ProcessLinked(h, pid);
    var p := h.t.requests.records[pid];
    TerminalForever(h, es, pid, p);
    if pid in h.taskOf {
      RejectedStays(h, es, pid);
    } else {
      UntaskedStays(h, es, pid);
    }
    var last := Run(h, es);
    RunKeeps(h, es);
    if id in last.t.issued.records && last.t.issued.records[id].processId == pid {
      RecordHasItsTask(last, id);
    }
  }

  /** A task that was stopped: it waits to find out, or has. */
  ghost predicate Stopped(h: Hub, pid: string) {
    && pid in h.taskOf && Delivers(h, h.taskOf[pid])
    && (h.tasks[h.taskOf[pid]].phase.Queued? || h.tasks[h.taskOf[pid]].phase.Dropped?)
  }

  ghost predicate NotApproved(h: Hub, pid: string) {
    pid in h.minted && (pid in h.t.requests.records ==> h.t.requests.records[pid].state.Rejected?)
  }

  lemma {:induction false} RejectedStays(h: Hub, es: seq<Event>, pid: string)
    requires Inv(h) && ValidRun(h, es) && NotApproved(h, pid) && Stopped(h, pid)
    ensures Stopped(Run(h, es), pid)
    decreases |es|
  {
    if es != [] {
      StepKeeps(h, es[0]);
      StepLegal(h, es[0]);
      StoppedStep(h, es[0], pid);
      RejectedStays(Step(h, es[0]), es[1..], pid);
    }
  }

  /** A step that only appends tasks and moves tasks that are past claiming. */
  ghost predicate KeepsIdle(h: Hub, h': Hub) {
    && |h.tasks| <= |h'.tasks|
    && (forall i :: 0 <= i < |h.tasks| ==> h'.tasks[i] == h.tasks[i] || !Idle(h.tasks[i]))
    && (forall pid :: pid in h.taskOf && Stopped(h, pid) ==> pid in h'.taskOf && h'.taskOf[pid] == h.taskOf[pid])
  }

  ghost predicate Idle(task: Task) {
    task.Delivery? && (task.phase.Queued? || task.phase.Dropped?)
  }

  /** Task numbers are never reused, and an unclaimed task only moves by claiming. */
  lemma StoppedStep(h: Hub, e: Event, pid: string)
    requires Inv(h) && Enabled(h, e) && NotApproved(h, pid) && Stopped(h, pid)
    ensures Stopped(Step(h, e), pid)
  {
    TaskOfInRange(h);
    match e
    case Request(did, holderPid, bearer, ids, newHolderId, newPid, now) => StoppedRequest(h, e, pid);
    case DecideHolder(holderId, approve, moved, now) =>
      if approve && holderId in h.t.holders.holders {
        MovedHasNoTask(h, holderId, moved, pid);
      }
    case ClaimTask(i) => StoppedClaim(h, i, pid);
    case _ => IdleDelivery(h, e);
  }

  lemma StoppedRequest(h: Hub, e: Event, pid: string)
    requires Inv(h) && Enabled(h, e) && e.Request? && NotApproved(h, pid) && Stopped(h, pid)
    ensures Stopped(Step(h, e), pid)
  {
    TaskOfInRange(h);
    assert pid != e.pid;
  }

  lemma StoppedClaim(h: Hub, i: nat, pid: string)
    requires Inv(h) && NotApproved(h, pid) && Stopped(h, pid)
    ensures Stopped(ClaimStep(h, i), pid)
  {
    TaskOfInRange(h);
    assert Concerns(h.tasks[h.taskOf[pid]], pid);
  }

  lemma IdleDelivery(h: Hub, e: Event)
    requires Inv(h) && Enabled(h, e)
    requires !e.Request? && !e.DecideHolder? && !e.ClaimTask?
    ensures KeepsIdle(h, Step(h, e))
  {
    TaskOfInRange(h);
    if e.Redeem? || e.RedeemHolder? || e.RedeemIndex? || e.RedeemLog? || e.RedeemRelease? || e.RedeemFile? {
      IdleRedemption(h, e);
    }
  }

  lemma IdleRedemption(h: Hub, e: Event)
    requires Enabled(h, e) && forall pid :: pid in h.taskOf ==> pid in h.minted
    requires e.Redeem? || e.RedeemHolder? || e.RedeemIndex? || e.RedeemLog? || e.RedeemRelease? || e.RedeemFile?
    ensures KeepsIdle(h, Step(h, e))
  {
  }

  lemma {:induction false} UntaskedStays(h: Hub, es: seq<Event>, pid: string)
    requires Inv(h) && ValidRun(h, es) && NotApproved(h, pid) && pid !in h.taskOf
    ensures pid !in Run(h, es).taskOf
    decreases |es|
  {
    if es != [] {
      StepKeeps(h, es[0]);
      StepLegal(h, es[0]);
      UntaskedStep(h, es[0], pid);
      UntaskedStays(Step(h, es[0]), es[1..], pid);
    }
  }

  lemma UntaskedStep(h: Hub, e: Event, pid: string)
    requires Inv(h) && Enabled(h, e) && NotApproved(h, pid) && pid !in h.taskOf
    ensures pid !in Step(h, e).taskOf
  {
    match e
    case DecideHolder(holderId, approve, moved, now) =>
      assert pid in moved ==> pid in Elems(moved);
    case _ =>
  }

  // ---- Records and tasks ----

  /** Every record was filed by the one task of its process. */
  lemma RecordHasItsTask(h: Hub, id: string)
    requires Inv(h) && id in h.t.issued.records
    ensures var r := h.t.issued.records[id];
      && r.processId in h.taskOf && h.taskOf[r.processId] < |h.tasks| && id in h.births
      && HasFiled(h.tasks[h.taskOf[r.processId]])
      && h.births[id].task == h.taskOf[r.processId]
      && h.births[id].position < |Signed(h.tasks[h.taskOf[r.processId]])|
      && SameCredential(r, Signed(h.tasks[h.taskOf[r.processId]])[h.births[id].position])
  {
    assert Sat(TheRecords, h) && Sat(TheLinks, h) && Sat(TheLocals, h);
    assert FiledBy(h, id);
    var i := h.births[id].task;
    assert TaskLinked(h, i) && LocalOk(h.tasks[i]);
  }

  /** A delivery that has neither finished nor been dropped. */
  predicate Outstanding(h: Hub, i: nat, pid: string) {
    Delivers(h, i) && h.tasks[i].pid == pid && !h.tasks[i].phase.Finished? && !h.tasks[i].phase.Dropped?
  }

  /** Every APPROVED process has exactly one outstanding delivery, still queued exactly when it has not started. */
  lemma ApprovedHasOneDelivery(h: Hub, pid: string)
    requires Reachable(h) && pid in h.t.requests.records && h.t.requests.records[pid].state.Approved?
    ensures exists i: nat ::
      && Outstanding(h, i, pid)
      && (h.tasks[i].phase.Queued? <==> !h.t.requests.records[pid].deliveryStarted)
      && (forall j: nat :: Outstanding(h, j, pid) ==> j == i)
  {
    ReachableInv(h);
    assert Sat(TheLinks, h);
    assert ProcessLinked(h, pid);
    var i := h.taskOf[pid];
    assert Outstanding(h, i, pid);
    forall j: nat | Outstanding(h, j, pid)
      ensures j == i
    {
      assert TaskLinked(h, j);
    }
  }

  /** A delivery that is still running has its process in the table, APPROVED: the final update never misses. */
  lemma RunningHasItsProcess(h: Hub, i: nat)
    requires Reachable(h) && Delivers(h, i) && Running(h.tasks[i].phase)
    ensures h.tasks[i].pid in h.t.requests.records
    ensures h.t.requests.records[h.tasks[i].pid].state.Approved? && h.t.requests.records[h.tasks[i].pid].deliveryStarted
  {
    ReachableInv(h);
    assert Sat(TheLinks, h);
    assert TaskLinked(h, i);
  }

  ghost predicate RecordOf(h: Hub, id: string, pid: string) {
    id in h.t.issued.records && h.t.issued.records[id].processId == pid
  }

  ghost predicate RecordFor(h: Hub, id: string, pid: string, definitionId: string) {
    RecordOf(h, id, pid) && h.t.issued.records[id].definitionId == definitionId
  }

  /** Exactly one record for each definition, and none for anything else. */
  ghost predicate IssuedInFull(h: Hub, p: Process) {
    && (forall d :: d in p.definitions ==> exists id :: RecordFor(h, id, p.id, d))
    && (forall d, a, b :: RecordFor(h, a, p.id, d) && RecordFor(h, b, p.id, d) ==> a == b)
    && (forall id :: RecordOf(h, id, p.id) ==> h.t.issued.records[id].definitionId in p.definitions)
  }

  /** A DELIVERED process has exactly one record for each of its definitions. An OID4VCI one is logged just before. */
  lemma DeliveredIsIssuedInFull(h: Hub, pid: string)
    requires Reachable(h) && pid in h.t.requests.records && h.t.requests.records[pid].state.Delivered?
    ensures IssuedInFull(h, h.t.requests.records[pid])
      || exists i: nat :: Redeems(h, i) && h.tasks[i].stage.Logged? && h.tasks[i].stage.pid == pid
  {
    ReachableInv(h);
    assert Sat(TheLinks, h);
    assert ProcessLinked(h, pid);
    var i := h.taskOf[pid];
    assert TaskLinked(h, i) && Concerns(h.tasks[i], pid);
    if h.tasks[i].Delivery? || h.tasks[i].stage.Filed? {
      DeliveredTask(h, pid, i);
      FiledInFull(h, h.t.requests.records[pid], i);
    } else {
      assert h.tasks[i].stage.Logged?;
    }
  }

  lemma DeliveredTask(h: Hub, pid: string, i: nat)
    requires Inv(h) && pid in h.t.requests.records && h.t.requests.records[pid].state.Delivered?
    requires pid in h.taskOf && h.taskOf[pid] == i < |h.tasks| && (h.tasks[i].Delivery? || h.tasks[i].stage.Filed?)
    ensures HasFiled(h.tasks[i])
    ensures var p, signed := h.t.requests.records[pid], Signed(h.tasks[i]);
      && p.id == pid && NoDup(p.definitions) && |signed| == |p.definitions|
      && forall k :: 0 <= k < |p.definitions| ==>
           signed[k].definitionId == p.definitions[k] && signed[k].processId == pid
  {
    assert Sat(TheLinks, h) && Sat(TheLocals, h) && Sat(TheDefinitions, h);
    assert ProcessLinked(h, pid) && TaskLinked(h, i) && LocalOk(h.tasks[i]) && Concerns(h.tasks[i], pid);
    assert JobOk(h.t.requests.records[pid]);
    assert Sat(TheTables, h);
  }

  lemma FiledInFull(h: Hub, p: Process, i: nat)
    requires Inv(h) && p.id in h.taskOf && h.taskOf[p.id] == i && i < |h.tasks| && HasFiled(h.tasks[i])
    requires NoDup(p.definitions) && |Signed(h.tasks[i])| == |p.definitions|
    requires forall k :: 0 <= k < |p.definitions| ==>
      Signed(h.tasks[i])[k].definitionId == p.definitions[k] && Signed(h.tasks[i])[k].processId == p.id
    ensures IssuedInFull(h, p)
  {
    var signed := Signed(h.tasks[i]);
    forall d | d in p.definitions
      ensures exists id :: RecordFor(h, id, p.id, d)
    {
      FiledForEach(h, p, i, d);
    }
    forall id | RecordOf(h, id, p.id)
      ensures h.t.issued.records[id].definitionId in p.definitions
      ensures id in h.births && 0 <= h.births[id].position < |signed|
      ensures h.t.issued.records[id].definitionId == p.definitions[h.births[id].position]
      ensures id == signed[h.births[id].position].id
    {
      RecordHasItsTask(h, id);
      assert h.t.issued.records[id].id == id by {
        assert Sat(TheTables, h);
      }
    }
  }

  lemma FiledForEach(h: Hub, p: Process, i: nat, d: string)
    requires Inv(h) && i < |h.tasks| && HasFiled(h.tasks[i]) && d in p.definitions
    requires |Signed(h.tasks[i])| == |p.definitions|
    requires forall k :: 0 <= k < |p.definitions| ==>
      Signed(h.tasks[i])[k].definitionId == p.definitions[k] && Signed(h.tasks[i])[k].processId == p.id
    ensures exists id :: RecordFor(h, id, p.id, d)
  {
    var k := Position(p.definitions, d);
    SignedIsRecorded(h, i, k);
    assert RecordFor(h, Signed(h.tasks[i])[k].id, p.id, d);
  }

  lemma SignedIsRecorded(h: Hub, i: nat, k: nat)
    requires Inv(h) && i < |h.tasks| && HasFiled(h.tasks[i]) && k < |Signed(h.tasks[i])|
    ensures var r := Signed(h.tasks[i])[k];
      r.id in h.t.issued.records && SameCredential(h.t.issued.records[r.id], r)
  {
    assert Sat(TheRecords, h);
    var r := Signed(h.tasks[i])[k];
    assert FiledBy(h, r.id);
  }

  /**
   No process that is SUBMITTED, ERRORED or REJECTED has a record, nor an APPROVED one before its records are filed.
   */
  lemma UnfinishedHasNoRecords(h: Hub, pid: string, id: string)
    requires Reachable(h) && pid in h.t.requests.records && id in h.t.issued.records
    requires !h.t.requests.records[pid].state.Delivered?
    requires h.t.issued.records[id].processId == pid
    ensures h.t.requests.records[pid].state.Approved?
    ensures pid in h.taskOf && Delivers(h, h.taskOf[pid])
    ensures h.tasks[h.taskOf[pid]].phase.Settling? && h.tasks[h.taskOf[pid]].phase.error.None?
  {
    ReachableInv(h);
    RecordHasItsTask(h, id);
    assert Sat(TheLinks, h) && Sat(TheLocals, h);
    assert ProcessLinked(h, pid);
    assert TaskLinked(h, h.taskOf[pid]) && LocalOk(h.tasks[h.taskOf[pid]]);
  }

  // ---- Holders and definitions ----

  /** At the moment a delivery claims its process, the holder is approved and every definition is there. */
  lemma ClaimedForApprovedHolder(h: Hub, i: nat)
    requires Reachable(h) && Delivers(h, i) && h.tasks[i].phase.Queued?
    requires Claim(h.t.requests, h.tasks[i].pid).Some?
    ensures var p := h.t.requests.records[h.tasks[i].pid];
      && p.holderId in h.t.holders.holders
      && h.t.holders.holders[p.holderId].status.HolderApproved?
      && ByDid(h.t.holders, p.holderDid) == Some(h.t.holders.holders[p.holderId])
      && NeedsMet(h.t.catalog, p)
  {
    ReachableInv(h);
    var pid := h.tasks[i].pid;
    var p := h.t.requests.records[pid];
    QueuedIsUnclaimed(h, i);
    StatusMatchesHolder(h, pid);
    assert NeedsMet(h.t.catalog, p) by {
      assert Sat(TheDefinitions, h);
    }
    assert Indexed(h.t.holders, p.holderId) by {
      assert Sat(TheTables, h);
    }
  }

  lemma QueuedIsUnclaimed(h: Hub, i: nat)
    requires Inv(h) && Delivers(h, i) && h.tasks[i].phase.Queued? && h.tasks[i].pid in h.t.requests.records
    ensures var p := h.t.requests.records[h.tasks[i].pid]; !p.deliveryStarted || !p.state.Approved?
  {
    assert Sat(TheLinks, h);
    assert TaskLinked(h, i);
    assert ProcessLinked(h, h.tasks[i].pid);
  }

  /** SUBMITTED waits for a pending holder; APPROVED and unclaimed belongs to an approved one. */
  lemma StatusMatchesHolder(h: Hub, pid: string)
    requires Reachable(h) && pid in h.t.requests.records
    ensures HolderKnownFor(h.t.holders, h.t.requests.records[pid])
  {
    ReachableInv(h);
    assert Sat(TheHolders, h);
  }

  /** The "no longer exists" error after a claim cannot happen. */
  lemma DefinitionsNeverVanish(h: Hub, i: nat)
    requires Reachable(h) && Delivers(h, i) && h.tasks[i].phase.Claimed?
    ensures LookupAll(h.t.catalog, h.tasks[i].phase.job.definitions).Ok?
  {
    ReachableInv(h);
    assert Sat(TheLinks, h) && Sat(TheDefinitions, h);
    assert TaskLinked(h, i);
    var job := h.tasks[i].phase.job;
    assert NeedsMet(h.t.catalog, job);
    assert forall k :: 0 <= k < |job.definitions| ==> job.definitions[k] in job.definitions;
  }

  /** A delete is refused exactly while an active process names the definition. */
  lemma DeleteWaitsForProcesses(h: Hub, id: string, other: string)
    requires Reachable(h)
    ensures InUse(h.t.requests, id) ==> DeleteDefStep(h, id) == h && Names(h.t.catalog, id)
    ensures !InUse(h.t.requests, id) ==>
      (Names(DeleteDefStep(h, id).t.catalog, other) <==> Names(h.t.catalog, other) && other != id)
  {
    ReachableInv(h);
    assert Sat(TheDefinitions, h);
    WithoutKeepsOthers(h.t.catalog, id, other);
    if InUse(h.t.requests, id) {
      var pid :| pid in h.t.requests.records && h.t.requests.records[pid].state.IsActive()
                 && id in h.t.requests.records[pid].definitions;
      assert NeedsMet(h.t.catalog, h.t.requests.records[pid]);
    }
  }

  /** An accepted request is tracked with the message's distinct ids, at most 16, all in the catalog. */
  lemma AcceptedListsDistinctIds(h: Hub, did: string, holderPid: string, bearer: Option<string>, ids: seq<string>,
                                 newHolderId: string, pid: string, now: nat)
    requires Reachable(h) && pid !in h.minted
    requires AcceptRequest(h.t, h.mode, did, holderPid, bearer, RequestedIds(ids), newHolderId, pid, now).1.Created?
    ensures var h' := RequestStep(h, did, holderPid, bearer, ids, newHolderId, pid, now);
      && pid in h'.t.requests.records
      && var p := h'.t.requests.records[pid];
      && p.definitions == Distinct(ids) && 1 <= |p.definitions| <= MAX_REQUEST_CREDENTIALS
      && NeedsMet(h'.t.catalog, p) && HolderKnownFor(h'.t.holders, p)
  {
    ReachableInv(h);
    var h1, p := AcceptedProcess(h, did, holderPid, bearer, ids, newHolderId, pid, now);
    TrackTables(h1, p);
    var h' := RequestStep(h, did, holderPid, bearer, ids, newHolderId, pid, now);
    assert h'.t == h1.t.(requests := Track(h1.t.requests, MAX_TRACKED_REQUESTS, pid, p).value);
  }

  /** At most 2048 processes, 1024 of them waiting, and 8 of those for any one holder. */
  lemma RequestTableIsBounded(h: Hub, holderId: string)
    requires Reachable(h)
    ensures |h.t.requests.records| <= MAX_TRACKED_REQUESTS
    ensures |PendingIds(h.t.requests.records)| <= MAX_PENDING_PROCESSES
    ensures |PendingIdsOf(h.t.requests.records, holderId)| <= MAX_PENDING_PROCESSES_PER_HOLDER
  {
    ReachableInv(h);
    assert Sat(TheTables, h) && Sat(TheCaps, h);
  }

  // ---- Revocation ----

  /** The bits tell the truth about the records, and whatever the public endpoint serves is the bits of this moment. */
  lemma StatusListIsTrue(h: Hub, i: nat, now: nat)
    requires Reachable(h)
    ensures i in h.t.issued.list.revoked <==> RevokedIndex(h.t.issued.records, i)
    ensures ServeList(h.t.issued.list, now).1.bits == h.t.issued.list.revoked
  {
    ReachableInv(h);
    assert Sat(TheBits, h);
  }

  /** A set bit stays set, whatever happens. */
  lemma {:induction false} RevokedForever(h: Hub, es: seq<Event>)
    requires Inv(h) && ValidRun(h, es)
    ensures h.t.issued.list.revoked <= Run(h, es).t.issued.list.revoked
    decreases |es|
  {
    if es != [] {
      StepKeeps(h, es[0]);
      BitsOnlyGrow(h, es[0]);
      RevokedForever(Step(h, es[0]), es[1..]);
    }
  }

  lemma BitsOnlyGrow(h: Hub, e: Event)
    requires Inv(h)
    ensures h.t.issued.list.revoked <= Step(h, e).t.issued.list.revoked
  {
    if e.Request? {
      RequestLeavesIssued(h, e.did, e.holderPid, e.bearer, e.ids, e.newHolderId, e.pid, e.now);
    } else if e.Sign? || e.RedeemIndex? {
      AllocatingLeavesBits(h, e);
    } else if e.ReleaseIndexes? || e.RedeemRelease? {
      ReleasingLeavesBits(h, e);
    } else if e.FileSigned? || e.RedeemFile? {
      FilingLeavesBits(h, e);
    } else if !e.RevokeCredential? && !e.ServeStatusList? {
      IssuedUntouched(h, e);
    }
  }

  lemma AllocatingLeavesBits(h: Hub, e: Event)
    requires e.Sign? || e.RedeemIndex?
    ensures Step(h, e).t.issued.list.revoked == h.t.issued.list.revoked
  {
    assert Allocate(h.t.issued.list).0.revoked == h.t.issued.list.revoked;
  }

  lemma ReleasingLeavesBits(h: Hub, e: Event)
    requires Inv(h) && (e.ReleaseIndexes? || e.RedeemRelease?)
    ensures Step(h, e).t.issued.list.revoked == h.t.issued.list.revoked
  {
    if e.ReleaseIndexes? && Delivers(h, e.i) && h.tasks[e.i].phase.Failing? {
      ReleaseEffect(h, e.i);
    }
  }

  lemma FilingLeavesBits(h: Hub, e: Event)
    requires Inv(h) && (e.FileSigned? || e.RedeemFile?)
    ensures Step(h, e).t.issued.list.revoked == h.t.issued.list.revoked
  {
    if e.FileSigned? && Delivers(h, e.i) && h.tasks[e.i].phase.Posted? {
      FileStepFiles(h, e.i);
    }
  }

  lemma RequestLeavesIssued(h: Hub, did: string, holderPid: string, bearer: Option<string>, ids: seq<string>,
                            newHolderId: string, pid: string, now: nat)
    ensures RequestStep(h, did, holderPid, bearer, ids, newHolderId, pid, now).t.issued == h.t.issued
  {
    var t := AcceptRequest(h.t, h.mode, did, holderPid, bearer, RequestedIds(ids), newHolderId, pid, now).0;
    assert t.issued == h.t.issued;
  }

  /** Every other step leaves the issued credentials alone. */
  lemma IssuedUntouched(h: Hub, e: Event)
    requires !e.Request? && !e.Sign? && !e.RedeemIndex? && !e.ReleaseIndexes? && !e.FileSigned?
    requires !e.RevokeCredential? && !e.ServeStatusList? && !e.RedeemRelease? && !e.RedeemFile?
    ensures Step(h, e).t.issued == h.t.issued
  {
    match e
    case DecideHolder(_, _, _, _) =>
    case RegisterHolder(_) =>
    case CreateDef(_) =>
    case UpdateDef(_) =>
    case DeleteDef(_) =>
    case ClaimTask(_) =>
    case Gather(_) =>
    case Abort(_, _) =>
    case Post(_, _, _) =>
    case Finish(_, _) =>
    case Redeem(_, _) =>
    case RedeemHolder(_, _, _) =>
    case RedeemLog(_, _, _) =>
  }
}
