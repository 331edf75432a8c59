/**
 The issuance protocol as interleaved steps. Each critical section of the source is one step over
 the four tables; what a task keeps in local variables between two critical sections is its phase.
 Which task moves next, every network outcome and every clock reading are free.

 The last three fields of `Hub` are history: they are never read by a step to decide anything.
 */
module Protocol {
  import opened Prelude
  import opened HolderKeys
  import opened IssuerTables

  /** A delivery task between two critical sections. */
  datatype Phase =
    | Queued
    | Claimed(job: Process)
    | Issuing(job: Process, defs: seq<Definition>, taken: seq<nat>, signed: seq<Record>)
    | Failing(job: Process, taken: seq<nat>, reason: string)
    | Posted(job: Process, signed: seq<Record>)
    | Settling(job: Process, error: Option<string>, signed: seq<Record>)
    | Finished(job: Process, error: Option<string>, signed: seq<Record>)
    | Dropped

  /** An OID4VCI issuance between two critical sections. */
  datatype Stage =
    | Admitted(def: Definition, did: string)
    | HolderKnown(def: Definition, did: string, holderId: string)
    | Numbered(def: Definition, did: string, holderId: string, index: nat)
    | Logged(def: Definition, did: string, holderId: string, index: nat, pid: string)
    | Refused(index: nat)
    | Filed(def: Definition, pid: string, record: Record)
    | Denied

  datatype Task = Delivery(pid: string, phase: Phase) | Redemption(stage: Stage)

  /** The task and the position in its list of signed credentials an id was minted for. */
  datatype Birth = Birth(task: nat, position: nat)

  datatype Hub = Hub(
    mode: HolderApproval,
    t: Tables,
    tasks: seq<Task>,
    taskOf: map<string, nat>,
    minted: set<string>,
    births: map<string, Birth>)

  function Start(mode: HolderApproval, now: nat): Hub {
    var seed := Definition("membership-credential", "MembershipCredential", "VC1_0_JWT", 3600, now);
    Hub(mode,
        Tables([seed], Registry(map[], map[], []), RequestLog(map[], []),
               Issued(map[], [], StatusBits(0, {}, {}, None))),
        [], map[], {}, map[])
  }

  datatype Event =
    | Request(did: string, holderPid: string, bearer: Option<string>, ids: seq<string>,
              newHolderId: string, pid: string, now: nat)
    | DecideHolder(holderId: string, approve: bool, moved: seq<string>, now: nat)
    | RegisterHolder(holder: Holder)
    | CreateDef(def: Definition)
    | UpdateDef(def: Definition)
    | DeleteDef(id: string)
    | ClaimTask(i: nat)
    | Gather(i: nat)
    | Abort(i: nat, reason: string)
    | Sign(i: nat, credentialId: string, now: nat)
    | Post(i: nat, accepted: bool, reason: string)
    | ReleaseIndexes(i: nat)
    | FileSigned(i: nat)
    | Finish(i: nat, now: nat)
    | Redeem(definitionId: string, did: string)
    | RedeemHolder(i: nat, newHolderId: string, now: nat)
    | RedeemIndex(i: nat)
    | RedeemLog(i: nat, pid: string, now: nat)
    | RedeemRelease(i: nat)
    | RedeemFile(i: nat, credentialId: string, now: nat)
    | RevokeCredential(id: string)
    | ServeStatusList(now: nat)

  predicate Delivers(h: Hub, i: nat) { i < |h.tasks| && h.tasks[i].Delivery? }

  predicate Redeems(h: Hub, i: nat) { i < |h.tasks| && h.tasks[i].Redemption? }

  function SetPhase(h: Hub, i: nat, phase: Phase): Hub
    requires Delivers(h, i)
  {
    h.(tasks := h.tasks[i := h.tasks[i].(phase := phase)])
  }

  function SetStage(h: Hub, i: nat, stage: Stage): Hub
    requires Redeems(h, i)
  {
    h.(tasks := h.tasks[i := Redemption(stage)])
  }

  /** Queues one delivery for each of `pids`, in that order. */
  ghost function Spawn(h: Hub, pids: seq<string>): Hub {
    h.(tasks := h.tasks + seq(|pids|, k requires 0 <= k < |pids| => Delivery(pids[k], Queued)),
       taskOf := map pid | pid in h.taskOf.Keys + Elems(pids) ::
         if pid in pids then |h.tasks| + Position(pids, pid) else h.taskOf[pid])
  }

  // ---- One function for each critical section ----

  ghost function RequestStep(h: Hub, did: string, holderPid: string, bearer: Option<string>, ids: seq<string>,
                             newHolderId: string, pid: string, now: nat): Hub
  {
    var (t, reply) := AcceptRequest(h.t, h.mode, did, holderPid, bearer, RequestedIds(ids), newHolderId, pid, now);
    var h' := h.(t := t, minted := h.minted + {pid});
    if reply.Created? && pid in t.requests.records && t.requests.records[pid].state.Approved?
    then Spawn(h', [pid]) else h'
  }

  ghost function DecideStep(h: Hub, holderId: string, approve: bool, moved: seq<string>, now: nat): Hub {
    if holderId in h.t.holders.holders then
      var holders := SetHolderStatus(h.t.holders, holderId, StatusAfter(approve));
      var h' := h.(t := h.t.(holders := holders, requests := Decide(h.t.requests, holderId, Verdict(approve), now)));
      if approve then Spawn(h', moved) else h'
    else
      h
  }

  function RegisterStep(h: Hub, holder: Holder): Hub {
    match AddHolder(h.t.holders, holder.(status := HolderApproved))
    case Ok(r) => h.(t := h.t.(holders := r))
    case Err(_) => h
  }

  function CreateDefStep(h: Hub, d: Definition): Hub {
    match CreateDefinition(h.t.catalog, d)
    case Ok(c) => h.(t := h.t.(catalog := c))
    case Err(_) => h
  }

  function UpdateDefStep(h: Hub, d: Definition): Hub {
    h.(t := h.t.(catalog := UpdateDefinition(h.t.catalog, d)))
  }

  function DeleteDefStep(h: Hub, id: string): Hub {
    if InUse(h.t.requests, id) then h else h.(t := h.t.(catalog := WithoutDefinition(h.t.catalog, id)))
  }

  function ClaimStep(h: Hub, i: nat): Hub {
    if Delivers(h, i) && h.tasks[i].phase.Queued? then
      match Claim(h.t.requests, h.tasks[i].pid)
      case None => SetPhase(h, i, Dropped)
      case Some((log, job)) => SetPhase(h.(t := h.t.(requests := log)), i, Claimed(job))
    else
      h
  }

  /** Every definition by id, or the first id the catalog does not have. */
  function LookupAll(catalog: seq<Definition>, ids: seq<string>): (r: Result<seq<Definition>, string>)
    ensures r.Ok? <==> forall k :: 0 <= k < |ids| ==> Names(catalog, ids[k])
    ensures r.Ok? ==> |r.value| == |ids| && forall k :: 0 <= k < |ids| ==>
      r.value[k].id == ids[k] && r.value[k] in catalog
  {
    if ids == [] then
      Ok([])
    else
      match Lookup(catalog, ids[0])
      case None => Err("no longer exists: " + ids[0])
      case Some(d) =>
        assert forall k :: 1 <= k < |ids| ==> ids[k] == ids[1..][k - 1];
        match LookupAll(catalog, ids[1..])
        case Err(e) =>
          assert forall k :: 0 <= k < |ids[1..]| ==> ids[1..][k] == ids[k + 1];
          Err(e)
        case Ok(ds) => Ok([d] + ds)
  }

  function GatherStep(h: Hub, i: nat): Hub {
    if Delivers(h, i) && h.tasks[i].phase.Claimed? then
      var job := h.tasks[i].phase.job;
      match LookupAll(h.t.catalog, job.definitions)
      case Ok(defs) => SetPhase(h, i, Issuing(job, defs, [], []))
      case Err(e) => SetPhase(h, i, Settling(job, Some(e), []))
    else
      h
  }

  /** The holder's DID or endpoint could not be used: no index has been taken yet. */
  function AbortStep(h: Hub, i: nat, reason: string): Hub {
    if Delivers(h, i) && h.tasks[i].phase.Issuing? && h.tasks[i].phase.taken == [] then
      SetPhase(h, i, Failing(h.tasks[i].phase.job, [], reason))
    else
      h
  }

  const EXHAUSTED: string := "the revocation status list is exhausted; no further credentials can be issued"

  /** One turn of the allocation loop: an index for the next definition, or failure when none is left. */
  ghost function SignStep(h: Hub, i: nat, credentialId: string, now: nat): Hub {
    if Delivers(h, i) && h.tasks[i].phase.Issuing? && |h.tasks[i].phase.signed| < |h.tasks[i].phase.defs| then
      var Issuing(job, defs, taken, signed) := h.tasks[i].phase;
      var (list, index) := Allocate(h.t.issued.list);
      match index
      case None => SetPhase(h, i, Failing(job, taken, EXHAUSTED))
      case Some(n) =>
        var record := Mint(credentialId, defs[|signed|], job.holderId, job.holderDid, job.id, n, now);
        SetPhase(h.(t := h.t.(issued := h.t.issued.(list := list)),
                    births := h.births[credentialId := Birth(i, |signed|)]),
                 i, Issuing(job, defs, taken + [n], signed + [record]))
    else
      h
  }

  /** The Storage API answered, or did not. */
  function PostStep(h: Hub, i: nat, accepted: bool, reason: string): Hub {
    if Delivers(h, i) && h.tasks[i].phase.Issuing? && |h.tasks[i].phase.signed| == |h.tasks[i].phase.defs| then
      var Issuing(job, _, taken, signed) := h.tasks[i].phase;
      SetPhase(h, i, if accepted then Posted(job, signed) else Failing(job, taken, reason))
    else
      h
  }

  function ReleaseStep(h: Hub, i: nat): Hub {
    if Delivers(h, i) && h.tasks[i].phase.Failing? then
      var Failing(job, taken, reason) := h.tasks[i].phase;
      SetPhase(h.(t := h.t.(issued := h.t.issued.(list := ReleaseAll(h.t.issued.list, taken)))),
               i, Settling(job, Some(reason), []))
    else
      h
  }

  function FileStep(h: Hub, i: nat): Hub {
    if Delivers(h, i) && h.tasks[i].phase.Posted? then
      var Posted(job, signed) := h.tasks[i].phase;
      SetPhase(h.(t := h.t.(issued := FileRecords(h.t.issued, signed))), i, Settling(job, None, signed))
    else
      h
  }

  function FinishStep(h: Hub, i: nat, now: nat): Hub {
    if Delivers(h, i) && h.tasks[i].phase.Settling? then
      var Settling(job, error, signed) := h.tasks[i].phase;
      SetPhase(h.(t := h.t.(requests := Settle(h.t.requests, h.tasks[i].pid, error, now))),
               i, Finished(job, error, signed))
    else
      h
  }

  function RedeemStep(h: Hub, definitionId: string, did: string): Hub {
    match Lookup(h.t.catalog, definitionId)
    case None => h
    case Some(d) => h.(tasks := h.tasks + [Redemption(Admitted(d, did))])
  }

  function RedeemHolderStep(h: Hub, i: nat, newHolderId: string, now: nat): Hub {
    if Redeems(h, i) && h.tasks[i].stage.Admitted? then
      var Admitted(d, did) := h.tasks[i].stage;
      match AdmitHolder(h.t.holders, h.mode, did, newHolderId, now)
      case Err(_) => SetStage(h, i, Denied)
      case Ok((r, holder)) =>
        if holder.status.HolderRejected? then SetStage(h, i, Denied)
        else SetStage(h.(t := h.t.(holders := r)), i, HolderKnown(d, did, holder.holderId))
    else
      h
  }

  ghost function RedeemIndexStep(h: Hub, i: nat): Hub {
    if Redeems(h, i) && h.tasks[i].stage.HolderKnown? then
      var HolderKnown(d, did, holderId) := h.tasks[i].stage;
      var (list, index) := Allocate(h.t.issued.list);
      match index
      case None => SetStage(h, i, Denied)
      case Some(n) =>
        SetStage(h.(t := h.t.(issued := h.t.issued.(list := list))), i, Numbered(d, did, holderId, n))
    else
      h
  }

  function RedeemLogStep(h: Hub, i: nat, pid: string, now: nat): Hub {
    if Redeems(h, i) && h.tasks[i].stage.Numbered? then
      var Numbered(d, did, holderId, n) := h.tasks[i].stage;
      match Track(h.t.requests, MAX_TRACKED_REQUESTS, pid, RedeemedProcess(pid, holderId, did, d.id, now))
      case Err(_) => SetStage(h, i, Refused(n))
      case Ok(log) =>
        SetStage(h.(t := h.t.(requests := log), minted := h.minted + {pid}, taskOf := h.taskOf[pid := i]),
                 i, Logged(d, did, holderId, n, pid))
    else
      h
  }

  function RedeemReleaseStep(h: Hub, i: nat): Hub {
    if Redeems(h, i) && h.tasks[i].stage.Refused? then
      var list := Release(h.t.issued.list, h.tasks[i].stage.index);
      SetStage(h.(t := h.t.(issued := h.t.issued.(list := list))), i, Denied)
    else
      h
  }

  function RedeemFileStep(h: Hub, i: nat, credentialId: string, now: nat): Hub {
    if Redeems(h, i) && h.tasks[i].stage.Logged? then
      var Logged(d, did, holderId, n, pid) := h.tasks[i].stage;
      var record := Mint(credentialId, d, holderId, did, pid, n, now);
      SetStage(h.(t := h.t.(issued := FileRecord(h.t.issued, record)),
                  births := h.births[credentialId := Birth(i, 0)]),
               i, Filed(d, pid, record))
    else
      h
  }

  function RevokeStep(h: Hub, id: string): Hub {
    h.(t := h.t.(issued := Revoke(h.t.issued, id)))
  }

  function ServeStep(h: Hub, now: nat): Hub {
    h.(t := h.t.(issued := h.t.issued.(list := ServeList(h.t.issued.list, now).0)))
  }

  /**
   What makes an event possible: minted ids are new, and the ids an approval or rejection moved are
   listed once each (the source walks a hash map, so in any order).
   */
  ghost predicate Enabled(h: Hub, e: Event) {
    match e
    case Request(_, _, _, _, _, pid, _) => pid !in h.minted
    case DecideHolder(holderId, approve, moved, _) =>
      && NoDup(moved)
      && Elems(moved) == MovedIds(h.t.requests, holderId, Verdict(approve))
    case Sign(_, credentialId, _) => credentialId !in h.births
    case RedeemLog(_, pid, _) => pid !in h.minted
    case RedeemFile(_, credentialId, _) => credentialId !in h.births
    case _ => true
  }

  ghost function Step(h: Hub, e: Event): Hub {
    match e
    case Request(did, holderPid, bearer, ids, newHolderId, pid, now) =>
      RequestStep(h, did, holderPid, bearer, ids, newHolderId, pid, now)
    case DecideHolder(holderId, approve, moved, now) => DecideStep(h, holderId, approve, moved, now)
    case RegisterHolder(holder) => RegisterStep(h, holder)
    case CreateDef(d) => CreateDefStep(h, d)
    case UpdateDef(d) => UpdateDefStep(h, d)
    case DeleteDef(id) => DeleteDefStep(h, id)
    case ClaimTask(i) => ClaimStep(h, i)
    case Gather(i) => GatherStep(h, i)
    case Abort(i, reason) => AbortStep(h, i, reason)
    case Sign(i, credentialId, now) => SignStep(h, i, credentialId, now)
    case Post(i, accepted, reason) => PostStep(h, i, accepted, reason)
    case ReleaseIndexes(i) => ReleaseStep(h, i)
    case FileSigned(i) => FileStep(h, i)
    case Finish(i, now) => FinishStep(h, i, now)
    case Redeem(definitionId, did) => RedeemStep(h, definitionId, did)
    case RedeemHolder(i, newHolderId, now) => RedeemHolderStep(h, i, newHolderId, now)
    case RedeemIndex(i) => RedeemIndexStep(h, i)
    case RedeemLog(i, pid, now) => RedeemLogStep(h, i, pid, now)
    case RedeemRelease(i) => RedeemReleaseStep(h, i)
    case RedeemFile(i, credentialId, now) => RedeemFileStep(h, i, credentialId, now)
    case RevokeCredential(id) => RevokeStep(h, id)
    case ServeStatusList(now) => ServeStep(h, now)
  }

  ghost function Run(h: Hub, es: seq<Event>): Hub
    decreases |es|
  {
    if es == [] then h else Run(Step(h, es[0]), es[1..])
  }

  ghost predicate ValidRun(h: Hub, es: seq<Event>)
    decreases |es|
  {
    es == [] || (Enabled(h, es[0]) && ValidRun(Step(h, es[0]), es[1..]))
  }

  // ---- The invariant ----

  predicate Running(phase: Phase) {
    phase.Claimed? || phase.Issuing? || phase.Failing? || phase.Posted? || phase.Settling?
  }

  /** The indexes a task has taken and not yet given up. */
  ghost function Held(task: Task): set<nat> {
    match task
    case Delivery(_, Issuing(_, _, taken, _)) => Elems(taken)
    case Delivery(_, Failing(_, taken, _)) => Elems(taken)
    case Delivery(_, Posted(_, signed)) => set r | r in signed :: r.index
    case Redemption(Numbered(_, _, _, index)) => {index}
    case Redemption(Logged(_, _, _, index, _)) => {index}
    case Redemption(Refused(index)) => {index}
    case _ => {}
  }

  /** The credentials a task has signed, in the order of its definitions. */
  function Signed(task: Task): seq<Record> {
    match task
    case Delivery(_, Issuing(_, _, _, signed)) => signed
    case Delivery(_, Posted(_, signed)) => signed
    case Delivery(_, Settling(_, _, signed)) => signed
    case Delivery(_, Finished(_, _, signed)) => signed
    case Redemption(Filed(_, _, record)) => [record]
    case _ => []
  }

  /** Whether what the task signed is in the table. */
  predicate HasFiled(task: Task) {
    match task
    case Delivery(_, phase) => phase.Settling? || phase.Finished?
    case Redemption(stage) => stage.Filed?
  }

  predicate Concerns(task: Task, pid: string) {
    match task
    case Delivery(p, _) => p == pid
    case Redemption(stage) => (stage.Logged? || stage.Filed?) && stage.pid == pid
  }

  datatype Owner = Pool | InFlight(task: nat) | Recorded(id: string)

  ghost predicate Holds(h: Hub, o: Owner, i: nat) {
    match o
    case Pool => i in h.t.issued.list.free
    case InFlight(k) => k < |h.tasks| && i in Held(h.tasks[k])
    case Recorded(id) => id in h.t.issued.records && h.t.issued.records[id].index == i
  }

  ghost predicate Owned(h: Hub, i: nat) {
    exists o :: Holds(h, o, i)
  }

  /** Every index ever handed out has exactly one owner, and no other index has any. */
  ghost predicate Partition(h: Hub) {
    && h.t.issued.list.next <= STATUS_LIST_BITS
    && (forall o, i: nat :: Holds(h, o, i) ==> i < h.t.issued.list.next)
    && (forall i: nat :: i < h.t.issued.list.next ==> Owned(h, i))
    && (forall o, o', i: nat :: Holds(h, o, i) && Holds(h, o', i) ==> o == o')
  }

  /** What one task's own variables satisfy. */
  ghost predicate LocalOk(task: Task) {
    match task
    case Delivery(_, Issuing(job, defs, taken, signed)) =>
      && |defs| == |job.definitions|
      && (forall k :: 0 <= k < |defs| ==> defs[k].id == job.definitions[k])
      && |taken| == |signed|
      && (forall k :: 0 <= k < |signed| ==> signed[k].index == taken[k])
      && NoDup(taken)
      && SignedFor(job, signed)
    case Delivery(_, Failing(_, taken, _)) => NoDup(taken)
    case Delivery(_, Posted(job, signed)) =>
      && SignedFor(job, signed) && |signed| == |job.definitions|
      && (forall i, j :: 0 <= i < j < |signed| ==> signed[i].index != signed[j].index)
    case Delivery(_, Settling(job, error, signed)) => OutcomeOk(job, error, signed)
    case Delivery(_, Finished(job, error, signed)) => OutcomeOk(job, error, signed)
    case Redemption(Filed(def, pid, record)) =>
      record.definitionId == def.id && record.processId == pid && record.status.Active?
    case _ => true
  }

  ghost predicate SignedFor(job: Process, signed: seq<Record>) {
    && |signed| <= |job.definitions|
    && forall k :: 0 <= k < |signed| ==>
         && signed[k].definitionId == job.definitions[k]
         && signed[k].processId == job.id
         && signed[k].holderId == job.holderId
         && signed[k].status.Active?
  }

  ghost predicate OutcomeOk(job: Process, error: Option<string>, signed: seq<Record>) {
    && SignedFor(job, signed)
    && |signed| == if error.None? then |job.definitions| else 0
  }

  /** A task agrees with the process it works for. */
  ghost predicate TaskLinked(h: Hub, i: nat)
    requires i < |h.tasks|
  {
    var records := h.t.requests.records;
    match h.tasks[i]
    case Delivery(pid, phase) =>
      && pid in h.taskOf && h.taskOf[pid] == i
      && (Running(phase) ==>
           && pid in records && records[pid] == phase.job
           && phase.job.id == pid && phase.job.state.Approved? && phase.job.deliveryStarted)
      && (phase.Finished? ==>
           && phase.job.id == pid
           && JobOk(phase.job)
           && (pid in records ==>
                && records[pid].state == (if phase.error.None? then Delivered else Errored)
                && records[pid].definitions == phase.job.definitions
                && records[pid].errorDetail == phase.error))
    case Redemption(stage) =>
      stage.Logged? || stage.Filed? ==>
        && stage.pid in h.taskOf && h.taskOf[stage.pid] == i
        && (stage.pid in records ==>
             records[stage.pid].state.Delivered? && records[stage.pid].definitions == [stage.def.id])
  }

  predicate DeliveredBy(task: Task) {
    match task
    case Delivery(_, phase) => phase.Finished? && phase.error.None?
    case Redemption(stage) => stage.Logged? || stage.Filed?
  }

  /** A process agrees with the task that works for it. */
  ghost predicate ProcessLinked(h: Hub, pid: string)
    requires pid in h.t.requests.records
  {
    var p := h.t.requests.records[pid];
    match p.state
    case Submitted => pid !in h.taskOf && !p.deliveryStarted
    case Approved =>
      && pid in h.taskOf && Delivers(h, h.taskOf[pid])
      && (if p.deliveryStarted then Running(h.tasks[h.taskOf[pid]].phase) else h.tasks[h.taskOf[pid]].phase.Queued?)
    case Delivered =>
      && pid in h.taskOf && h.taskOf[pid] < |h.tasks|
      && DeliveredBy(h.tasks[h.taskOf[pid]])
    case Errored =>
      && pid in h.taskOf && Delivers(h, h.taskOf[pid])
      && h.tasks[h.taskOf[pid]].phase.Finished? && h.tasks[h.taskOf[pid]].phase.error.Some?
    case Rejected =>
      pid in h.taskOf ==>
        && Delivers(h, h.taskOf[pid])
        && (h.tasks[h.taskOf[pid]].phase.Queued? || h.tasks[h.taskOf[pid]].phase.Dropped?)
  }

  ghost predicate Linked(h: Hub) {
    && (forall i :: 0 <= i < |h.tasks| ==> TaskLinked(h, i))
    && (forall pid :: pid in h.taskOf ==>
         pid in h.minted && h.taskOf[pid] < |h.tasks| && Concerns(h.tasks[h.taskOf[pid]], pid))
    && (forall pid :: pid in h.t.requests.records ==> pid in h.minted && ProcessLinked(h, pid))
  }

  ghost predicate JobOk(p: Process) {
    NoDup(p.definitions) && 1 <= |p.definitions| <= MAX_REQUEST_CREDENTIALS
  }

  /** Every definition an active process needs is in the catalog. */
  ghost predicate DefinitionsKnown(h: Hub) {
    forall pid :: pid in h.t.requests.records ==>
      && JobOk(h.t.requests.records[pid])
      && (h.t.requests.records[pid].state.IsActive() ==> NeedsMet(h.t.catalog, h.t.requests.records[pid]))
  }

  ghost predicate NeedsMet(catalog: seq<Definition>, p: Process) {
    forall id :: id in p.definitions ==> Names(catalog, id)
  }

  /** Every process belongs to a registered holder, whose status matches what the process waits for. */
  ghost predicate HoldersKnown(h: Hub) {
    forall pid :: pid in h.t.requests.records ==> HolderKnownFor(h.t.holders, h.t.requests.records[pid])
  }

  ghost predicate HolderKnownFor(r: Registry, p: Process) {
    && p.holderId in r.holders
    && HolderKey(p.holderDid) == HolderKey(r.holders[p.holderId].did)
    && (p.state.Submitted? ==> r.holders[p.holderId].status.HolderPending?)
    && (p.state.Approved? && !p.deliveryStarted ==> r.holders[p.holderId].status.HolderApproved?)
  }

  /** The same credential, whatever has become of its status since. */
  predicate SameCredential(a: Record, b: Record) {
    a.(status := Active) == b.(status := Active)
  }

  /** Records and the tasks that filed them. */
  ghost predicate RecordsOwned(h: Hub) {
    && (forall i, k :: 0 <= i < |h.tasks| && 0 <= k < |Signed(h.tasks[i])| ==>
         Signed(h.tasks[i])[k].id in h.births && h.births[Signed(h.tasks[i])[k].id] == Birth(i, k))
    && (forall id :: id in h.t.issued.records ==> id in h.births && FiledBy(h, id))
    && (forall i, k :: 0 <= i < |h.tasks| && HasFiled(h.tasks[i]) && 0 <= k < |Signed(h.tasks[i])| ==>
         Signed(h.tasks[i])[k].id in h.t.issued.records)
  }

  ghost predicate FiledBy(h: Hub, id: string)
    requires id in h.t.issued.records && id in h.births
  {
    var Birth(i, k) := h.births[id];
    && i < |h.tasks| && HasFiled(h.tasks[i]) && k < |Signed(h.tasks[i])|
    && SameCredential(h.t.issued.records[id], Signed(h.tasks[i])[k])
  }

  /** A bit is set exactly when a record owns it and is revoked; a cached JWT shows the current bits. */
  ghost predicate BitsTrue(h: Hub) {
    && (forall i :: i in h.t.issued.list.revoked <==> RevokedIndex(h.t.issued.records, i))
    && (h.t.issued.list.cached.Some? ==> h.t.issued.list.cached.value.bits == h.t.issued.list.revoked)
  }

  ghost predicate RevokedIndex(records: map<string, Record>, i: nat) {
    exists id :: id in records && records[id].index == i && records[id].status.Revoked?
  }

  ghost predicate TablesOk(h: Hub) {
    && RegistryOk(h.t.holders)
    && LogOk(h.t.requests)
    && |h.t.requests.records| <= MAX_TRACKED_REQUESTS
    && IssuedOk(h.t.issued)
  }

  ghost predicate Caps(h: Hub) {
    && |PendingIds(h.t.requests.records)| <= MAX_PENDING_PROCESSES
    && (forall holderId :: |PendingIdsOf(h.t.requests.records, holderId)| <= MAX_PENDING_PROCESSES_PER_HOLDER)
  }

  /** The holder a redemption was admitted for is registered under the DID that asked. */
  ghost predicate RedeemerKnown(r: Registry, task: Task) {
    task.Redemption? && (task.stage.HolderKnown? || task.stage.Numbered?) ==>
      && task.stage.holderId in r.holders
      && HolderKey(task.stage.did) == HolderKey(r.holders[task.stage.holderId].did)
  }

  ghost predicate Locals(h: Hub) {
    forall i :: 0 <= i < |h.tasks| ==> LocalOk(h.tasks[i]) && RedeemerKnown(h.t.holders, h.tasks[i])
  }

  /** Holders are never forgotten and keep their DID. */
  ghost predicate SameDids(r: Registry, r': Registry) {
    forall id :: id in r.holders ==> id in r'.holders && r'.holders[id].did == r.holders[id].did
  }

  /** The parts of the invariant, by name. */
  datatype Clause =
    | TheTables
    | TheCaps
    | TheHolders
    | TheDefinitions
    | TheLinks
    | TheLocals
    | TheRecords
    | ThePartition
    | TheBits

  ghost predicate Sat(c: Clause, h: Hub) {
    match c
    case TheTables => TablesOk(h)
    case TheCaps => Caps(h)
    case TheHolders => HoldersKnown(h)
    case TheDefinitions => DefinitionsKnown(h)
    case TheLinks => Linked(h)
    case TheLocals => Locals(h)
    case TheRecords => RecordsOwned(h)
    case ThePartition => Partition(h)
    case TheBits => BitsTrue(h)
  }

  ghost predicate Inv(h: Hub) {
    forall c: Clause :: Sat(c, h)
  }

  /** One part of the invariant, under its name alone: what it says is not spelled out where only the name is needed. */
  ghost predicate Kept(c: Clause, h: Hub) {
    forall d: Clause :: d == c ==> Sat(d, h)
  }

  lemma Establish(h: Hub)
    requires Kept(TheTables, h) && Kept(TheCaps, h) && Kept(TheHolders, h) && Kept(TheDefinitions, h)
    requires Kept(TheLinks, h) && Kept(TheLocals, h) && Kept(TheRecords, h) && Kept(ThePartition, h) && Kept(TheBits, h)
    ensures Inv(h)
  {
    forall c: Clause
      ensures Sat(c, h)
    {
      match c
      case TheTables =>
      case TheCaps =>
      case TheHolders =>
      case TheDefinitions =>
      case TheLinks =>
      case TheLocals =>
      case TheRecords =>
      case ThePartition =>
      case TheBits =>
    }
  }

  lemma SameTables(h: Hub, h': Hub)
    requires Inv(h) && h'.t.holders == h.t.holders && h'.t.requests == h.t.requests && IssuedOk(h'.t.issued)
    ensures Kept(TheTables, h')
  {
    assert Sat(TheTables, h);
  }

  lemma SameCaps(h: Hub, h': Hub)
    requires Inv(h) && h'.t.requests == h.t.requests
    ensures Kept(TheCaps, h')
  {
    assert Sat(TheCaps, h);
  }

  lemma SameHolders(h: Hub, h': Hub)
    requires Inv(h) && h'.t.requests == h.t.requests && h'.t.holders == h.t.holders
    ensures Kept(TheHolders, h')
  {
    assert Sat(TheHolders, h);
  }

  lemma SameDefinitions(h: Hub, h': Hub)
    requires Inv(h) && h'.t.requests == h.t.requests && h'.t.catalog == h.t.catalog
    ensures Kept(TheDefinitions, h')
  {
    assert Sat(TheDefinitions, h);
  }

  lemma SameBits(h: Hub, h': Hub)
    requires Inv(h) && h'.t.issued.records == h.t.issued.records
    requires h'.t.issued.list.revoked == h.t.issued.list.revoked && h'.t.issued.list.cached == h.t.issued.list.cached
    ensures Kept(TheBits, h')
  {
    assert Sat(TheBits, h);
  }

  /** The clauses that only speak of the tables the step did not touch. */
  lemma Untouched(h: Hub, h': Hub)
    requires Inv(h)
    ensures h'.t.holders == h.t.holders && h'.t.requests == h.t.requests && IssuedOk(h'.t.issued) ==>
      Kept(TheTables, h')
    ensures h'.t.requests == h.t.requests ==> Kept(TheCaps, h')
    ensures h'.t.requests == h.t.requests && h'.t.holders == h.t.holders ==> Kept(TheHolders, h')
    ensures h'.t.requests == h.t.requests && h'.t.catalog == h.t.catalog ==> Kept(TheDefinitions, h')
    ensures (&& h'.t.issued.records == h.t.issued.records
             && h'.t.issued.list.revoked == h.t.issued.list.revoked
             && h'.t.issued.list.cached == h.t.issued.list.cached) ==> Kept(TheBits, h')
    ensures IssuedOk(h.t.issued)
  {
    assert IssuedOk(h.t.issued) by {
      assert Sat(TheTables, h);
    }
    if h'.t.requests == h.t.requests {
      SameCaps(h, h');
      if h'.t.holders == h.t.holders {
        SameHolders(h, h');
        if IssuedOk(h'.t.issued) {
          SameTables(h, h');
        }
      }
      if h'.t.catalog == h.t.catalog {
        SameDefinitions(h, h');
      }
    }
    if h'.t.issued.records == h.t.issued.records
       && h'.t.issued.list.revoked == h.t.issued.list.revoked && h'.t.issued.list.cached == h.t.issued.list.cached {
      SameBits(h, h');
    }
  }
}
