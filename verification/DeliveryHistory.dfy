/**
 What deliveries and OID4VCI issuances did, traced back to its causes: which definitions a credential was
 minted from and when, whether the holder took it, why a delivery failed, and who let the holder in.
 */
module DeliveryHistory {
  import opened Prelude
  import opened IssuerTables
  import opened Protocol
  import opened IssuanceInvariant
  import opened IssuanceSteps
  import opened IssuanceTheorems
  import opened IssuanceOutcomes
  import opened IssuanceHistory

  // ---- How a task moves ----

  /** A credential minted from a definition for a holder, active, under an index: valid from the time of minting. */
  ghost predicate Describes(c: Record, d: Definition, holderId: string, holderDid: string, pid: string) {
    && c.credentialType == d.credentialType && c.definitionId == d.id && c.format == d.format
    && c.holderId == holderId && c.holderDid == holderDid && c.processId == pid
    && c.expiresAt == c.issuedAt + d.validity && c.status.Active?
  }

  /** What `Sign` leaves of delivery `i`: one more credential, under a free index, or failure when there is none. */
  ghost predicate SignedNext(h: Hub, e: Event, job: Process, defs: seq<Definition>, taken: seq<nat>,
                             signed: seq<Record>, phase': Phase)
    requires e.Sign? && |signed| < |defs|
  {
    match Allocate(h.t.issued.list).1
    case None => phase' == Failing(job, taken, EXHAUSTED)
    case Some(n) =>
      && phase'.Issuing? && phase'.job == job && phase'.defs == defs && phase'.taken == taken + [n]
      && |phase'.signed| == |signed| + 1 && phase'.signed[..|signed|] == signed
      && var c := phase'.signed[|signed|];
         && c.id == e.credentialId && c.issuedAt == e.now && c.index == n
         && Describes(c, defs[|signed|], job.holderId, job.holderDid, job.id)
  }

  /** What becomes of a delivery that issues: it fails before its first index, signs the next one, or posts them all. */
  ghost predicate IssuingMoves(h: Hub, e: Event, i: nat, job: Process, defs: seq<Definition>, taken: seq<nat>,
                               signed: seq<Record>, phase': Phase)
  {
    || (e.Abort? && e.i == i && taken == [] && phase' == Failing(job, [], e.reason))
    || (&& e.Post? && e.i == i && |signed| == |defs|
        && phase' == if e.accepted then Posted(job, signed) else Failing(job, taken, e.reason))
    || (e.Sign? && e.i == i && |signed| < |defs| && SignedNext(h, e, job, defs, taken, signed, phase'))
  }

  /** The definitions of `ids`, in that order, as the catalog has them. */
  ghost predicate TakenFrom(catalog: seq<Definition>, ids: seq<string>, defs: seq<Definition>) {
    |defs| == |ids| && forall k :: 0 <= k < |defs| ==> defs[k] in catalog && defs[k].id == ids[k]
  }

  /** The next phase of delivery `i`. */
  ghost predicate DeliveryMoves(h: Hub, e: Event, i: nat, pid: string, phase: Phase, phase': Phase) {
    match phase
    case Queued =>
      && e == ClaimTask(i)
      && if pid in h.t.requests.records && h.t.requests.records[pid].state.Approved?
         then phase' == Claimed(h.t.requests.records[pid].(deliveryStarted := true)) else phase'.Dropped?
    case Claimed(job) =>
      && e == Gather(i)
      && (|| (&& phase'.Settling? && phase'.job == job && phase'.error.Some? && phase'.signed == []
              && exists id :: id in job.definitions && !Names(h.t.catalog, id))
          || (&& phase'.Issuing? && phase'.job == job && phase'.taken == [] && phase'.signed == []
              && TakenFrom(h.t.catalog, job.definitions, phase'.defs)))
    case Issuing(job, defs, taken, signed) => IssuingMoves(h, e, i, job, defs, taken, signed, phase')
    case Failing(job, taken, reason) => e == ReleaseIndexes(i) && phase' == Settling(job, Some(reason), [])
    case Posted(job, signed) => e == FileSigned(i) && phase' == Settling(job, None, signed)
    case Settling(job, error, signed) => e.Finish? && e.i == i && phase' == Finished(job, error, signed)
    case _ => false
  }

  /** An OID4VCI issuance gets the index allocated, or is denied when there is none. */
  ghost predicate NumberedNext(h: Hub, d: Definition, did: string, holderId: string, stage': Stage) {
    match Allocate(h.t.issued.list).1
    case None => stage'.Denied?
    case Some(n) => stage' == Numbered(d, did, holderId, n)
  }

  /** The next stage of OID4VCI issuance `i`. */
  ghost predicate RedemptionMoves(h: Hub, e: Event, i: nat, stage: Stage, stage': Stage) {
    match stage
    case Admitted(d, did) =>
      e.RedeemHolder? && e.i == i && (stage'.Denied? || (stage'.HolderKnown? && stage'.def == d && stage'.did == did))
    case HolderKnown(d, did, holderId) => e == RedeemIndex(i) && NumberedNext(h, d, did, holderId, stage')
    case Numbered(d, did, holderId, n) =>
      e.RedeemLog? && e.i == i && (stage' == Refused(n) || stage' == Logged(d, did, holderId, n, e.pid))
    case Logged(d, did, holderId, n, pid) =>
      && e.RedeemFile? && e.i == i
      && stage'.Filed? && stage'.def == d && stage'.pid == pid
      && stage'.record.id == e.credentialId && stage'.record.issuedAt == e.now && stage'.record.index == n
      && Describes(stage'.record, d, holderId, did, pid)
    case Refused(n) => e == RedeemRelease(i) && stage'.Denied?
    case _ => false
  }

  /** A task that is new: a delivery in the queue, or the issuance of a definition the catalog has. */
  ghost predicate Arrives(h: Hub, e: Event, t: Task) {
    match t
    case Delivery(_, phase) => phase.Queued?
    case Redemption(stage) => stage.Admitted? && e == Redeem(stage.def.id, stage.did) && stage.def in h.t.catalog
  }

  ghost predicate MovesOn(h: Hub, e: Event, i: nat, t: Task, t': Task) {
    match t
    case Delivery(pid, phase) => t'.Delivery? && t'.pid == pid && DeliveryMoves(h, e, i, pid, phase, t'.phase)
    case Redemption(stage) => t'.Redemption? && RedemptionMoves(h, e, i, stage, t'.stage)
  }

  ghost predicate TaskMoves(h: Hub, e: Event, i: nat, t': Task) {
    if i >= |h.tasks| then Arrives(h, e, t') else t' == h.tasks[i] || MovesOn(h, e, i, h.tasks[i], t')
  }

  ghost predicate AllMove(h: Hub, e: Event, h': Hub) {
    |h.tasks| <= |h'.tasks| && forall i: nat :: i < |h'.tasks| ==> TaskMoves(h, e, i, h'.tasks[i])
  }

  lemma DeliveriesMove(h: Hub, e: Event)
    requires e.ClaimTask? || e.Abort? || e.Post? || e.ReleaseIndexes? || e.FileSigned? || e.Finish?
    ensures AllMove(h, e, Step(h, e))
  {
    match e
    case ClaimTask(_) =>
    case Abort(_, _) =>
    case Post(_, _, _) =>
    case ReleaseIndexes(_) =>
    case FileSigned(_) =>
    case Finish(_, _) =>
  }

  lemma GatherMoves(h: Hub, e: Event)
    requires e.Gather?
    ensures AllMove(h, e, Step(h, e))
  {
  }

  lemma SignMoves(h: Hub, e: Event)
    requires e.Sign?
    ensures AllMove(h, e, Step(h, e))
  {
  }

  lemma RedemptionsMove(h: Hub, e: Event)
    requires e.Redeem? || e.RedeemHolder? || e.RedeemIndex? || e.RedeemRelease?
    ensures AllMove(h, e, Step(h, e))
  {
    match e
    case Redeem(_, _) =>
    case RedeemHolder(_, _, _) =>
    case RedeemIndex(_) =>
    case RedeemRelease(_) =>
  }

  lemma FilingsMove(h: Hub, e: Event)
    requires e.RedeemLog? || e.RedeemFile?
    ensures AllMove(h, e, Step(h, e))
  {
    match e
    case RedeemLog(_, _, _) =>
    case RedeemFile(_, _, _) =>
  }

  lemma QueueGrows(h: Hub, e: Event)
    requires e.Request? || e.DecideHolder?
    ensures AllMove(h, e, Step(h, e))
  {
  }

  lemma OthersMove(h: Hub, e: Event)
    requires || e.RegisterHolder? || e.CreateDef? || e.UpdateDef? || e.DeleteDef?
             || e.RevokeCredential? || e.ServeStatusList?
    ensures AllMove(h, e, Step(h, e))
  {
    match e
    case RegisterHolder(_) =>
    case CreateDef(_) =>
    case UpdateDef(_) =>
    case DeleteDef(_) =>
    case RevokeCredential(_) =>
    case ServeStatusList(_) =>
  }

  /** Every step moves every task as its phase or stage allows, or leaves it, or adds a new one. */
  lemma TasksMove(h: Hub, e: Event)
    ensures AllMove(h, e, Step(h, e))
  {
    if e.Request? || e.DecideHolder? {
      QueueGrows(h, e);
    } else if e.Gather? {
      GatherMoves(h, e);
    } else if e.Sign? {
      SignMoves(h, e);
    } else if e.Redeem? || e.RedeemHolder? || e.RedeemIndex? || e.RedeemRelease? {
      RedemptionsMove(h, e);
    } else if e.RedeemLog? || e.RedeemFile? {
      FilingsMove(h, e);
    } else if e.ClaimTask? || e.Abort? || e.Post? || e.ReleaseIndexes? || e.FileSigned? || e.Finish? {
      DeliveriesMove(h, e);
    } else {
      OthersMove(h, e);
    }
  }

  // ---- Tracing a task back ----

  lemma MovesAt(r: Trace, n: nat, i: nat)
    requires IsRun(r) && 0 < n <= |r.events| && i < |At(r, n).tasks|
    ensures TaskMoves(At(r, n - 1), r.events[n - 1], i, At(r, n).tasks[i])
  {
    assert StepAt(r, n - 1);
    TasksMove(At(r, n - 1), r.events[n - 1]);
  }

  /** Task `i` was delivery `t`'s at event `m`, and had the given phase just before it. */
  ghost predicate PhaseAt(r: Trace, m: nat, i: nat, pid: string, phase: Phase)
    requires m < |r.events|
  {
    Delivers(At(r, m), i) && At(r, m).tasks[i] == Delivery(pid, phase)
  }

  /** A delivery that has its process in hand. */
  predicate HasJob(phase: Phase) {
    Running(phase) || phase.Finished?
  }

  /** A delivery claimed its process at event `m`, from the request table, where it was APPROVED. */
  ghost predicate ClaimedAt(r: Trace, m: nat, i: nat, pid: string, job: Process)
    requires m < |r.events|
  {
    && r.events[m] == ClaimTask(i) && PhaseAt(r, m, i, pid, Queued)
    && var records := At(r, m).t.requests.records;
       pid in records && records[pid].state.Approved? && job == records[pid].(deliveryStarted := true)
  }

  lemma NoTaskAtStart(r: Trace)
    requires IsRun(r)
    ensures At(r, 0).tasks == []
  {
  }

  /** Every delivery that has a process in hand claimed it. */
  lemma {:induction false} WhenClaimed(r: Trace, n: nat, i: nat) returns (m: nat)
    requires IsRun(r) && n <= |r.events| && Delivers(At(r, n), i) && HasJob(At(r, n).tasks[i].phase)
    ensures m < n && ClaimedAt(r, m, i, At(r, n).tasks[i].pid, At(r, n).tasks[i].phase.job)
    decreases n
  {
    NoTaskAtStart(r);
    MovesAt(r, n, i);
    var h := At(r, n - 1);
    if Delivers(h, i) && HasJob(h.tasks[i].phase) {
      m := WhenClaimed(r, n - 1, i);
    } else {
      m := n - 1;
    }
  }

  /** The job's definitions were read from the catalog at event `m`. */
  ghost predicate GatheredAt(r: Trace, m: nat, i: nat, pid: string, job: Process, defs: seq<Definition>)
    requires m < |r.events|
  {
    && r.events[m] == Gather(i) && PhaseAt(r, m, i, pid, Claimed(job))
    && TakenFrom(At(r, m).t.catalog, job.definitions, defs)
  }

  lemma {:induction false} WhenGathered(r: Trace, n: nat, i: nat) returns (m: nat)
    requires IsRun(r) && n <= |r.events| && Delivers(At(r, n), i) && At(r, n).tasks[i].phase.Issuing?
    ensures m < n
    ensures GatheredAt(r, m, i, At(r, n).tasks[i].pid, At(r, n).tasks[i].phase.job, At(r, n).tasks[i].phase.defs)
    decreases n
  {
    NoTaskAtStart(r);
    MovesAt(r, n, i);
    var h := At(r, n - 1);
    if Delivers(h, i) && h.tasks[i].phase.Issuing? {
      m := WhenGathered(r, n - 1, i);
    } else {
      m := n - 1;
    }
  }

  predicate HasDefinition(stage: Stage) {
    stage.Admitted? || stage.HolderKnown? || stage.Numbered? || stage.Logged? || stage.Filed?
  }

  /** Definition `d` was read from the catalog at event `m`, for an OID4VCI client that proved `did`. */
  ghost predicate AskedAt(r: Trace, m: nat, i: nat, d: Definition, did: string)
    requires m < |r.events|
  {
    r.events[m] == Redeem(d.id, did) && |At(r, m).tasks| <= i && d in At(r, m).t.catalog
  }

  lemma {:induction false} WhenAsked(r: Trace, n: nat, i: nat) returns (m: nat, did: string)
    requires IsRun(r) && n <= |r.events| && Redeems(At(r, n), i) && HasDefinition(At(r, n).tasks[i].stage)
    ensures m < n && AskedAt(r, m, i, At(r, n).tasks[i].stage.def, did)
    ensures !At(r, n).tasks[i].stage.Filed? ==> At(r, n).tasks[i].stage.did == did
    decreases n
  {
    NoTaskAtStart(r);
    MovesAt(r, n, i);
    var h := At(r, n - 1);
    if i < |h.tasks| {
      m, did := WhenAsked(r, n - 1, i);
    } else {
      m, did := n - 1, At(r, n).tasks[i].stage.did;
    }
  }

  /** Event `e` mints credential `c` as the `k`-th of task `i`: what it then says, and from what. */
  ghost predicate Mints(h: Hub, e: Event, i: nat, k: nat, c: Record) {
    && i < |h.tasks|
    && match h.tasks[i]
       case Delivery(_, phase) =>
         && phase.Issuing? && e == Sign(i, c.id, c.issuedAt) && |phase.signed| == k < |phase.defs|
         && Describes(c, phase.defs[k], phase.job.holderId, phase.job.holderDid, phase.job.id)
       case Redemption(stage) =>
         && stage.Logged? && e == RedeemFile(i, c.id, c.issuedAt) && k == 0
         && Describes(c, stage.def, stage.holderId, stage.did, stage.pid)
  }

  /** What a task holds after a step it held before, or the step minted it. */
  ghost predicate MintsOrKeeps(h: Hub, e: Event, i: nat, k: nat, t': Task)
    requires k < |Signed(t')|
  {
    || (i < |h.tasks| && k < |Signed(h.tasks[i])| && Signed(h.tasks[i])[k] == Signed(t')[k])
    || Mints(h, e, i, k, Signed(t')[k])
  }

  lemma IssuingMints(h: Hub, e: Event, i: nat, k: nat, pid: string, phase: Phase, phase': Phase)
    requires i < |h.tasks| && h.tasks[i] == Delivery(pid, phase) && phase.Issuing?
    requires IssuingMoves(h, e, i, phase.job, phase.defs, phase.taken, phase.signed, phase')
    requires k < |Signed(Delivery(pid, phase'))|
    ensures MintsOrKeeps(h, e, i, k, Delivery(pid, phase'))
  {
    if e.Sign? && phase'.Issuing? && k < |phase.signed| {
      assert phase'.signed[..|phase.signed|][k] == phase'.signed[k];
    }
  }

  lemma MovingMints(h: Hub, e: Event, i: nat, k: nat, t': Task)
    requires TaskMoves(h, e, i, t') && k < |Signed(t')|
    ensures MintsOrKeeps(h, e, i, k, t')
  {
    if i < |h.tasks| && h.tasks[i].Delivery? && h.tasks[i].phase.Issuing? && t' != h.tasks[i] {
      IssuingMints(h, e, i, k, t'.pid, h.tasks[i].phase, t'.phase);
    }
  }

  /** Every credential a task holds was minted by an event of that task. */
  lemma {:induction false} WhenMinted(r: Trace, n: nat, i: nat, k: nat) returns (m: nat)
    requires IsRun(r) && n <= |r.events| && i < |At(r, n).tasks| && k < |Signed(At(r, n).tasks[i])|
    ensures m < n && Mints(At(r, m), r.events[m], i, k, Signed(At(r, n).tasks[i])[k])
    decreases n
  {
    NoTaskAtStart(r);
    MovesAt(r, n, i);
    var h := At(r, n - 1);
    MovingMints(h, r.events[n - 1], i, k, At(r, n).tasks[i]);
    if i < |h.tasks| && k < |Signed(h.tasks[i])| && Signed(h.tasks[i])[k] == Signed(At(r, n).tasks[i])[k] {
      m := WhenMinted(r, n - 1, i, k);
    } else {
      m := n - 1;
    }
  }

  // ---- Records ----

  /** Credential `c` says what definition `d` says: its type, its format, and how long it is valid from its issue. */
  ghost predicate IssuedFrom(c: Record, d: Definition) {
    && c.credentialType == d.credentialType && c.definitionId == d.id && c.format == d.format
    && c.expiresAt == c.issuedAt + d.validity
  }

  /**
   `c` was signed at event `m` by a delivery, for the holder of a process that was APPROVED when it was claimed
   at event `a`, from a definition the process names and the catalog had at event `g`.
   */
  ghost predicate CameByDelivery(r: Trace, c: Record, i: nat, a: nat, g: nat, m: nat, d: Definition, job: Process)
    requires a < g < m < |r.events|
  {
    && ClaimedAt(r, a, i, c.processId, job)
    && r.events[g] == Gather(i) && d in At(r, g).t.catalog && d.id in job.definitions
    && r.events[m] == Sign(i, c.id, c.issuedAt)
    && IssuedFrom(c, d) && c.holderId == job.holderId && c.holderDid == job.holderDid
  }

  /** `c` was filed at event `m` for an OID4VCI client that proved its DID at event `g`, when the catalog had `d`. */
  ghost predicate CameByRedemption(r: Trace, c: Record, i: nat, g: nat, m: nat, d: Definition)
    requires g < m < |r.events|
  {
    && AskedAt(r, g, i, d, c.holderDid)
    && r.events[m] == RedeemFile(i, c.id, c.issuedAt)
    && IssuedFrom(c, d)
  }

  ghost predicate HasCause(r: Trace, n: nat, c: Record)
    requires n <= |r.events|
  {
    || (exists i: nat, a: nat, g: nat, m: nat, d, job :: a < g < m < n && CameByDelivery(r, c, i, a, g, m, d, job))
    || (exists i: nat, g: nat, m: nat, d :: g < m < n && CameByRedemption(r, c, i, g, m, d))
  }

  /** Where a credential that delivery `i` holds came from. */
  lemma SignedHasCause(r: Trace, n: nat, i: nat, k: nat)
    requires IsRun(r) && n <= |r.events| && Delivers(At(r, n), i) && k < |Signed(At(r, n).tasks[i])|
    ensures HasCause(r, n, Signed(At(r, n).tasks[i])[k])
  {
    var c := Signed(At(r, n).tasks[i])[k];
    var m := WhenMinted(r, n, i, k);
    StaysDelivery(r, m, n, i);
    var g := WhenGathered(r, m, i);
    var a := WhenClaimed(r, g, i);
    var phase := At(r, m).tasks[i].phase;
    JobIsItsOwn(r, m, i);
    assert phase.defs[k].id in phase.job.definitions;
    assert CameByDelivery(r, c, i, a, g, m, phase.defs[k], phase.job);
  }

  lemma FiledHasCause(r: Trace, n: nat, i: nat, k: nat)
    requires IsRun(r) && n <= |r.events| && Redeems(At(r, n), i) && k < |Signed(At(r, n).tasks[i])|
    ensures HasCause(r, n, Signed(At(r, n).tasks[i])[k])
  {
    var c := Signed(At(r, n).tasks[i])[k];
    var m := WhenMinted(r, n, i, k);
    StaysDelivery(r, m, n, i);
    var g, did := WhenAsked(r, m, i);
    assert CameByRedemption(r, c, i, g, m, At(r, m).tasks[i].stage.def);
  }

  lemma NoneLeaves(r: Trace, n: nat)
    requires IsRun(r) && 0 < n <= |r.events|
    ensures |At(r, n - 1).tasks| <= |At(r, n).tasks|
  {
    assert StepAt(r, n - 1);
    TasksMove(At(r, n - 1), r.events[n - 1]);
  }

  /** A delivery stays the delivery of its process, and an OID4VCI issuance stays one. */
  lemma {:induction false} StaysDelivery(r: Trace, m: nat, n: nat, i: nat)
    requires IsRun(r) && m <= n <= |r.events| && i < |At(r, m).tasks|
    ensures i < |At(r, n).tasks| && At(r, n).tasks[i].Delivery? == At(r, m).tasks[i].Delivery?
    ensures At(r, n).tasks[i].Delivery? ==> At(r, n).tasks[i].pid == At(r, m).tasks[i].pid
    decreases n
  {
    if m < n {
      StaysDelivery(r, m, n - 1, i);
      NoneLeaves(r, n);
      MovesAt(r, n, i);
    }
  }

  lemma JobIsItsOwn(r: Trace, n: nat, i: nat)
    requires IsRun(r) && n <= |r.events| && Delivers(At(r, n), i) && Running(At(r, n).tasks[i].phase)
    ensures At(r, n).tasks[i].phase.job.id == At(r, n).tasks[i].pid
  {
    AtIsReachable(r, n);
    assert Sat(TheLinks, At(r, n));
    assert TaskLinked(At(r, n), i);
  }

  lemma CauseIgnoresStatus(r: Trace, n: nat, c: Record, c': Record)
    requires n <= |r.events| && HasCause(r, n, c) && SameCredential(c, c')
    ensures HasCause(r, n, c')
  {
    if i: nat, a: nat, g: nat, m: nat, d, job :| a < g < m < n && CameByDelivery(r, c, i, a, g, m, d, job) {
      assert CameByDelivery(r, c', i, a, g, m, d, job);
    } else {
      var i: nat, g: nat, m: nat, d :| g < m < n && CameByRedemption(r, c, i, g, m, d);
      assert CameByRedemption(r, c', i, g, m, d);
    }
  }

  /**
   Every credential on record was signed or filed by one event, whose clock reading is its time of issue. It says
   what a definition said that was in the catalog when its task read it, and is valid as long as that
   definition says. Its holder is the one of the process the delivery had claimed, or its DID the one the
   OID4VCI client had proved.
   */
  lemma RecordHistory(r: Trace, n: nat, id: string)
    requires IsRun(r) && n <= |r.events| && id in At(r, n).t.issued.records
    ensures At(r, n).t.issued.records[id].id == id && HasCause(r, n, At(r, n).t.issued.records[id])
  {
    var h := At(r, n);
    AtIsReachable(r, n);
    RecordHasItsTask(h, id);
    assert Sat(TheTables, h);
    var c := h.t.issued.records[id];
    var i, k := h.taskOf[c.processId], h.births[id].position;
    if Delivers(h, i) {
      SignedHasCause(r, n, i, k);
    } else {
      FiledHasCause(r, n, i, k);
    }
    CauseIgnoresStatus(r, n, Signed(h.tasks[i])[k], c);
  }

  // ---- Who lets a delivery run ----

  lemma LetInEarlier(r: Trace, m: nat, n: nat, holderId: string)
    requires m <= n <= |r.events| && LetIn(r, m, holderId)
    ensures LetIn(r, n, holderId)
  {
  }

  /**
   In Manual mode a delivery only ever claims a process whose holder an operator approved or registered before,
   and so only ever files credentials for such a holder.
   */
  lemma ClaimedForLetIn(r: Trace, n: nat, i: nat)
    requires ModeOf(r).Manual? && IsRun(r) && n <= |r.events|
    requires Delivers(At(r, n), i) && HasJob(At(r, n).tasks[i].phase)
    ensures LetIn(r, n, At(r, n).tasks[i].phase.job.holderId)
  {
    var m := WhenClaimed(r, n, i);
    AtIsReachable(r, m);
    ClaimedForApprovedHolder(At(r, m), i);
    var holderId := At(r, n).tasks[i].phase.job.holderId;
    ApprovedByOperator(r, m, holderId);
    LetInEarlier(r, m, n, holderId);
  }

  /** In Manual mode every APPROVED process, its delivery queued or running, belongs to such a holder. */
  lemma ApprovedForLetIn(r: Trace, n: nat, pid: string)
    requires ModeOf(r).Manual? && IsRun(r) && n <= |r.events|
    requires pid in At(r, n).t.requests.records && At(r, n).t.requests.records[pid].state.Approved?
    ensures LetIn(r, n, At(r, n).t.requests.records[pid].holderId)
  {
    var h := At(r, n);
    AtIsReachable(r, n);
    var p := h.t.requests.records[pid];
    if p.deliveryStarted {
      assert Sat(TheLinks, h);
      assert ProcessLinked(h, pid) && TaskLinked(h, h.taskOf[pid]);
      assert Concerns(h.tasks[h.taskOf[pid]], pid);
      ClaimedForLetIn(r, n, h.taskOf[pid]);
    } else {
      StatusMatchesHolder(h, pid);
      ApprovedByOperator(r, n, p.holderId);
    }
  }

  /** In Manual mode every credential on record went to such a holder, or to an OID4VCI client that proved its DID. */
  lemma DeliveredToLetIn(r: Trace, n: nat, id: string)
    requires ModeOf(r).Manual? && IsRun(r) && n <= |r.events| && id in At(r, n).t.issued.records
    ensures var c := At(r, n).t.issued.records[id];
      || LetIn(r, n, c.holderId)
      || exists i: nat, g: nat, m: nat, d :: g < m < n && CameByRedemption(r, c, i, g, m, d)
  {
    RecordHistory(r, n, id);
    var c := At(r, n).t.issued.records[id];
    if i: nat, a: nat, g: nat, m: nat, d, job :| a < g < m < n && CameByDelivery(r, c, i, a, g, m, d, job) {
      AtIsReachable(r, a);
      ClaimedForApprovedHolder(At(r, a), i);
      ApprovedByOperator(r, a, c.holderId);
      LetInEarlier(r, a, n, c.holderId);
    }
  }

  // ---- Why a delivery ends as it does ----

  /** Event `e` is why delivery `i` succeeds: the holder took everything, and everything was signed. */
  ghost predicate TakenInFull(h: Hub, e: Event, i: nat) {
    && Delivers(h, i) && h.tasks[i].phase.Issuing? && |h.tasks[i].phase.signed| == |h.tasks[i].phase.defs|
    && e.Post? && e.i == i && e.accepted
  }

  /** Event `e` is why delivery `i` fails: no endpoint, no index left, or the holder did not take it. */
  ghost predicate Fails(h: Hub, e: Event, i: nat, reason: string) {
    && Delivers(h, i) && h.tasks[i].phase.Issuing?
    && (|| e == Abort(i, reason)
        || (e.Sign? && e.i == i && Allocate(h.t.issued.list).1.None? && reason == EXHAUSTED)
        || e == Post(i, false, reason))
  }

  predicate Succeeding(phase: Phase) {
    phase.Posted? || ((phase.Settling? || phase.Finished?) && phase.error.None?)
  }

  function FailingWith(phase: Phase): Option<string> {
    match phase
    case Failing(_, _, reason) => Some(reason)
    case Settling(_, error, _) => error
    case Finished(_, error, _) => error
    case _ => None
  }

  lemma {:induction false} WhyDelivered(r: Trace, n: nat, i: nat) returns (m: nat)
    requires IsRun(r) && n <= |r.events| && Delivers(At(r, n), i) && Succeeding(At(r, n).tasks[i].phase)
    ensures m < n && TakenInFull(At(r, m), r.events[m], i)
    decreases n
  {
    NoTaskAtStart(r);
    MovesAt(r, n, i);
    var h := At(r, n - 1);
    if Delivers(h, i) && Succeeding(h.tasks[i].phase) {
      m := WhyDelivered(r, n - 1, i);
    } else {
      m := n - 1;
    }
  }

  /** No delivery fails for a definition that is gone. */
  lemma NeverVanishedAt(r: Trace, n: nat, i: nat)
    requires IsRun(r) && n <= |r.events| && Delivers(At(r, n), i) && At(r, n).tasks[i].phase.Claimed?
    ensures forall id :: id in At(r, n).tasks[i].phase.job.definitions ==> Names(At(r, n).t.catalog, id)
  {
    AtIsReachable(r, n);
    DefinitionsNeverVanish(At(r, n), i);
    var ids := At(r, n).tasks[i].phase.job.definitions;
    forall id | id in ids
      ensures Names(At(r, n).t.catalog, id)
    {
      assert ids[Position(ids, id)] == id;
    }
  }

  lemma {:induction false} WhyFailed(r: Trace, n: nat, i: nat) returns (m: nat)
    requires IsRun(r) && n <= |r.events| && Delivers(At(r, n), i) && FailingWith(At(r, n).tasks[i].phase).Some?
    ensures m < n && Fails(At(r, m), r.events[m], i, FailingWith(At(r, n).tasks[i].phase).value)
    decreases n
  {
    NoTaskAtStart(r);
    MovesAt(r, n, i);
    var h := At(r, n - 1);
    if Delivers(h, i) && FailingWith(h.tasks[i].phase).Some? {
      m := WhyFailed(r, n - 1, i);
    } else {
      m := n - 1;
      if Delivers(h, i) && h.tasks[i].phase.Claimed? {
        NeverVanishedAt(r, n - 1, i);
      }
    }
  }

  /** Task `i` works for the process, and is a delivery the holder took in full, or an OID4VCI issuance. */
  ghost predicate DeliveredTo(r: Trace, n: nat, i: nat, pid: string)
    requires n <= |r.events|
  {
    && i < |At(r, n).tasks| && Concerns(At(r, n).tasks[i], pid)
    && (At(r, n).tasks[i].Delivery? ==> exists m: nat :: m < n && TakenInFull(At(r, m), r.events[m], i))
  }

  ghost predicate FailedFor(r: Trace, n: nat, i: nat, pid: string, reason: string)
    requires n <= |r.events|
  {
    && Delivers(At(r, n), i) && Concerns(At(r, n).tasks[i], pid)
    && exists m: nat :: m < n && Fails(At(r, m), r.events[m], i, reason)
  }

  /**
   A DELIVERED process was taken by its holder in full, or was an OID4VCI one; an ERRORED process carries the
   reason of the event that made its delivery fail. The message that a definition no longer exists is never it.
   */
  lemma OutcomeHistory(r: Trace, n: nat, pid: string)
    requires IsRun(r) && n <= |r.events| && pid in At(r, n).t.requests.records
    ensures var p := At(r, n).t.requests.records[pid];
      && (p.state.Delivered? ==> exists i: nat :: DeliveredTo(r, n, i, pid))
      && (p.state.Errored? ==>
           p.errorDetail.Some? && exists i: nat :: FailedFor(r, n, i, pid, p.errorDetail.value))
  {
    var h := At(r, n);
    AtIsReachable(r, n);
    assert Sat(TheLinks, h);
    assert ProcessLinked(h, pid);
    var p := h.t.requests.records[pid];
    if p.state.Delivered? || p.state.Errored? {
      var i := h.taskOf[pid];
      assert TaskLinked(h, i) && Concerns(h.tasks[i], pid);
      if p.state.Errored? {
        var m := WhyFailed(r, n, i);
        assert FailedFor(r, n, i, pid, p.errorDetail.value);
      } else {
        if Delivers(h, i) {
          var m := WhyDelivered(r, n, i);
          assert TakenInFull(At(r, m), r.events[m], i);
        }
        assert DeliveredTo(r, n, i, pid);
      }
    }
  }
}
