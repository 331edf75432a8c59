/**
 The issuance protocol traced back to its causes. A run is followed event by event: `At(r, n)` is the state
 after its first `n` events.
 */
module IssuanceHistory {
  import opened Prelude
  import opened IssuerTables
  import opened Protocol
  import opened IssuanceSteps
  import opened IssuanceTheorems
  import opened IssuanceOutcomes

  /** Events, and the states before and after them. */
  datatype History = History(states: seq<Hub>, events: seq<Event>)

  type Trace = r: History | |r.states| == |r.events| + 1 witness History([Start(Auto, 0)], [])

  function At(r: Trace, n: nat): Hub
    requires n <= |r.events|
  {
    r.states[n]
  }

  function ModeOf(r: Trace): HolderApproval {
    At(r, 0).mode
  }

  ghost predicate Follows(h: Hub, e: Event, h': Hub) {
    Enabled(h, e) && h' == Step(h, e)
  }

  ghost predicate StepAt(r: Trace, k: nat)
    requires k < |r.events|
  {
    Follows(At(r, k), r.events[k], At(r, k + 1))
  }

  /** A run, from the service's start on. */
  ghost predicate IsRun(r: Trace) {
    && (exists now :: At(r, 0) == Start(ModeOf(r), now))
    && forall k: nat :: k < |r.events| ==> StepAt(r, k)
  }

  lemma {:induction false} RunAppend(h: Hub, es: seq<Event>, e: Event, mid: Hub, last: Hub)
    requires ValidRun(h, es) && Run(h, es) == mid && Follows(mid, e, last)
    ensures ValidRun(h, es + [e]) && Run(h, es + [e]) == last
    decreases |es|
  {
    if es == [] {
      RunOne(h, e);
    } else {
      assert (es + [e])[1..] == es[1..] + [e];
      RunAppend(Step(h, es[0]), es[1..], e, mid, last);
    }
  }

  lemma RunOne(h: Hub, e: Event)
    ensures Run(h, [e]) == Step(h, e) && (Enabled(h, e) ==> ValidRun(h, [e]))
  {
    assert [e][1..] == [];
    assert Run(Step(h, e), []) == Step(h, e);
  }

  /** The states of a run are those that running its events leads to. */
  lemma {:induction false} AtIsRun(r: Trace, n: nat)
    requires IsRun(r) && n <= |r.events|
    ensures ValidRun(At(r, 0), r.events[..n]) && Run(At(r, 0), r.events[..n]) == At(r, n)
    decreases n
  {
    if n > 0 {
      AtIsRun(r, n - 1);
      NextIsRun(r, n - 1);
    }
  }

  lemma PrefixNext<T>(s: seq<T>, k: nat)
    requires k < |s|
    ensures s[..k + 1] == s[..k] + [s[k]]
  {
  }

  lemma NextIsRun(r: Trace, k: nat)
    requires IsRun(r) && k < |r.events|
    requires ValidRun(At(r, 0), r.events[..k]) && Run(At(r, 0), r.events[..k]) == At(r, k)
    ensures ValidRun(At(r, 0), r.events[..k + 1]) && Run(At(r, 0), r.events[..k + 1]) == At(r, k + 1)
  {
    PrefixNext(r.events, k);
    assert StepAt(r, k);
    RunAppend(At(r, 0), r.events[..k], r.events[k], At(r, k), At(r, k + 1));
  }

  lemma AtIsReachable(r: Trace, n: nat)
    requires IsRun(r) && n <= |r.events|
    ensures Reachable(At(r, n)) && Inv(At(r, n))
  {
    AtIsRun(r, n);
    var now :| At(r, 0) == Start(ModeOf(r), now);
    ReachableInv(At(r, n));
  }

  // ---- Modes and the catalog ----

  lemma ModeStays(h: Hub, e: Event)
    ensures Step(h, e).mode == h.mode
  {
    match e
    case Request(_, _, _, _, _, _, _) =>
    case DecideHolder(_, _, _, _) =>
    case RegisterHolder(_) =>
    case CreateDef(_) =>
    case UpdateDef(_) =>
    case DeleteDef(_) =>
    case ClaimTask(_) =>
    case Gather(_) =>
    case Abort(_, _) =>
    case Sign(_, _, _) =>
    case Post(_, _, _) =>
    case ReleaseIndexes(_) =>
    case FileSigned(_) =>
    case Finish(_, _) =>
    case _ => RedemptionKeepsMode(h, e);
  }

  lemma RedemptionKeepsMode(h: Hub, e: Event)
    requires || e.Redeem? || e.RedeemHolder? || e.RedeemIndex? || e.RedeemLog? || e.RedeemRelease? || e.RedeemFile?
             || e.RevokeCredential? || e.ServeStatusList?
    ensures Step(h, e).mode == h.mode
  {
  }

  lemma {:induction false} ModeIs(r: Trace, n: nat)
    requires IsRun(r) && n <= |r.events|
    ensures At(r, n).mode == ModeOf(r)
    decreases n
  {
    if n > 0 {
      ModeIs(r, n - 1);
      assert StepAt(r, n - 1);
      ModeStays(At(r, n - 1), r.events[n - 1]);
    }
  }

  /** At most 256 definitions, each id at most once, in every state of every run. */
  lemma {:induction false} CatalogIsDistinct(r: Trace, n: nat)
    requires IsRun(r) && n <= |r.events|
    ensures CatalogOk(At(r, n).t.catalog)
    decreases n
  {
    if n > 0 {
      CatalogIsDistinct(r, n - 1);
      assert StepAt(r, n - 1);
      CatalogStays(At(r, n - 1), r.events[n - 1]);
    }
  }

  // ---- Who let a holder in ----

  /** An operator approved or registered the holder among the first `n` events. */
  ghost predicate LetIn(r: Trace, n: nat, holderId: string)
    requires n <= |r.events|
  {
    exists k :: 0 <= k < n && (|| (r.events[k].DecideHolder? && r.events[k].approve && r.events[k].holderId == holderId)
                               || (r.events[k].RegisterHolder? && r.events[k].holder.holderId == holderId))
  }

  /** After a step a holder has the status it had, or one the step gives. */
  ghost predicate StatusFollows(h: Hub, e: Event, id: string, h': Hub)
    requires id in h'.t.holders.holders
  {
    var now := h'.t.holders.holders[id].status;
    || (id in h.t.holders.holders && h.t.holders.holders[id].status == now)
    || (e.DecideHolder? && e.holderId == id && now == if e.approve then HolderApproved else HolderRejected)
    || (e.RegisterHolder? && e.holder.holderId == id && now == HolderApproved)
    || (id !in h.t.holders.holders && now == if h.mode.Manual? then HolderPending else HolderApproved)
  }

  lemma HoldersUntouched(h: Hub, e: Event)
    requires !e.Request? && !e.DecideHolder? && !e.RegisterHolder? && !e.RedeemHolder?
    ensures Step(h, e).t.holders == h.t.holders
  {
    match e
    case CreateDef(_) =>
    case UpdateDef(_) =>
    case DeleteDef(_) =>
    case ClaimTask(_) =>
    case Gather(_) =>
    case Abort(_, _) =>
    case Sign(_, _, _) =>
    case Post(_, _, _) =>
    case ReleaseIndexes(_) =>
    case FileSigned(_) =>
    case Finish(_, _) =>
    case Redeem(_, _) =>
    case RedeemIndex(_) =>
    case RedeemLog(_, _, _) =>
    case RedeemRelease(_) =>
    case RedeemFile(_, _, _) =>
    case RevokeCredential(_) =>
    case ServeStatusList(_) =>
  }

  lemma StatusesFollow(h: Hub, e: Event, id: string)
    requires Inv(h) && Enabled(h, e) && id in Step(h, e).t.holders.holders
    ensures StatusFollows(h, e, id, Step(h, e))
  {
    match e
    case Request(did, holderPid, bearer, ids, newHolderId, pid, now) =>
      RequestStatuses(h, did, holderPid, bearer, ids, newHolderId, pid, now);
    case DecideHolder(holderId, approve, moved, now) => DecisionOutcome(h, holderId, approve, moved, now);
    case RegisterHolder(holder) => RegisteredStatuses(h, holder);
    case RedeemHolder(i, newHolderId, now) => RedeemStatuses(h, i, newHolderId, now);
    case _ => HoldersUntouched(h, e);
  }

  lemma RegisteredStatuses(h: Hub, holder: Holder)
    requires Inv(h)
    ensures forall id :: id in RegisterStep(h, holder).t.holders.holders ==>
      StatusFollows(h, RegisterHolder(holder), id, RegisterStep(h, holder))
  {
    RegistrationOutcome(h, holder);
    if AddHolder(h.t.holders, holder.(status := HolderApproved)).Ok? {
      assert forall id :: id in RegisterStep(h, holder).t.holders.holders ==>
        id == holder.holderId || id in h.t.holders.holders;
    }
  }

  /** What a request or an OID4VCI issuance can do to the registry: nothing, or one new holder. */
  ghost predicate LetsInAtMost(h: Hub, did: string, newId: string, now: nat, h': Hub) {
    h'.t.holders == h.t.holders
    || (newId !in h.t.holders.holders && Admits(h.t.holders, h.mode, did, newId, now, h'.t.holders))
  }

  lemma NewIsNew(h: Hub, did: string, newId: string, now: nat)
    requires Inv(h) && AdmitHolder(h.t.holders, h.mode, did, newId, now).Ok?
    ensures IsUnknown(h.t.holders, did) ==> newId !in h.t.holders.holders
  {
    assert Sat(TheTables, h);
    AdmissionOutcome(h.t.holders, h.mode, did, newId, now);
  }

  lemma RequestLetsIn(h: Hub, did: string, holderPid: string, bearer: Option<string>, ids: seq<string>,
                      newHolderId: string, pid: string, now: nat)
    requires Inv(h) && pid !in h.minted
    ensures LetsInAtMost(h, did, newHolderId, now,
                         RequestStep(h, did, holderPid, bearer, ids, newHolderId, pid, now))
  {
    var (t, reply) := AcceptRequest(h.t, h.mode, did, holderPid, bearer, RequestedIds(ids), newHolderId, pid, now);
    if reply.Created? {
      AcceptedOutcome(h, did, holderPid, bearer, ids, newHolderId, pid, now);
      AcceptedTables(h, did, holderPid, bearer, ids, newHolderId, pid, now);
      NewIsNew(h, did, newHolderId, now);
    } else {
      RefusedLetsIn(h, did, holderPid, bearer, ids, newHolderId, pid, now);
    }
  }

  lemma RefusedHolders(h: Hub, did: string, holderPid: string, bearer: Option<string>, ids: seq<string>,
                       newHolderId: string, pid: string, now: nat)
    requires !AcceptRequest(h.t, h.mode, did, holderPid, bearer, RequestedIds(ids), newHolderId, pid, now).1.Created?
    ensures var holders := RequestStep(h, did, holderPid, bearer, ids, newHolderId, pid, now).t.holders;
      var admitted := AdmitHolder(h.t.holders, h.mode, did, newHolderId, now);
      holders == h.t.holders || (admitted.Ok? && holders == admitted.value.0)
  {
  }

  lemma RefusedLetsIn(h: Hub, did: string, holderPid: string, bearer: Option<string>, ids: seq<string>,
                      newHolderId: string, pid: string, now: nat)
    requires Inv(h)
    requires !AcceptRequest(h.t, h.mode, did, holderPid, bearer, RequestedIds(ids), newHolderId, pid, now).1.Created?
    ensures LetsInAtMost(h, did, newHolderId, now,
                         RequestStep(h, did, holderPid, bearer, ids, newHolderId, pid, now))
  {
    assert Sat(TheTables, h);
    RefusedHolders(h, did, holderPid, bearer, ids, newHolderId, pid, now);
    AdmissionOutcome(h.t.holders, h.mode, did, newHolderId, now);
    if AdmitHolder(h.t.holders, h.mode, did, newHolderId, now).Ok? {
      NewIsNew(h, did, newHolderId, now);
    }
  }

  lemma RequestStatuses(h: Hub, did: string, holderPid: string, bearer: Option<string>, ids: seq<string>,
                        newHolderId: string, pid: string, now: nat)
    requires Inv(h) && pid !in h.minted
    ensures var e := Request(did, holderPid, bearer, ids, newHolderId, pid, now);
      forall id :: id in Step(h, e).t.holders.holders ==> StatusFollows(h, e, id, Step(h, e))
  {
    RequestLetsIn(h, did, holderPid, bearer, ids, newHolderId, pid, now);
  }

  lemma RedeemStatuses(h: Hub, i: nat, newHolderId: string, now: nat)
    requires Inv(h)
    ensures var e := RedeemHolder(i, newHolderId, now);
      forall id :: id in Step(h, e).t.holders.holders ==> StatusFollows(h, e, id, Step(h, e))
  {
    if Redeems(h, i) && h.tasks[i].stage.Admitted? {
      RedeemHolderOutcome(h, i, newHolderId, now);
    }
  }

  lemma StatusAt(r: Trace, k: nat, id: string)
    requires IsRun(r) && k < |r.events| && id in At(r, k + 1).t.holders.holders
    ensures StatusFollows(At(r, k), r.events[k], id, At(r, k + 1))
    ensures At(r, k).mode == ModeOf(r)
  {
    AtIsReachable(r, k);
    ModeIs(r, k);
    assert StepAt(r, k);
    StatusesFollow(At(r, k), r.events[k], id);
  }

  ghost predicate IsApproved(h: Hub, id: string) {
    id in h.t.holders.holders && h.t.holders.holders[id].status.HolderApproved?
  }

  /**
   In Manual mode a holder that is APPROVED was approved or registered by an operator before: no request
   ever lets its own caller in.
   */
  lemma {:induction false} ApprovedByOperator(r: Trace, n: nat, id: string)
    requires ModeOf(r).Manual? && IsRun(r) && n <= |r.events| && IsApproved(At(r, n), id)
    ensures LetIn(r, n, id)
    decreases n
  {
    if n > 0 {
      StatusAt(r, n - 1, id);
      if IsApproved(At(r, n - 1), id) {
        ApprovedByOperator(r, n - 1, id);
      }
    } else {
      NoneAtStart(r);
    }
  }

  lemma NoneAtStart(r: Trace)
    requires IsRun(r)
    ensures At(r, 0).t.holders.holders == map[]
  {
  }

  ghost predicate NonePending(h: Hub) {
    forall id :: id in h.t.holders.holders ==> !h.t.holders.holders[id].status.HolderPending?
  }

  /** In Auto mode no holder is ever PENDING. */
  lemma {:induction false} AutoNeverPends(r: Trace, n: nat)
    requires ModeOf(r).Auto? && IsRun(r) && n <= |r.events|
    ensures NonePending(At(r, n))
    decreases n
  {
    if n > 0 {
      AutoNeverPends(r, n - 1);
      forall id | id in At(r, n).t.holders.holders
        ensures !At(r, n).t.holders.holders[id].status.HolderPending?
      {
        StatusAt(r, n - 1, id);
      }
    } else {
      NoneAtStart(r);
    }
  }

  /** And so no process is ever SUBMITTED: no request waits for an operator. */
  lemma AutoNeverWaits(r: Trace, n: nat, pid: string)
    requires ModeOf(r).Auto? && IsRun(r) && n <= |r.events| && pid in At(r, n).t.requests.records
    ensures !At(r, n).t.requests.records[pid].state.Submitted?
  {
    AutoNeverPends(r, n);
    AtIsReachable(r, n);
    StatusMatchesHolder(At(r, n), pid);
  }

  ghost predicate IsRejected(h: Hub, id: string) {
    id in h.t.holders.holders && h.t.holders.holders[id].status.HolderRejected?
  }

  predicate Approves(e: Event, id: string) {
    e.DecideHolder? && e.holderId == id && e.approve
  }

  /** Once rejected, a holder stays rejected until an operator approves it. */
  lemma {:induction false} RejectedUntilApproved(r: Trace, m: nat, n: nat, id: string)
    requires IsRun(r) && m <= n <= |r.events| && IsRejected(At(r, m), id)
    requires forall k :: m <= k < n ==> !Approves(r.events[k], id)
    ensures IsRejected(At(r, n), id)
    decreases n
  {
    if n > m {
      RejectedUntilApproved(r, m, n - 1, id);
      StaysRejectedAt(r, n - 1, id);
    }
  }

  lemma StaysRejectedAt(r: Trace, k: nat, id: string)
    requires IsRun(r) && k < |r.events| && IsRejected(At(r, k), id) && !Approves(r.events[k], id)
    ensures IsRejected(At(r, k + 1), id)
  {
    AtIsReachable(r, k);
    assert StepAt(r, k);
    StaysRejected(At(r, k), r.events[k], id);
  }

  lemma StaysRejected(h: Hub, e: Event, id: string)
    requires Inv(h) && Enabled(h, e) && IsRejected(h, id) && !Approves(e, id)
    ensures IsRejected(Step(h, e), id)
  {
    match e
    case Request(did, holderPid, bearer, ids, newHolderId, pid, now) =>
      RequestLetsIn(h, did, holderPid, bearer, ids, newHolderId, pid, now);
    case DecideHolder(holderId, approve, moved, now) => DecisionOutcome(h, holderId, approve, moved, now);
    case RegisterHolder(holder) => RegistrationOutcome(h, holder);
    case RedeemHolder(i, newHolderId, now) =>
      if Redeems(h, i) && h.tasks[i].stage.Admitted? {
        RedeemHolderOutcome(h, i, newHolderId, now);
        NoPlaceForTaken(h, i, newHolderId, now);
      }
    case _ => HoldersUntouched(h, e);
  }

  lemma NoPlaceForTaken(h: Hub, i: nat, newHolderId: string, now: nat)
    requires Inv(h) && Redeems(h, i) && h.tasks[i].stage.Admitted?
    ensures newHolderId in h.t.holders.holders ==>
      RedeemHolderStep(h, i, newHolderId, now).t.holders == h.t.holders
  {
    RedeemHolderOutcome(h, i, newHolderId, now);
  }
}
