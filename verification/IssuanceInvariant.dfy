/** Every step of the issuance protocol keeps the invariant. One lemma for each kind of change. */
module IssuanceInvariant {
  import opened Prelude
  import opened HolderKeys
  import opened IssuerTables
  import opened Protocol

  // ---- Changes that leave the request table alone ----

  /** If no index changes hands, the partition stays. */
  lemma PartitionFrame(h: Hub, h': Hub)
    requires Partition(h)
    requires h'.t.issued.list.next == h.t.issued.list.next
    requires forall o, i: nat :: Holds(h', o, i) <==> Holds(h, o, i)
    ensures Partition(h')
  {
    forall i: nat | i < h'.t.issued.list.next
      ensures Owned(h', i)
    {
      assert Owned(h, i);
      var o :| Holds(h, o, i);
      assert Holds(h', o, i);
    }
  }

  /** The indexes of `to` pass to the owners it names; nothing else changes hands. */
  lemma PartitionReassign(h: Hub, h': Hub, to: map<nat, Owner>)
    requires Partition(h)
    requires h.t.issued.list.next <= h'.t.issued.list.next <= STATUS_LIST_BITS
    requires forall i: nat :: i in to ==> i < h'.t.issued.list.next
    requires forall i: nat :: h.t.issued.list.next <= i < h'.t.issued.list.next ==> i in to
    requires forall o, i: nat :: Holds(h', o, i) <==> if i in to then o == to[i] else Holds(h, o, i)
    ensures Partition(h')
  {
    forall i: nat | i < h'.t.issued.list.next
      ensures Owned(h', i)
    {
      if i in to {
        assert Holds(h', to[i], i);
      } else {
        assert Owned(h, i);
        var o :| Holds(h, o, i);
        assert Holds(h', o, i);
      }
    }
  }

  lemma HoldersGrow(h: Hub, r: Registry)
    requires Inv(h) && RegistryOk(r)
    requires forall id :: id in h.t.holders.holders ==> id in r.holders && r.holders[id] == h.t.holders.holders[id]
    ensures Inv(h.(t := h.t.(holders := r)))
  {
    var h' := h.(t := h.t.(holders := r));
    assert Kept(TheTables, h') by {
      assert Sat(TheTables, h);
    }
    assert Kept(TheHolders, h') by {
      assert Sat(TheHolders, h);
      forall pid | pid in h'.t.requests.records
        ensures HolderKnownFor(r, h'.t.requests.records[pid])
      {
        assert HolderKnownFor(h.t.holders, h.t.requests.records[pid]);
      }
    }
    Untouched(h, h');
    SameTasks(h, h');
    Establish(h');
  }

  /** Nothing but the catalog or the registry changed. */
  lemma SameTasks(h: Hub, h': Hub)
    requires Inv(h)
    requires h'.t.requests == h.t.requests && h'.t.issued == h.t.issued
    requires h'.tasks == h.tasks && h'.taskOf == h.taskOf && h'.minted == h.minted && h'.births == h.births
    requires SameDids(h.t.holders, h'.t.holders)
    ensures Kept(TheLinks, h') && Kept(TheLocals, h') && Kept(TheRecords, h') && Kept(ThePartition, h')
  {
    SameTasksLinked(h, h');
    SameTasksLocal(h, h');
    assert Kept(TheRecords, h') by {
      assert Sat(TheRecords, h);
      assert forall id :: id in h.t.issued.records && id in h.births && FiledBy(h, id) ==> FiledBy(h', id);
    }
    assert Kept(ThePartition, h') by {
      assert Sat(ThePartition, h);
      assert forall o, i: nat :: Holds(h', o, i) <==> Holds(h, o, i);
      PartitionFrame(h, h');
    }
  }

  lemma SameTasksLinked(h: Hub, h': Hub)
    requires Inv(h)
    requires h'.t.requests == h.t.requests
    requires h'.tasks == h.tasks && h'.taskOf == h.taskOf && h'.minted == h.minted
    ensures Kept(TheLinks, h')
  {
    assert Sat(TheLinks, h);
    forall i | 0 <= i < |h'.tasks|
      ensures TaskLinked(h', i)
    {
      assert TaskLinked(h, i);
    }
    forall pid | pid in h'.t.requests.records
      ensures pid in h'.minted && ProcessLinked(h', pid)
    {
      assert ProcessLinked(h, pid);
    }
  }

  lemma SameTasksLocal(h: Hub, h': Hub)
    requires Inv(h) && h'.tasks == h.tasks && SameDids(h.t.holders, h'.t.holders)
    ensures Kept(TheLocals, h')
  {
    assert Sat(TheLocals, h);
  }

  lemma CatalogChanges(h: Hub, catalog: seq<Definition>)
    requires Inv(h)
    requires forall pid :: pid in h.t.requests.records && h.t.requests.records[pid].state.IsActive() ==>
      NeedsMet(catalog, h.t.requests.records[pid])
    ensures Inv(h.(t := h.t.(catalog := catalog)))
  {
    var h' := h.(t := h.t.(catalog := catalog));
    assert Kept(TheDefinitions, h') by {
      assert Sat(TheDefinitions, h);
    }
    Untouched(h, h');
    SameTasks(h, h');
    Establish(h');
  }

  lemma AdmitKeeps(h: Hub, did: string, newId: string, now: nat)
    requires Inv(h) && AdmitHolder(h.t.holders, h.mode, did, newId, now).Ok?
    ensures Inv(h.(t := h.t.(holders := AdmitHolder(h.t.holders, h.mode, did, newId, now).value.0)))
  {
    assert Sat(TheTables, h);
    AdmitHolderKeepsRegistry(h.t.holders, h.mode, did, newId, now);
    HoldersGrow(h, AdmitHolder(h.t.holders, h.mode, did, newId, now).value.0);
  }

  lemma AdmittedIsKnown(h: Hub, did: string, newId: string, now: nat)
    requires Inv(h) && AdmitHolder(h.t.holders, h.mode, did, newId, now).Ok?
    ensures var (r, holder) := AdmitHolder(h.t.holders, h.mode, did, newId, now).value;
      holder.holderId in r.holders && HolderKey(did) == HolderKey(r.holders[holder.holderId].did)
  {
    assert Sat(TheTables, h);
    AdmitHolderKeepsRegistry(h.t.holders, h.mode, did, newId, now);
  }

  lemma RegisterKeeps(h: Hub, holder: Holder)
    requires Inv(h)
    ensures Inv(RegisterStep(h, holder))
  {
    var h1 := holder.(status := HolderApproved);
    match AddHolder(h.t.holders, h1)
    case Err(_) =>
    case Ok(r) =>
      assert Sat(TheTables, h);
      AddHolderKeepsRegistry(h.t.holders, h1);
      HoldersGrow(h, r);
  }

  /** A catalog that has every id of another one. */
  ghost predicate CatalogCovers(catalog: seq<Definition>, other: seq<Definition>) {
    forall id :: Names(other, id) ==> Names(catalog, id)
  }

  lemma CoveringKeepsNeeds(h: Hub, catalog: seq<Definition>)
    requires DefinitionsKnown(h) && CatalogCovers(catalog, h.t.catalog)
    ensures forall pid :: pid in h.t.requests.records && h.t.requests.records[pid].state.IsActive() ==>
      NeedsMet(catalog, h.t.requests.records[pid])
  {
    forall pid | pid in h.t.requests.records && h.t.requests.records[pid].state.IsActive()
      ensures NeedsMet(catalog, h.t.requests.records[pid])
    {
      assert NeedsMet(h.t.catalog, h.t.requests.records[pid]);
    }
  }

  lemma CreateCovers(catalog: seq<Definition>, d: Definition)
    ensures CatalogCovers(catalog + [d], catalog)
    ensures CatalogCovers(UpdateDefinition(catalog, d), catalog)
  {
    forall id | Names(catalog, id)
      ensures Names(catalog + [d], id) && Names(UpdateDefinition(catalog, d), id)
    {
      var k :| 0 <= k < |catalog| && catalog[k].id == id;
      assert (catalog + [d])[k].id == id;
      assert UpdateDefinition(catalog, d)[k].id == id;
    }
  }

  lemma CreateDefKeeps(h: Hub, d: Definition)
    requires Inv(h)
    ensures Inv(CreateDefStep(h, d))
  {
    match CreateDefinition(h.t.catalog, d)
    case Err(_) =>
    case Ok(c) =>
      assert Sat(TheDefinitions, h);
      CreateCovers(h.t.catalog, d);
      CoveringKeepsNeeds(h, c);
      CatalogChanges(h, c);
  }

  lemma UpdateDefKeeps(h: Hub, d: Definition)
    requires Inv(h)
    ensures Inv(UpdateDefStep(h, d))
  {
    assert Sat(TheDefinitions, h);
    CreateCovers(h.t.catalog, d);
    CoveringKeepsNeeds(h, UpdateDefinition(h.t.catalog, d));
    CatalogChanges(h, UpdateDefinition(h.t.catalog, d));
  }

  lemma UnusedNotNeeded(h: Hub, id: string)
    requires DefinitionsKnown(h) && !InUse(h.t.requests, id)
    ensures forall pid :: pid in h.t.requests.records && h.t.requests.records[pid].state.IsActive() ==>
      NeedsMet(WithoutDefinition(h.t.catalog, id), h.t.requests.records[pid])
  {
    forall pid | pid in h.t.requests.records && h.t.requests.records[pid].state.IsActive()
      ensures NeedsMet(WithoutDefinition(h.t.catalog, id), h.t.requests.records[pid])
    {
      forall other | other in h.t.requests.records[pid].definitions
        ensures Names(WithoutDefinition(h.t.catalog, id), other)
      {
        WithoutKeepsOthers(h.t.catalog, id, other);
      }
    }
  }

  lemma DeleteDefKeeps(h: Hub, id: string)
    requires Inv(h)
    ensures Inv(DeleteDefStep(h, id))
  {
    if !InUse(h.t.requests, id) {
      assert Sat(TheDefinitions, h);
      UnusedNotNeeded(h, id);
      CatalogChanges(h, WithoutDefinition(h.t.catalog, id));
    }
  }

  // ---- A task moves on without touching a table ----

  /** A task's move that neither takes nor gives up an index and files nothing. */
  ghost predicate Quiet(old_: Task, new_: Task) {
    && Held(new_) == Held(old_)
    && (|| (Signed(new_) == Signed(old_) && HasFiled(new_) == HasFiled(old_))
        || (!HasFiled(old_) && Signed(new_) == []))
  }

  ghost predicate OnlyTask(h: Hub, h': Hub, i: nat) {
    && i < |h.tasks| == |h'.tasks|
    && (forall j :: 0 <= j < |h.tasks| && j != i ==> h'.tasks[j] == h.tasks[j])
  }

  lemma QuietRecords(h: Hub, h': Hub, i: nat)
    requires Inv(h) && OnlyTask(h, h', i) && Quiet(h.tasks[i], h'.tasks[i])
    requires h'.t.issued == h.t.issued && h'.births == h.births
    ensures Kept(TheRecords, h')
  {
    assert Sat(TheRecords, h);
    forall id | id in h'.t.issued.records
      ensures id in h'.births && FiledBy(h', id)
    {
      assert FiledBy(h, id);
      var j := h.births[id].task;
      assert j != i ==> h'.tasks[j] == h.tasks[j];
    }
  }

  lemma QuietPartition(h: Hub, h': Hub, i: nat)
    requires Inv(h) && OnlyTask(h, h', i) && Held(h'.tasks[i]) == Held(h.tasks[i])
    requires h'.t.issued == h.t.issued
    ensures Kept(ThePartition, h')
  {
    assert Sat(ThePartition, h);
    forall o, n: nat
      ensures Holds(h', o, n) <==> Holds(h, o, n)
    {
    }
    PartitionFrame(h, h');
  }

  lemma OnlyTaskLocals(h: Hub, h': Hub, i: nat)
    requires Inv(h) && OnlyTask(h, h', i) && LocalOk(h'.tasks[i])
    requires h'.t.holders == h.t.holders && RedeemerKnown(h.t.holders, h'.tasks[i])
    ensures Kept(TheLocals, h')
  {
    assert Sat(TheLocals, h);
  }

  /** The next phase of a running delivery: same job, no index changes hands, nothing is filed. */
  ghost predicate Advances(h: Hub, i: nat, phase: Phase) {
    && Delivers(h, i)
    && Running(h.tasks[i].phase) && Running(phase)
    && phase.job == h.tasks[i].phase.job
    && LocalOk(Delivery(h.tasks[i].pid, phase))
    && Quiet(h.tasks[i], Delivery(h.tasks[i].pid, phase))
  }

  /** A running delivery stays tied to its process, whatever phase it runs in. */
  lemma RunningLinked(h: Hub, h': Hub, i: nat)
    requires Inv(h) && OnlyTask(h, h', i)
    requires h'.t.requests == h.t.requests && h'.taskOf == h.taskOf && h'.minted == h.minted
    requires h.tasks[i].Delivery? && h'.tasks[i].Delivery? && h'.tasks[i].pid == h.tasks[i].pid
    requires Running(h.tasks[i].phase) && Running(h'.tasks[i].phase)
    requires h'.tasks[i].phase.job == h.tasks[i].phase.job
    ensures Kept(TheLinks, h')
  {
    assert Sat(TheLinks, h);
    forall j | 0 <= j < |h'.tasks|
      ensures TaskLinked(h', j)
    {
      assert TaskLinked(h, j);
    }
    forall pid | pid in h'.t.requests.records
      ensures pid in h'.minted && ProcessLinked(h', pid)
    {
      assert ProcessLinked(h, pid);
    }
  }

  lemma AdvanceKeeps(h: Hub, i: nat, phase: Phase)
    requires Inv(h) && Advances(h, i, phase)
    ensures Inv(SetPhase(h, i, phase))
  {
    var h' := SetPhase(h, i, phase);
    Untouched(h, h');
    RunningLinked(h, h', i);
    OnlyTaskLocals(h, h', i);
    QuietRecords(h, h', i);
    QuietPartition(h, h', i);
    Establish(h');
  }

  lemma GatherAdvances(h: Hub, i: nat)
    requires Delivers(h, i) && h.tasks[i].phase.Claimed?
    ensures var job := h.tasks[i].phase.job;
      match LookupAll(h.t.catalog, job.definitions)
      case Ok(defs) => Advances(h, i, Issuing(job, defs, [], []))
      case Err(e) => Advances(h, i, Settling(job, Some(e), []))
  {
  }

  lemma GatherKeeps(h: Hub, i: nat)
    requires Inv(h)
    ensures Inv(GatherStep(h, i))
  {
    if Delivers(h, i) && h.tasks[i].phase.Claimed? {
      GatherAdvances(h, i);
      var job := h.tasks[i].phase.job;
      match LookupAll(h.t.catalog, job.definitions)
      case Ok(defs) => AdvanceKeeps(h, i, Issuing(job, defs, [], []));
      case Err(e) => AdvanceKeeps(h, i, Settling(job, Some(e), []));
    }
  }

  lemma AbortKeeps(h: Hub, i: nat, reason: string)
    requires Inv(h)
    ensures Inv(AbortStep(h, i, reason))
  {
    if Delivers(h, i) && h.tasks[i].phase.Issuing? && h.tasks[i].phase.taken == [] {
      AdvanceKeeps(h, i, Failing(h.tasks[i].phase.job, [], reason));
    }
  }

  lemma PostAdvances(h: Hub, i: nat, reason: string)
    requires Delivers(h, i) && h.tasks[i].phase.Issuing? && LocalOk(h.tasks[i])
    ensures Advances(h, i, Failing(h.tasks[i].phase.job, h.tasks[i].phase.taken, reason))
    ensures |h.tasks[i].phase.signed| == |h.tasks[i].phase.defs| ==>
      Advances(h, i, Posted(h.tasks[i].phase.job, h.tasks[i].phase.signed))
  {
    var Issuing(job, defs, taken, signed) := h.tasks[i].phase;
    SignedIndexes(taken, signed);
  }

  lemma PostKeeps(h: Hub, i: nat, accepted: bool, reason: string)
    requires Inv(h)
    ensures Inv(PostStep(h, i, accepted, reason))
  {
    if Delivers(h, i) && h.tasks[i].phase.Issuing? && |h.tasks[i].phase.signed| == |h.tasks[i].phase.defs| {
      assert Sat(TheLocals, h);
      PostAdvances(h, i, reason);
      var Issuing(job, _, taken, signed) := h.tasks[i].phase;
      AdvanceKeeps(h, i, if accepted then Posted(job, signed) else Failing(job, taken, reason));
    }
  }

  lemma SignedIndexes(taken: seq<nat>, signed: seq<Record>)
    requires |taken| == |signed|
    requires forall k :: 0 <= k < |signed| ==> signed[k].index == taken[k]
    ensures (set r | r in signed :: r.index) == Elems(taken)
  {
    forall n | n in Elems(taken)
      ensures n in set r | r in signed :: r.index
    {
      var k := Position(taken, n);
      assert signed[k] in signed;
    }
  }

  /** The next stage of a redemption that has no process yet and files nothing. */
  ghost predicate StageAdvances(h: Hub, i: nat, stage: Stage) {
    && Redeems(h, i)
    && !h.tasks[i].stage.Logged? && !h.tasks[i].stage.Filed?
    && !stage.Logged? && !stage.Filed?
  }

  lemma StageLinked(h: Hub, h': Hub, i: nat)
    requires Inv(h) && OnlyTask(h, h', i) && Redeems(h', i) && StageAdvances(h, i, h'.tasks[i].stage)
    requires h'.t.requests == h.t.requests && h'.taskOf == h.taskOf && h'.minted == h.minted
    ensures Kept(TheLinks, h')
  {
    assert Sat(TheLinks, h);
    forall j | 0 <= j < |h'.tasks|
      ensures TaskLinked(h', j)
    {
      assert TaskLinked(h, j);
    }
    forall pid | pid in h'.t.requests.records
      ensures pid in h'.minted && ProcessLinked(h', pid)
    {
      assert ProcessLinked(h, pid);
    }
  }

  lemma StageKeeps(h: Hub, i: nat, stage: Stage)
    requires Inv(h) && StageAdvances(h, i, stage) && Held(Redemption(stage)) == Held(h.tasks[i])
    requires RedeemerKnown(h.t.holders, Redemption(stage))
    ensures Inv(SetStage(h, i, stage))
  {
    var h' := SetStage(h, i, stage);
    Untouched(h, h');
    StageLinked(h, h', i);
    OnlyTaskLocals(h, h', i);
    QuietRecords(h, h', i);
    QuietPartition(h, h', i);
    Establish(h');
  }

  lemma NewRedemptionLinked(h: Hub, d: Definition, did: string)
    requires Inv(h)
    ensures Kept(TheLinks, h.(tasks := h.tasks + [Redemption(Admitted(d, did))]))
  {
    assert Sat(TheLinks, h);
    var h' := h.(tasks := h.tasks + [Redemption(Admitted(d, did))]);
    forall j | 0 <= j < |h'.tasks|
      ensures TaskLinked(h', j)
    {
      assert j < |h.tasks| ==> TaskLinked(h, j);
    }
    forall pid | pid in h'.t.requests.records
      ensures pid in h'.minted && ProcessLinked(h', pid)
    {
      assert ProcessLinked(h, pid);
    }
  }

  lemma NewRedemptionRecords(h: Hub, d: Definition, did: string)
    requires Inv(h)
    ensures Kept(TheRecords, h.(tasks := h.tasks + [Redemption(Admitted(d, did))]))
  {
    assert Sat(TheRecords, h);
    NewTasksRecords(h, h.(tasks := h.tasks + [Redemption(Admitted(d, did))]), [Redemption(Admitted(d, did))]);
  }

  lemma NewTasksRecords(h: Hub, h': Hub, extra: seq<Task>)
    requires Inv(h) && h'.tasks == h.tasks + extra
    requires h'.t.issued.records == h.t.issued.records && h'.births == h.births
    requires forall k :: 0 <= k < |extra| ==> Signed(extra[k]) == []
    ensures Kept(TheRecords, h')
  {
    assert Sat(TheRecords, h);
    forall id | id in h'.t.issued.records
      ensures id in h'.births && FiledBy(h', id)
    {
      assert FiledBy(h, id);
      var j := h.births[id].task;
      assert h'.tasks[j] == h.tasks[j];
    }
    forall j | 0 <= j < |h'.tasks|
      ensures if j < |h.tasks| then h'.tasks[j] == h.tasks[j] else Signed(h'.tasks[j]) == []
    {
      if j >= |h.tasks| {
        assert h'.tasks[j] == extra[j - |h.tasks|];
      }
    }
  }

  /** Tasks that hold nothing take no part in the partition. */
  lemma NewTasksPartition(h: Hub, h': Hub, extra: seq<Task>)
    requires Inv(h) && h'.t.issued == h.t.issued && h'.tasks == h.tasks + extra
    requires forall k :: 0 <= k < |extra| ==> Held(extra[k]) == {}
    ensures Kept(ThePartition, h')
  {
    assert Sat(ThePartition, h);
    forall o, n: nat
      ensures Holds(h', o, n) <==> Holds(h, o, n)
    {
      if o.InFlight? && |h.tasks| <= o.task < |h'.tasks| {
        assert h'.tasks[o.task] == extra[o.task - |h.tasks|];
      }
    }
    PartitionFrame(h, h');
  }

  lemma NewRedemptionLocals(h: Hub, d: Definition, did: string)
    requires Inv(h)
    ensures Kept(TheLocals, h.(tasks := h.tasks + [Redemption(Admitted(d, did))]))
  {
    assert Sat(TheLocals, h);
    assert LocalOk(Redemption(Admitted(d, did)));
  }

  lemma NewRedemptionKeeps(h: Hub, d: Definition, did: string)
    requires Inv(h)
    ensures Inv(h.(tasks := h.tasks + [Redemption(Admitted(d, did))]))
  {
    var h' := h.(tasks := h.tasks + [Redemption(Admitted(d, did))]);
    Untouched(h, h');
    NewRedemptionLinked(h, d, did);
    NewRedemptionLocals(h, d, did);
    NewRedemptionRecords(h, d, did);
    NewTasksPartition(h, h', [Redemption(Admitted(d, did))]);
    Establish(h');
  }

  lemma RedeemKeeps(h: Hub, definitionId: string, did: string)
    requires Inv(h)
    ensures Inv(RedeemStep(h, definitionId, did))
  {
    match Lookup(h.t.catalog, definitionId)
    case None =>
    case Some(d) =>
      NewRedemptionKeeps(h, d, did);
  }

  lemma RedeemHolderKeeps(h: Hub, i: nat, newHolderId: string, now: nat)
    requires Inv(h)
    ensures Inv(RedeemHolderStep(h, i, newHolderId, now))
  {
    if Redeems(h, i) && h.tasks[i].stage.Admitted? {
      var Admitted(d, did) := h.tasks[i].stage;
      match AdmitHolder(h.t.holders, h.mode, did, newHolderId, now)
      case Err(_) => StageKeeps(h, i, Denied);
      case Ok((r, holder)) =>
        if holder.status.HolderRejected? {
          StageKeeps(h, i, Denied);
        } else {
          AdmitKeeps(h, did, newHolderId, now);
          AdmittedIsKnown(h, did, newHolderId, now);
          StageKeeps(h.(t := h.t.(holders := r)), i, HolderKnown(d, did, holder.holderId));
        }
    }
  }

  // ---- Claiming and finishing a process ----

  lemma DropLinked(h: Hub, i: nat)
    requires Inv(h) && Delivers(h, i) && h.tasks[i].phase.Queued? && Claim(h.t.requests, h.tasks[i].pid).None?
    ensures Kept(TheLinks, SetPhase(h, i, Dropped))
  {
    assert Sat(TheLinks, h);
    var h' := SetPhase(h, i, Dropped);
    assert TaskLinked(h, i);
    forall j | 0 <= j < |h'.tasks|
      ensures TaskLinked(h', j)
    {
      assert TaskLinked(h, j);
    }
    forall pid | pid in h'.t.requests.records
      ensures pid in h'.minted && ProcessLinked(h', pid)
    {
      assert ProcessLinked(h, pid);
    }
  }

  lemma DropKeeps(h: Hub, i: nat)
    requires Inv(h) && Delivers(h, i) && h.tasks[i].phase.Queued? && Claim(h.t.requests, h.tasks[i].pid).None?
    ensures Inv(SetPhase(h, i, Dropped))
  {
    var h' := SetPhase(h, i, Dropped);
    Untouched(h, h');
    DropLinked(h, i);
    OnlyTaskLocals(h, h', i);
    QuietRecords(h, h', i);
    QuietPartition(h, h', i);
    Establish(h');
  }

  /** An APPROVED process changes, in ways its holder, its definitions and the caps do not see. */
  ghost predicate ChangesProcess(h: Hub, h': Hub, pid: string, p: Process) {
    var records := h.t.requests.records;
    && pid in records && records[pid].state.Approved?
    && p.id == pid && p.holderId == records[pid].holderId && p.holderDid == records[pid].holderDid
    && p.definitions == records[pid].definitions
    && !p.state.Submitted? && (p.state.Approved? ==> p.deliveryStarted)
    && h'.t == h.t.(requests := h.t.requests.(records := records[pid := p]))
  }

  lemma ChangeKeepsTables(h: Hub, h': Hub, pid: string, p: Process)
    requires Inv(h) && ChangesProcess(h, h', pid, p)
    ensures Kept(TheTables, h')
  {
    assert Sat(TheTables, h);
    UpdateKeepsLog(h.t.requests, pid, p);
    assert h'.t.requests.records.Keys == h.t.requests.records.Keys;
  }

  lemma ChangeKeepsCaps(h: Hub, h': Hub, pid: string, p: Process)
    requires Inv(h) && ChangesProcess(h, h', pid, p)
    ensures Kept(TheCaps, h')
  {
    assert Sat(TheCaps, h);
    var before, after := h.t.requests.records, h'.t.requests.records;
    assert PendingIds(after) == PendingIds(before);
    forall holderId
      ensures |PendingIdsOf(after, holderId)| <= MAX_PENDING_PROCESSES_PER_HOLDER
    {
      assert PendingIdsOf(after, holderId) == PendingIdsOf(before, holderId);
    }
  }

  lemma ProcessChanges(h: Hub, h': Hub, pid: string, p: Process)
    requires Inv(h) && ChangesProcess(h, h', pid, p)
    ensures Kept(TheTables, h') && Kept(TheCaps, h') && Kept(TheHolders, h') && Kept(TheDefinitions, h')
    ensures Kept(TheBits, h')
  {
    ChangeKeepsTables(h, h', pid, p);
    ChangeKeepsCaps(h, h', pid, p);
    ChangeKeepsHolders(h, h', pid, p);
    ChangeKeepsDefinitions(h, h', pid, p);
    SameBits(h, h');
  }

  lemma ChangeKeepsHolders(h: Hub, h': Hub, pid: string, p: Process)
    requires Inv(h) && ChangesProcess(h, h', pid, p)
    ensures Kept(TheHolders, h')
  {
    assert Sat(TheHolders, h);
    assert HolderKnownFor(h.t.holders, h.t.requests.records[pid]);
  }

  lemma ChangeKeepsDefinitions(h: Hub, h': Hub, pid: string, p: Process)
    requires Inv(h) && ChangesProcess(h, h', pid, p)
    ensures Kept(TheDefinitions, h')
  {
    assert Sat(TheDefinitions, h);
  }

  lemma ClaimLinked(h: Hub, h': Hub, i: nat, p: Process)
    requires Inv(h) && Delivers(h, i) && h.tasks[i].phase.Queued?
    requires h.tasks[i].pid in h.t.requests.records && h.t.requests.records[h.tasks[i].pid].state.Approved?
    requires p == h.t.requests.records[h.tasks[i].pid].(deliveryStarted := true) && p.id == h.tasks[i].pid
    requires h' == SetPhase(h.(t := h.t.(requests := h.t.requests.(records := h.t.requests.records[p.id := p]))), i,
                            Claimed(p))
    ensures Kept(TheLinks, h')
  {
    assert Sat(TheLinks, h);
    assert TaskLinked(h, i);
    forall j | 0 <= j < |h'.tasks|
      ensures TaskLinked(h', j)
    {
      assert TaskLinked(h, j);
    }
    forall pid | pid in h'.t.requests.records
      ensures pid in h'.minted && ProcessLinked(h', pid)
    {
      assert ProcessLinked(h, pid);
    }
  }

  lemma ClaimSomeKeeps(h: Hub, i: nat)
    requires Inv(h) && Delivers(h, i) && h.tasks[i].phase.Queued? && Claim(h.t.requests, h.tasks[i].pid).Some?
    ensures Inv(ClaimStep(h, i))
  {
    var h' := ClaimStep(h, i);
    var job := Claim(h.t.requests, h.tasks[i].pid).value.1;
    assert job.id == h.tasks[i].pid by {
      assert Sat(TheTables, h);
    }
    assert OnlyTask(h, h', i) && Quiet(h.tasks[i], h'.tasks[i]) && LocalOk(h'.tasks[i]);
    ProcessChanges(h, h', h.tasks[i].pid, job);
    ClaimLinked(h, h', i, job);
    OnlyTaskLocals(h, h', i);
    QuietRecords(h, h', i);
    QuietPartition(h, h', i);
    Establish(h');
  }

  lemma ClaimKeeps(h: Hub, i: nat)
    requires Inv(h)
    ensures Inv(ClaimStep(h, i))
  {
    if Delivers(h, i) && h.tasks[i].phase.Queued? {
      match Claim(h.t.requests, h.tasks[i].pid)
      case None => DropKeeps(h, i);
      case Some((log, job)) =>
        ClaimSomeKeeps(h, i);
    }
  }

  lemma FinishLinked(h: Hub, h': Hub, i: nat, p: Process)
    requires Inv(h) && Delivers(h, i) && h.tasks[i].phase.Settling?
    requires h.tasks[i].pid in h.t.requests.records && p.id == h.tasks[i].pid
    requires p.definitions == h.t.requests.records[p.id].definitions
    requires p.state == if h.tasks[i].phase.error.None? then Delivered else Errored
    requires p.errorDetail == h.tasks[i].phase.error
    requires h' == SetPhase(h.(t := h.t.(requests := h.t.requests.(records := h.t.requests.records[p.id := p]))), i,
                            Finished(h.tasks[i].phase.job, h.tasks[i].phase.error, h.tasks[i].phase.signed))
    ensures Kept(TheLinks, h')
  {
    assert Sat(TheLinks, h);
    forall j | 0 <= j < |h'.tasks|
      ensures TaskLinked(h', j)
    {
      FinishTask(h, h', i, p, j);
    }
    forall pid | pid in h'.t.requests.records
      ensures pid in h'.minted && ProcessLinked(h', pid)
    {
      assert ProcessLinked(h, pid);
      assert TaskLinked(h, i);
    }
  }

  lemma FinishTask(h: Hub, h': Hub, i: nat, p: Process, j: nat)
    requires Inv(h) && Delivers(h, i) && h.tasks[i].phase.Settling? && j < |h.tasks|
    requires h.tasks[i].pid in h.t.requests.records && p.id == h.tasks[i].pid
    requires p.definitions == h.t.requests.records[p.id].definitions
    requires p.state == if h.tasks[i].phase.error.None? then Delivered else Errored
    requires p.errorDetail == h.tasks[i].phase.error
    requires h' == SetPhase(h.(t := h.t.(requests := h.t.requests.(records := h.t.requests.records[p.id := p]))), i,
                            Finished(h.tasks[i].phase.job, h.tasks[i].phase.error, h.tasks[i].phase.signed))
    ensures TaskLinked(h', j)
  {
    assert Sat(TheLinks, h) && Sat(TheDefinitions, h);
    assert TaskLinked(h, i) && TaskLinked(h, j);
  }

  lemma SettlingIsLinked(h: Hub, i: nat)
    requires Inv(h) && Delivers(h, i) && Running(h.tasks[i].phase)
    ensures h.tasks[i].pid in h.t.requests.records && h.t.requests.records[h.tasks[i].pid] == h.tasks[i].phase.job
    ensures h.tasks[i].phase.job.id == h.tasks[i].pid && h.tasks[i].phase.job.state.Approved?
  {
    assert Sat(TheLinks, h);
    assert TaskLinked(h, i);
  }

  lemma FinishKeeps(h: Hub, i: nat, now: nat)
    requires Inv(h)
    ensures Inv(FinishStep(h, i, now))
  {
    if Delivers(h, i) && h.tasks[i].phase.Settling? {
      SettlingIsLinked(h, i);
      var h' := FinishStep(h, i, now);
      var p := h'.t.requests.records[h.tasks[i].pid];
      assert OnlyTask(h, h', i) && Quiet(h.tasks[i], h'.tasks[i]);
      assert LocalOk(h'.tasks[i]) by {
        assert Sat(TheLocals, h);
        assert LocalOk(h.tasks[i]);
      }
      ProcessChanges(h, h', h.tasks[i].pid, p);
      FinishLinked(h, h', i, p);
      OnlyTaskLocals(h, h', i);
      QuietRecords(h, h', i);
      QuietPartition(h, h', i);
      Establish(h');
    }
  }

  // ---- Indexes change hands ----

  lemma AllocateGivesUnowned(h: Hub)
    requires Partition(h) && Allocate(h.t.issued.list).1.Some?
    ensures var (list, index) := Allocate(h.t.issued.list);
      && index.value < list.next <= STATUS_LIST_BITS
      && h.t.issued.list.next <= list.next
      && (|| list.next == h.t.issued.list.next
          || (list.next == h.t.issued.list.next + 1 && index.value == h.t.issued.list.next))
      && list == h.t.issued.list.(next := list.next, free := list.free)
      && list.free == h.t.issued.list.free - {index.value}
      && (forall o :: Holds(h, o, index.value) ==> o == Pool)
  {
    var n := Allocate(h.t.issued.list).1.value;
    if h.t.issued.list.free != {} {
      assert Holds(h, Pool, n);
    } else {
      assert !exists o :: Holds(h, o, n);
    }
  }

  /** Task `i` takes the index that was allocated. */
  lemma TakePartition(h: Hub, h': Hub, i: nat)
    requires Inv(h) && OnlyTask(h, h', i) && Allocate(h.t.issued.list).1.Some?
    requires h'.t.issued == h.t.issued.(list := Allocate(h.t.issued.list).0)
    requires Held(h'.tasks[i]) == Held(h.tasks[i]) + {Allocate(h.t.issued.list).1.value}
    ensures Kept(ThePartition, h')
    ensures Allocate(h.t.issued.list).1.value !in Held(h.tasks[i])
  {
    assert Sat(ThePartition, h);
    AllocateGivesUnowned(h);
    var n := Allocate(h.t.issued.list).1.value;
    assert !Holds(h, InFlight(i), n);
    var to := map[n := InFlight(i)];
    forall o, j: nat
      ensures Holds(h', o, j) <==> if j in to then o == to[j] else Holds(h, o, j)
    {
      match o
      case Pool =>
      case InFlight(k) => assert Holds(h, o, j) || !Holds(h, o, j);
      case Recorded(id) => assert Holds(h, o, j) || !Holds(h, o, j);
    }
    PartitionReassign(h, h', to);
  }

  /** What signing the next credential does to the births. */
  lemma SignRecords(h: Hub, h': Hub, i: nat, record: Record)
    requires Inv(h) && OnlyTask(h, h', i)
    requires h'.t.issued.records == h.t.issued.records
    requires record.id !in h.births
    requires !HasFiled(h.tasks[i]) && !HasFiled(h'.tasks[i])
    requires Signed(h'.tasks[i]) == Signed(h.tasks[i]) + [record]
    requires h'.births == h.births[record.id := Birth(i, |Signed(h.tasks[i])|)]
    ensures Kept(TheRecords, h')
  {
    assert Sat(TheRecords, h);
    forall id | id in h'.t.issued.records
      ensures id in h'.births && FiledBy(h', id)
    {
      assert FiledBy(h, id);
      var j := h.births[id].task;
      assert j != i && h'.tasks[j] == h.tasks[j];
    }
    forall j, k | 0 <= j < |h'.tasks| && 0 <= k < |Signed(h'.tasks[j])|
      ensures Signed(h'.tasks[j])[k].id in h'.births && h'.births[Signed(h'.tasks[j])[k].id] == Birth(j, k)
    {
      if j != i {
        assert h'.tasks[j] == h.tasks[j];
      } else if k < |Signed(h.tasks[i])| {
        assert Signed(h'.tasks[i])[k] == Signed(h.tasks[i])[k];
      }
    }
  }

  lemma SignLocal(task: Task, task': Task, n: nat, record: Record)
    requires task.Delivery? && task.phase.Issuing? && LocalOk(task) && n !in Held(task)
    requires |task.phase.signed| < |task.phase.defs|
    requires record.index == n && record.definitionId == task.phase.defs[|task.phase.signed|].id
    requires record.processId == task.phase.job.id && record.holderId == task.phase.job.holderId
    requires record.status.Active?
    requires task' == Delivery(task.pid,
      Issuing(task.phase.job, task.phase.defs, task.phase.taken + [n], task.phase.signed + [record]))
    ensures LocalOk(task') && Held(task') == Held(task) + {n}
  {
    var taken := task.phase.taken;
    assert n !in taken;
    assert Elems(taken + [n]) == Elems(taken) + {n};
  }

  lemma SignKeeps(h: Hub, i: nat, credentialId: string, now: nat)
    requires Inv(h) && credentialId !in h.births
    ensures Inv(SignStep(h, i, credentialId, now))
  {
    if Delivers(h, i) && h.tasks[i].phase.Issuing? && |h.tasks[i].phase.signed| < |h.tasks[i].phase.defs| {
      var Issuing(job, defs, taken, signed) := h.tasks[i].phase;
      match Allocate(h.t.issued.list).1
      case None =>
        assert Sat(TheLocals, h);
        PostAdvances(h, i, EXHAUSTED);
        AdvanceKeeps(h, i, Failing(job, taken, EXHAUSTED));
      case Some(n) => SignNextKeeps(h, i, credentialId, now);
    }
  }

  lemma AllocatedIsNew(h: Hub, i: nat)
    requires Inv(h) && i < |h.tasks| && Allocate(h.t.issued.list).1.Some?
    ensures Allocate(h.t.issued.list).1.value !in Held(h.tasks[i])
    ensures Allocate(h.t.issued.list).0.revoked == h.t.issued.list.revoked
    ensures Allocate(h.t.issued.list).0.cached == h.t.issued.list.cached
  {
    assert Sat(ThePartition, h);
    AllocateGivesUnowned(h);
    assert !Holds(h, InFlight(i), Allocate(h.t.issued.list).1.value);
  }

  lemma SignShape(h: Hub, i: nat, credentialId: string, now: nat, record: Record)
    requires Inv(h) && Delivers(h, i) && h.tasks[i].phase.Issuing?
    requires |h.tasks[i].phase.signed| < |h.tasks[i].phase.defs| && Allocate(h.t.issued.list).1.Some?
    requires var Issuing(job, defs, taken, signed) := h.tasks[i].phase;
      record == Mint(credentialId, defs[|signed|], job.holderId, job.holderDid, job.id,
                     Allocate(h.t.issued.list).1.value, now)
    ensures var h', n := SignStep(h, i, credentialId, now), Allocate(h.t.issued.list).1.value;
      && LocalOk(h'.tasks[i]) && Held(h'.tasks[i]) == Held(h.tasks[i]) + {n}
      && OnlyTask(h, h', i) && Signed(h'.tasks[i]) == Signed(h.tasks[i]) + [record]
  {
    var h' := SignStep(h, i, credentialId, now);
    AllocatedIsNew(h, i);
    assert LocalOk(h.tasks[i]) by {
      assert Sat(TheLocals, h);
    }
    SignLocal(h.tasks[i], h'.tasks[i], Allocate(h.t.issued.list).1.value, record);
  }

  lemma SignNextKeeps(h: Hub, i: nat, credentialId: string, now: nat)
    requires Inv(h) && credentialId !in h.births
    requires Delivers(h, i) && h.tasks[i].phase.Issuing? && |h.tasks[i].phase.signed| < |h.tasks[i].phase.defs|
    requires Allocate(h.t.issued.list).1.Some?
    ensures Inv(SignStep(h, i, credentialId, now))
  {
    var Issuing(job, defs, taken, signed) := h.tasks[i].phase;
    var n := Allocate(h.t.issued.list).1.value;
    var record := Mint(credentialId, defs[|signed|], job.holderId, job.holderDid, job.id, n, now);
    var h' := SignStep(h, i, credentialId, now);
    AllocatedIsNew(h, i);
    Untouched(h, h');
    SignShape(h, i, credentialId, now, record);
    RunningLinked(h, h', i);
    OnlyTaskLocals(h, h', i);
    SignRecords(h, h', i, record);
    TakePartition(h, h', i);
    Establish(h');
  }

  lemma RedeemIndexKeeps(h: Hub, i: nat)
    requires Inv(h)
    ensures Inv(RedeemIndexStep(h, i))
  {
    if Redeems(h, i) && h.tasks[i].stage.HolderKnown? {
      match Allocate(h.t.issued.list).1
      case None => StageKeeps(h, i, Denied);
      case Some(n) =>
        RedeemNumberedKeeps(h, i);
    }
  }

  lemma RedeemNumbered(h: Hub, i: nat)
    requires Inv(h) && Redeems(h, i) && h.tasks[i].stage.HolderKnown? && Allocate(h.t.issued.list).1.Some?
    ensures var h', n := RedeemIndexStep(h, i), Allocate(h.t.issued.list).1.value;
      && OnlyTask(h, h', i) && Redeems(h', i) && StageAdvances(h, i, h'.tasks[i].stage)
      && Held(h'.tasks[i]) == Held(h.tasks[i]) + {n}
      && LocalOk(h'.tasks[i]) && RedeemerKnown(h.t.holders, h'.tasks[i])
      && !HasFiled(h.tasks[i]) && Signed(h'.tasks[i]) == []
      && h'.t == h.t.(issued := h.t.issued.(list := Allocate(h.t.issued.list).0))
      && h'.births == h.births && h'.taskOf == h.taskOf && h'.minted == h.minted
  {
    assert RedeemerKnown(h.t.holders, h.tasks[i]) by {
      assert Sat(TheLocals, h);
    }
  }

  lemma RedeemNumberedKeeps(h: Hub, i: nat)
    requires Inv(h) && Redeems(h, i) && h.tasks[i].stage.HolderKnown? && Allocate(h.t.issued.list).1.Some?
    ensures Inv(RedeemIndexStep(h, i))
  {
    var h' := RedeemIndexStep(h, i);
    RedeemNumbered(h, i);
    AllocatedIsNew(h, i);
    Untouched(h, h');
    StageLinked(h, h', i);
    OnlyTaskLocals(h, h', i);
    RecordsStill(h, h', i);
    TakePartition(h, h', i);
    Establish(h');
  }

  /** The records do not change and the task signs and files nothing. */
  lemma RecordsStill(h: Hub, h': Hub, i: nat)
    requires Inv(h) && OnlyTask(h, h', i)
    requires h'.t.issued.records == h.t.issued.records && h'.births == h.births
    requires !HasFiled(h.tasks[i]) && Signed(h'.tasks[i]) == []
    ensures Kept(TheRecords, h')
  {
    assert Sat(TheRecords, h);
    forall id | id in h'.t.issued.records
      ensures id in h'.births && FiledBy(h', id)
    {
      assert FiledBy(h, id);
      var j := h.births[id].task;
      assert j != i && h'.tasks[j] == h.tasks[j];
    }
  }

  /** A held index is never a revoked one, so giving it back is never refused. */
  lemma HeldIsUnrevoked(h: Hub, i: nat, n: nat)
    requires Inv(h) && i < |h.tasks| && n in Held(h.tasks[i])
    ensures n < h.t.issued.list.next && n !in h.t.issued.list.revoked
  {
    assert Sat(ThePartition, h) && Sat(TheBits, h);
    assert Holds(h, InFlight(i), n);
    forall id | id in h.t.issued.records
      ensures h.t.issued.records[id].index != n
    {
      assert Holds(h, Recorded(id), h.t.issued.records[id].index);
    }
  }

  /** Task `i` gives all its indexes back. */
  lemma GiveBackPartition(h: Hub, h': Hub, i: nat)
    requires Inv(h) && OnlyTask(h, h', i) && Held(h'.tasks[i]) == {}
    requires h'.t.issued == h.t.issued.(list := h.t.issued.list.(free := h.t.issued.list.free + Held(h.tasks[i])))
    ensures Kept(ThePartition, h')
  {
    assert Sat(ThePartition, h);
    var to := map n | n in Held(h.tasks[i]) :: Pool;
    forall n | n in to
      ensures n < h'.t.issued.list.next
    {
      assert Holds(h, InFlight(i), n);
    }
    forall o, j: nat
      ensures Holds(h', o, j) <==> if j in to then o == to[j] else Holds(h, o, j)
    {
      if j in to {
        assert Holds(h, InFlight(i), j);
        assert Holds(h, o, j) ==> o == InFlight(i);
      }
    }
    PartitionReassign(h, h', to);
  }

  lemma ReleaseEffect(h: Hub, i: nat)
    requires Inv(h) && Delivers(h, i) && h.tasks[i].phase.Failing?
    ensures ReleaseAll(h.t.issued.list, h.tasks[i].phase.taken)
      == h.t.issued.list.(free := h.t.issued.list.free + Held(h.tasks[i]))
  {
    var taken := h.tasks[i].phase.taken;
    forall k | 0 <= k < |taken|
      ensures taken[k] < h.t.issued.list.next && taken[k] !in h.t.issued.list.revoked
    {
      HeldIsUnrevoked(h, i, taken[k]);
    }
    ReleaseAllEffect(h.t.issued.list, taken);
  }

  lemma ReleasedIs(h: Hub, i: nat)
    requires Inv(h) && Delivers(h, i) && h.tasks[i].phase.Failing?
    ensures var h' := ReleaseStep(h, i);
      && OnlyTask(h, h', i)
      && h'.tasks[i]
         == Delivery(h.tasks[i].pid, Settling(h.tasks[i].phase.job, Some(h.tasks[i].phase.reason), []))
      && h'.t == h.t.(issued := h.t.issued.(list := h.t.issued.list.(free := h.t.issued.list.free + Held(h.tasks[i]))))
      && h' == h.(t := h'.t, tasks := h'.tasks)
      && Held(h'.tasks[i]) == {} && LocalOk(h'.tasks[i])
  {
    ReleaseEffect(h, i);
  }

  lemma ReleaseKeeps(h: Hub, i: nat)
    requires Inv(h)
    ensures Inv(ReleaseStep(h, i))
  {
    if Delivers(h, i) && h.tasks[i].phase.Failing? {
      var h' := ReleaseStep(h, i);
      ReleasedIs(h, i);
      Untouched(h, h');
      RunningLinked(h, h', i);
      OnlyTaskLocals(h, h', i);
      RecordsStill(h, h', i);
      GiveBackPartition(h, h', i);
      Establish(h');
    }
  }

  lemma RedeemReleaseKeeps(h: Hub, i: nat)
    requires Inv(h)
    ensures Inv(RedeemReleaseStep(h, i))
  {
    if Redeems(h, i) && h.tasks[i].stage.Refused? {
      var h' := RedeemReleaseStep(h, i);
      HeldIsUnrevoked(h, i, h.tasks[i].stage.index);
      Untouched(h, h');
      StageLinked(h, h', i);
      OnlyTaskLocals(h, h', i);
      RecordsStill(h, h', i);
      GiveBackPartition(h, h', i);
      Establish(h');
    }
  }
}
