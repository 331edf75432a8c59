/** The steps that file records or change the request table, and the induction over whole runs. */
module IssuanceSteps {
  import opened Prelude
  import opened IssuerTables
  import opened Protocol
  import opened IssuanceInvariant

  // ---- Filing what a delivery signed ----

  /** What a delivery signed is new to the table, id by id. */
  lemma SignedIsUnfiled(h: Hub, i: nat)
    requires Inv(h) && i < |h.tasks| && !HasFiled(h.tasks[i])
    ensures var signed := Signed(h.tasks[i]);
      && (forall k :: 0 <= k < |signed| ==> signed[k].id !in h.t.issued.records)
      && (forall a, b :: 0 <= a < b < |signed| ==> signed[a].id != signed[b].id)
  {
    assert Sat(TheRecords, h);
    var signed := Signed(h.tasks[i]);
    forall k | 0 <= k < |signed|
      ensures signed[k].id !in h.t.issued.records
    {
      assert h.births[signed[k].id] == Birth(i, k);
    }
    forall a, b | 0 <= a < b < |signed|
      ensures signed[a].id != signed[b].id
    {
      assert h.births[signed[a].id] == Birth(i, a) && h.births[signed[b].id] == Birth(i, b);
    }
  }

  /** The table after task `i` has filed `signed`. */
  ghost predicate Files(h: Hub, h': Hub, i: nat, signed: seq<Record>) {
    var before, after := h.t.issued.records, h'.t.issued.records;
    && h'.t.issued.list == h.t.issued.list
    && (forall k :: 0 <= k < |signed| ==>
         signed[k].id !in before && signed[k].id in after && after[signed[k].id] == signed[k])
    && (forall id :: id in before ==> id in after && after[id] == before[id])
    && (forall id :: id in after && id !in before ==> exists k :: 0 <= k < |signed| && signed[k].id == id)
    && (forall k :: 0 <= k < |signed| ==> signed[k].status.Active?)
    && (forall a, b :: 0 <= a < b < |signed| ==> signed[a].id != signed[b].id)
  }

  lemma FilesPartition(h: Hub, h': Hub, i: nat, signed: seq<Record>)
    requires Inv(h) && OnlyTask(h, h', i) && Files(h, h', i, signed)
    requires Held(h'.tasks[i]) == {}
    requires forall k :: 0 <= k < |signed| ==> signed[k].index in Held(h.tasks[i])
    requires forall n :: n in Held(h.tasks[i]) ==> exists k :: 0 <= k < |signed| && signed[k].index == n
    requires forall a, b :: 0 <= a < b < |signed| ==> signed[a].index != signed[b].index
    ensures Kept(ThePartition, h')
  {
    assert Sat(ThePartition, h);
    var to := map n | n in Held(h.tasks[i]) :: Recorded(signed[IndexedAt(signed, n)].id);
    HeldIsBelow(h, i);
    forall o, j: nat
      ensures Holds(h', o, j) <==> if j in to then o == to[j] else Holds(h, o, j)
    {
      FilesMove(h, h', i, signed, o, j);
    }
    PartitionReassign(h, h', to);
  }

  lemma HeldIsBelow(h: Hub, i: nat)
    requires Partition(h) && i < |h.tasks|
    ensures forall n :: n in Held(h.tasks[i]) ==> n < h.t.issued.list.next
  {
    assert forall n :: n in Held(h.tasks[i]) ==> Holds(h, InFlight(i), n);
  }

  ghost function IndexedAt(signed: seq<Record>, n: nat): (k: nat)
    requires exists k :: 0 <= k < |signed| && signed[k].index == n
    ensures k < |signed| && signed[k].index == n
  {
    var k :| 0 <= k < |signed| && signed[k].index == n;
    k
  }

  lemma FilesMove(h: Hub, h': Hub, i: nat, signed: seq<Record>, o: Owner, j: nat)
    requires Partition(h) && OnlyTask(h, h', i) && Files(h, h', i, signed)
    requires Held(h'.tasks[i]) == {}
    requires forall k :: 0 <= k < |signed| ==> signed[k].index in Held(h.tasks[i])
    requires forall n :: n in Held(h.tasks[i]) ==> exists k :: 0 <= k < |signed| && signed[k].index == n
    requires forall a, b :: 0 <= a < b < |signed| ==> signed[a].index != signed[b].index
    ensures Holds(h', o, j) <==>
      if j in Held(h.tasks[i]) then o == Recorded(signed[IndexedAt(signed, j)].id) else Holds(h, o, j)
  {
    if j in Held(h.tasks[i]) {
      assert Holds(h, InFlight(i), j);
      var m := IndexedAt(signed, j);
      assert Holds(h', Recorded(signed[m].id), j);
      if Holds(h', o, j) {
        assert Holds(h, o, j) ==> o == InFlight(i);
        if o.Recorded? && o.id !in h.t.issued.records {
          var k :| 0 <= k < |signed| && signed[k].id == o.id;
          assert k == m;
        }
      }
    } else if o.Recorded? && o.id in h'.t.issued.records && o.id !in h.t.issued.records {
      var k :| 0 <= k < |signed| && signed[k].id == o.id;
      assert signed[k].index in Held(h.tasks[i]);
    }
  }

  lemma FilesBits(h: Hub, h': Hub, i: nat, signed: seq<Record>)
    requires Inv(h) && Files(h, h', i, signed)
    ensures Kept(TheBits, h')
  {
    assert Sat(TheBits, h);
    var before, after := h.t.issued.records, h'.t.issued.records;
    forall n: nat
      ensures RevokedIndex(after, n) <==> RevokedIndex(before, n)
    {
      if RevokedIndex(before, n) {
        var id :| id in before && before[id].index == n && before[id].status.Revoked?;
        assert id in after && after[id] == before[id];
      }
      if RevokedIndex(after, n) {
        var id :| id in after && after[id].index == n && after[id].status.Revoked?;
        assert id in before;
      }
    }
  }

  lemma FilesRecords(h: Hub, h': Hub, i: nat, signed: seq<Record>)
    requires Inv(h) && OnlyTask(h, h', i) && Files(h, h', i, signed)
    requires !HasFiled(h.tasks[i]) && HasFiled(h'.tasks[i]) && Signed(h'.tasks[i]) == signed
    requires forall id :: id in h.births ==> id in h'.births && h'.births[id] == h.births[id]
    requires forall k :: 0 <= k < |signed| ==> signed[k].id in h'.births && h'.births[signed[k].id] == Birth(i, k)
    ensures Kept(TheRecords, h')
  {
    assert Sat(TheRecords, h);
    forall id | id in h'.t.issued.records
      ensures id in h'.births && FiledBy(h', id)
    {
      if id in h.t.issued.records {
        assert FiledBy(h, id);
        var j := h.births[id].task;
        assert j != i && h'.tasks[j] == h.tasks[j];
      } else {
        var k :| 0 <= k < |signed| && signed[k].id == id;
        assert h'.births[id] == Birth(i, k);
      }
    }
    forall j, k | 0 <= j < |h'.tasks| && 0 <= k < |Signed(h'.tasks[j])|
      ensures Signed(h'.tasks[j])[k].id in h'.births && h'.births[Signed(h'.tasks[j])[k].id] == Birth(j, k)
    {
      assert j != i ==> h'.tasks[j] == h.tasks[j];
    }
    forall j, k | 0 <= j < |h'.tasks| && HasFiled(h'.tasks[j]) && 0 <= k < |Signed(h'.tasks[j])|
      ensures Signed(h'.tasks[j])[k].id in h'.t.issued.records
    {
      assert j != i ==> h'.tasks[j] == h.tasks[j];
    }
  }

  lemma FileStepFiles(h: Hub, i: nat)
    requires Inv(h) && Delivers(h, i) && h.tasks[i].phase.Posted?
    ensures Files(h, FileStep(h, i), i, h.tasks[i].phase.signed)
    ensures IssuedOk(FileStep(h, i).t.issued)
    ensures LocalOk(h.tasks[i]) && LocalOk(FileStep(h, i).tasks[i])
  {
    assert Sat(TheLocals, h) && Sat(TheTables, h);
    assert LocalOk(h.tasks[i]);
    SignedIsUnfiled(h, i);
    assert Signed(h.tasks[i]) == h.tasks[i].phase.signed;
    FileRecordsEffect(h.t.issued, h.tasks[i].phase.signed);
    FileRecordsOk(h.t.issued, h.tasks[i].phase.signed);
  }

  lemma SignedBirths(h: Hub, i: nat)
    requires Inv(h) && i < |h.tasks|
    ensures forall k :: 0 <= k < |Signed(h.tasks[i])| ==>
      Signed(h.tasks[i])[k].id in h.births && h.births[Signed(h.tasks[i])[k].id] == Birth(i, k)
  {
    assert Sat(TheRecords, h);
  }

  lemma FileStepShape(h: Hub, i: nat)
    requires Delivers(h, i) && h.tasks[i].phase.Posted?
    ensures var h', signed := FileStep(h, i), h.tasks[i].phase.signed;
      && OnlyTask(h, h', i) && Held(h'.tasks[i]) == {} && Signed(h.tasks[i]) == Signed(h'.tasks[i]) == signed
      && (forall k :: 0 <= k < |signed| ==> signed[k].index in Held(h.tasks[i]))
      && (forall n :: n in Held(h.tasks[i]) ==> exists k :: 0 <= k < |signed| && signed[k].index == n)
  {
    var signed := h.tasks[i].phase.signed;
    assert forall k :: 0 <= k < |signed| ==> signed[k] in signed;
    assert Held(h.tasks[i]) == set r | r in signed :: r.index;
  }

  lemma FileKeeps(h: Hub, i: nat)
    requires Inv(h)
    ensures Inv(FileStep(h, i))
  {
    if Delivers(h, i) && h.tasks[i].phase.Posted? {
      var h' := FileStep(h, i);
      var signed := h.tasks[i].phase.signed;
      FileStepFiles(h, i);
      FileStepShape(h, i);
      SignedBirths(h, i);
      Untouched(h, h');
      FilesPartition(h, h', i, signed);
      FilesBits(h, h', i, signed);
      FilesRecords(h, h', i, signed);
      RunningLinked(h, h', i);
      OnlyTaskLocals(h, h', i);
      Establish(h');
    }
  }

  lemma RedeemFileLinked(h: Hub, h': Hub, i: nat)
    requires Inv(h) && Redeems(h, i) && h.tasks[i].stage.Logged?
    requires OnlyTask(h, h', i) && Redeems(h', i) && h'.tasks[i].stage.Filed?
    requires h'.tasks[i].stage.pid == h.tasks[i].stage.pid && h'.tasks[i].stage.def == h.tasks[i].stage.def
    requires h'.t.requests == h.t.requests && h'.taskOf == h.taskOf && h'.minted == h.minted
    ensures Kept(TheLinks, h')
  {
    assert Sat(TheLinks, h);
    forall j | 0 <= j < |h'.tasks|
      ensures TaskLinked(h', j)
    {
      assert TaskLinked(h, j);
    }
    forall pid | pid in h'.t.requests.records
      ensures pid in h'.minted && ProcessLinked(h', pid)
    {
      assert ProcessLinked(h, pid);
    }
  }

  lemma FreshRecord(h: Hub, id: string)
    requires Inv(h) && id !in h.births
    ensures id !in h.t.issued.records
    ensures IssuedOk(h.t.issued)
  {
    assert Sat(TheRecords, h) && Sat(TheTables, h);
  }

  lemma RedeemFileFiles(h: Hub, i: nat, credentialId: string, now: nat)
    requires Inv(h) && credentialId !in h.births && Redeems(h, i) && h.tasks[i].stage.Logged?
    ensures var h' := RedeemFileStep(h, i, credentialId, now);
      && OnlyTask(h, h', i) && Held(h'.tasks[i]) == {} && LocalOk(h'.tasks[i]) && IssuedOk(h'.t.issued)
      && Redeems(h', i) && h'.tasks[i].stage.Filed?
      && Files(h, h', i, [h'.tasks[i].stage.record])
      && [h'.tasks[i].stage.record][0].index in Held(h.tasks[i])
  {
    var h' := RedeemFileStep(h, i, credentialId, now);
    var record := h'.tasks[i].stage.record;
    FreshRecord(h, credentialId);
    FileRecordOk(h.t.issued, record);
    assert h'.t.issued.records == h.t.issued.records[record.id := record];
    assert [record][0].id == record.id;
  }

  lemma RedeemFileKeeps(h: Hub, i: nat, credentialId: string, now: nat)
    requires Inv(h) && credentialId !in h.births
    ensures Inv(RedeemFileStep(h, i, credentialId, now))
  {
    if Redeems(h, i) && h.tasks[i].stage.Logged? {
      var h' := RedeemFileStep(h, i, credentialId, now);
      var record := h'.tasks[i].stage.record;
      RedeemFileFiles(h, i, credentialId, now);
      Untouched(h, h');
      FilesPartition(h, h', i, [record]);
      FilesBits(h, h', i, [record]);
      FilesRecords(h, h', i, [record]);
      RedeemFileLinked(h, h', i);
      OnlyTaskLocals(h, h', i);
      Establish(h');
    }
  }

  // ---- Revocation and the cached list ----

  lemma RevokeRecords(h: Hub, h': Hub, id: string)
    requires Inv(h) && id in h.t.issued.records && h' == RevokeStep(h, id)
    ensures Kept(TheRecords, h')
  {
    assert Sat(TheRecords, h);
    forall x | x in h'.t.issued.records
      ensures x in h'.births && FiledBy(h', x)
    {
      assert FiledBy(h, x);
    }
  }

  lemma RevokeTables(h: Hub, h': Hub, id: string)
    requires Inv(h) && id in h.t.issued.records && h' == RevokeStep(h, id)
    ensures Kept(TheLocals, h') && Kept(TheTables, h')
  {
    assert Kept(TheLocals, h') by {
      assert Sat(TheLocals, h);
    }
    assert Kept(TheTables, h') by {
      assert Sat(TheTables, h);
    }
  }

  lemma RevokePartition(h: Hub, h': Hub, id: string)
    requires Inv(h) && id in h.t.issued.records && h' == RevokeStep(h, id)
    ensures Kept(ThePartition, h')
  {
    assert Sat(ThePartition, h);
    forall o, n: nat
      ensures Holds(h', o, n) <==> Holds(h, o, n)
    {
    }
    PartitionFrame(h, h');
  }

  lemma RevokeBits(h: Hub, h': Hub, id: string)
    requires Inv(h) && id in h.t.issued.records && h' == RevokeStep(h, id)
    ensures Kept(TheBits, h')
  {
    assert Sat(TheBits, h);
    var before, after := h.t.issued.records, h'.t.issued.records;
    forall n: nat
      ensures RevokedIndex(after, n) <==> RevokedIndex(before, n) || n == before[id].index
    {
      if RevokedIndex(before, n) {
        var x :| x in before && before[x].index == n && before[x].status.Revoked?;
        assert x in after && after[x].status.Revoked? && after[x].index == n;
      }
      if RevokedIndex(after, n) {
        var x :| x in after && after[x].index == n && after[x].status.Revoked?;
        assert x == id || before[x] == after[x];
      }
      assert n == before[id].index ==> after[id].index == n && after[id].status.Revoked?;
    }
  }

  lemma SameLinks(h: Hub, h': Hub)
    requires Inv(h) && h'.t.requests == h.t.requests && h'.tasks == h.tasks
    requires h'.taskOf == h.taskOf && h'.minted == h.minted
    ensures Kept(TheLinks, h')
  {
    assert Sat(TheLinks, h);
    assert forall i :: 0 <= i < |h.tasks| && TaskLinked(h, i) ==> TaskLinked(h', i);
    assert forall pid :: pid in h.t.requests.records && ProcessLinked(h, pid) ==> ProcessLinked(h', pid);
  }

  lemma RevokeKeeps(h: Hub, id: string)
    requires Inv(h)
    ensures Inv(RevokeStep(h, id))
  {
    if id in h.t.issued.records {
      var h' := RevokeStep(h, id);
      Untouched(h, h');
      RevokeRecords(h, h', id);
      RevokeTables(h, h', id);
      RevokePartition(h, h', id);
      RevokeBits(h, h', id);
      SameLinks(h, h');
      Establish(h');
    }
  }

  lemma ServeRest(h: Hub, h': Hub, now: nat)
    requires Inv(h) && h' == ServeStep(h, now)
    ensures Kept(TheBits, h') && Kept(TheRecords, h') && Kept(ThePartition, h') && Kept(TheLocals, h')
  {
    assert Sat(TheBits, h) && Sat(TheRecords, h) && Sat(ThePartition, h) && Sat(TheLocals, h);
    assert forall id :: id in h.t.issued.records && id in h.births && FiledBy(h, id) ==> FiledBy(h', id);
    forall o, n: nat
      ensures Holds(h', o, n) <==> Holds(h, o, n)
    {
    }
    PartitionFrame(h, h');
  }

  lemma ServeKeeps(h: Hub, now: nat)
    requires Inv(h)
    ensures Inv(ServeStep(h, now))
  {
    var h' := ServeStep(h, now);
    Untouched(h, h');
    ServeRest(h, h', now);
    SameLinks(h, h');
    Establish(h');
  }

  // ---- A new process is tracked ----

  /** `p` was tracked under a new id, possibly over an evicted terminal record. */
  ghost predicate Tracks(h: Hub, h': Hub, p: Process) {
    && p.id !in h.minted && h'.minted == h.minted + {p.id}
    && LogOk(h'.t.requests) && |h'.t.requests.records| <= MAX_TRACKED_REQUESTS
    && Tracked(h.t.requests.records, h'.t.requests.records, p.id, p)
    && h'.t.holders == h.t.holders && h'.t.catalog == h.t.catalog && h'.t.issued == h.t.issued
    && h'.births == h.births && h'.mode == h.mode
  }

  lemma TrackTables(h: Hub, p: Process)
    requires Inv(h) && p.id !in h.minted && Track(h.t.requests, MAX_TRACKED_REQUESTS, p.id, p).Ok?
    ensures var log := Track(h.t.requests, MAX_TRACKED_REQUESTS, p.id, p).value;
      LogOk(log) && |log.records| <= MAX_TRACKED_REQUESTS && Tracked(h.t.requests.records, log.records, p.id, p)
  {
    assert Sat(TheTables, h) && Sat(TheLinks, h);
    TrackEffect(h.t.requests, MAX_TRACKED_REQUESTS, p.id, p);
  }

  lemma TrackedRest(h: Hub, h': Hub, p: Process)
    requires Inv(h) && Tracks(h, h', p) && JobOk(p)
    requires HolderKnownFor(h.t.holders, p) && (p.state.IsActive() ==> NeedsMet(h.t.catalog, p))
    ensures Kept(TheTables, h') && Kept(TheHolders, h') && Kept(TheDefinitions, h') && Kept(TheBits, h')
  {
    TrackedTables(h, h', p);
    TrackedHolders(h, h', p);
    TrackedDefinitions(h, h', p);
    SameBits(h, h');
  }

  lemma TrackedTables(h: Hub, h': Hub, p: Process)
    requires Inv(h) && Tracks(h, h', p)
    ensures Kept(TheTables, h')
  {
    assert Sat(TheTables, h);
  }

  lemma TrackedHolders(h: Hub, h': Hub, p: Process)
    requires Inv(h) && Tracks(h, h', p) && HolderKnownFor(h.t.holders, p)
    ensures Kept(TheHolders, h')
  {
    assert Sat(TheHolders, h);
  }

  lemma TrackedDefinitions(h: Hub, h': Hub, p: Process)
    requires Inv(h) && Tracks(h, h', p) && JobOk(p) && (p.state.IsActive() ==> NeedsMet(h.t.catalog, p))
    ensures Kept(TheDefinitions, h')
  {
    assert Sat(TheDefinitions, h);
  }

  lemma TrackedPending(before: map<string, Process>, after: map<string, Process>, p: Process)
    requires Tracked(before, after, p.id, p)
    ensures |PendingIds(after)| <= |PendingIds(before)| + if p.state.Submitted? then 1 else 0
  {
    var extra := if p.state.Submitted? then {p.id} else {};
    assert PendingIds(after) <= PendingIds(before) + extra;
    SubsetCardinality(PendingIds(after), PendingIds(before) + extra);
  }

  lemma TrackedPendingOf(before: map<string, Process>, after: map<string, Process>, p: Process, holderId: string)
    requires Tracked(before, after, p.id, p)
    ensures |PendingIdsOf(after, holderId)|
      <= |PendingIdsOf(before, holderId)| + if p.state.Submitted? && p.holderId == holderId then 1 else 0
  {
    var mine := if p.state.Submitted? && p.holderId == holderId then {p.id} else {};
    assert PendingIdsOf(after, holderId) <= PendingIdsOf(before, holderId) + mine;
    SubsetCardinality(PendingIdsOf(after, holderId), PendingIdsOf(before, holderId) + mine);
  }

  lemma TrackedCaps(h: Hub, h': Hub, p: Process)
    requires Inv(h) && Tracks(h, h', p)
    requires p.state.Submitted? ==> !AtPendingCap(h.t.requests, p.holderId)
    ensures Kept(TheCaps, h')
  {
    assert Sat(TheCaps, h);
    TrackedPending(h.t.requests.records, h'.t.requests.records, p);
    forall holderId
      ensures |PendingIdsOf(h'.t.requests.records, holderId)| <= MAX_PENDING_PROCESSES_PER_HOLDER
    {
      TrackedPendingOf(h.t.requests.records, h'.t.requests.records, p, holderId);
    }
  }

  /** Tasks and processes that were there before stay linked when a new process is tracked. */
  lemma TrackedOthers(h: Hub, h': Hub, p: Process)
    requires Inv(h) && Tracks(h, h', p)
    requires |h.tasks| <= |h'.tasks|
    requires forall pid :: pid in h.taskOf ==>
      pid in h'.taskOf && h'.taskOf[pid] == h.taskOf[pid] && h.taskOf[pid] < |h.tasks|
      && h'.tasks[h.taskOf[pid]] == h.tasks[h.taskOf[pid]]
    requires forall pid :: pid in h'.taskOf ==> pid in h.taskOf || pid == p.id
    ensures forall i :: 0 <= i < |h.tasks| && h'.tasks[i] == h.tasks[i] ==> TaskLinked(h', i)
    ensures forall pid :: pid in h'.t.requests.records && pid != p.id ==> pid in h'.minted && ProcessLinked(h', pid)
    ensures forall pid :: pid in h.taskOf ==>
      pid in h'.minted && h'.taskOf[pid] < |h'.tasks| && Concerns(h'.tasks[h'.taskOf[pid]], pid)
  {
    assert Sat(TheLinks, h);
    forall i | 0 <= i < |h.tasks| && h'.tasks[i] == h.tasks[i]
      ensures TaskLinked(h', i)
    {
      assert TaskLinked(h, i);
    }
    forall pid | pid in h'.t.requests.records && pid != p.id
      ensures pid in h'.minted && ProcessLinked(h', pid)
    {
      assert ProcessLinked(h, pid);
    }
  }

  lemma TaskOfInRange(h: Hub)
    requires Inv(h)
    ensures forall pid :: pid in h.taskOf ==>
      pid in h.minted && h.taskOf[pid] < |h.tasks| && Concerns(h.tasks[h.taskOf[pid]], pid)
  {
    assert Sat(TheLinks, h);
  }

  lemma TrackedSubmittedKeeps(h: Hub, h': Hub, p: Process)
    requires Inv(h) && Tracks(h, h', p) && JobOk(p) && p.state.Submitted? && !p.deliveryStarted
    requires HolderKnownFor(h.t.holders, p) && NeedsMet(h.t.catalog, p) && !AtPendingCap(h.t.requests, p.holderId)
    requires h'.tasks == h.tasks && h'.taskOf == h.taskOf
    ensures Inv(h')
  {
    TrackedSubmittedLinked(h, h', p);
    TrackedRest(h, h', p);
    TrackedCaps(h, h', p);
    TrackedStill(h, h');
    Establish(h');
  }

  lemma TrackedSubmittedLinked(h: Hub, h': Hub, p: Process)
    requires Inv(h) && Tracks(h, h', p) && p.state.Submitted? && !p.deliveryStarted
    requires h'.tasks == h.tasks && h'.taskOf == h.taskOf
    ensures Kept(TheLinks, h')
  {
    TaskOfInRange(h);
    TrackedOthers(h, h', p);
  }

  /** Tracking changes no index, no record and no existing task. */
  lemma TrackedStill(h: Hub, h': Hub)
    requires Inv(h) && h'.t.issued == h.t.issued && h'.births == h.births && h'.tasks == h.tasks
    requires h'.t.holders == h.t.holders
    ensures Kept(TheLocals, h') && Kept(TheRecords, h') && Kept(ThePartition, h')
  {
    assert Sat(TheLocals, h) && Sat(TheRecords, h) && Sat(ThePartition, h);
    assert forall id :: id in h.t.issued.records && id in h.births && FiledBy(h, id) ==> FiledBy(h', id);
    forall o, n: nat
      ensures Holds(h', o, n) <==> Holds(h, o, n)
    {
    }
    PartitionFrame(h, h');
  }

  lemma SpawnedTasks(h: Hub, h': Hub, pids: seq<string>)
    requires Inv(h) && h'.t.issued == h.t.issued && h'.births == h.births && SameDids(h.t.holders, h'.t.holders)
    requires h'.tasks == h.tasks + seq(|pids|, k requires 0 <= k < |pids| => Delivery(pids[k], Queued))
    ensures Kept(TheLocals, h') && Kept(TheRecords, h') && Kept(ThePartition, h')
  {
    var extra := seq(|pids|, k requires 0 <= k < |pids| => Delivery(pids[k], Queued));
    NewTasksRecords(h, h', extra);
    NewTasksPartition(h, h', extra);
    assert Kept(TheLocals, h') by {
      assert Sat(TheLocals, h);
    }
  }

  lemma TrackedApprovedLinked(h: Hub, h': Hub, p: Process)
    requires Inv(h) && p.state.Approved? && !p.deliveryStarted
    requires Tracks(h, h', p) && h'.tasks == h.tasks && h'.taskOf == h.taskOf
    ensures Tracks(h, Spawn(h', [p.id]), p) && Kept(TheLinks, Spawn(h', [p.id]))
  {
    var s := Spawn(h', [p.id]);
    TaskOfInRange(h);
    SpawnOne(h', p.id);
    TrackedOthers(h, s, p);
    assert TaskLinked(s, |h.tasks|);
    assert ProcessLinked(s, p.id);
    assert Kept(TheLinks, s);
  }

  lemma SpawnOne(h: Hub, pid: string)
    requires pid !in h.taskOf
    ensures Spawn(h, [pid]) == h.(tasks := h.tasks + [Delivery(pid, Queued)], taskOf := h.taskOf[pid := |h.tasks|])
  {
    assert Elems([pid]) == {pid};
  }

  lemma TrackedApprovedKeeps(h: Hub, h': Hub, p: Process)
    requires Inv(h) && JobOk(p) && p.state.Approved? && !p.deliveryStarted
    requires HolderKnownFor(h.t.holders, p) && NeedsMet(h.t.catalog, p)
    requires Tracks(h, h', p) && h'.tasks == h.tasks && h'.taskOf == h.taskOf
    ensures Inv(Spawn(h', [p.id]))
  {
    var s := Spawn(h', [p.id]);
    TrackedApprovedLinked(h, h', p);
    TrackedRest(h, s, p);
    TrackedCaps(h, s, p);
    SpawnedTasks(h, s, [p.id]);
    Establish(s);
  }

  lemma RequestedFit(ids: seq<string>, requested: seq<string>)
    requires requested == RequestedIds(ids) && |requested| <= MAX_REQUEST_CREDENTIALS
    ensures requested == Distinct(ids) && NoDup(requested)
  {
  }

  lemma RequestKeeps(h: Hub, did: string, holderPid: string, bearer: Option<string>, ids: seq<string>,
                     newHolderId: string, pid: string, now: nat)
    requires Inv(h) && pid !in h.minted
    ensures Inv(RequestStep(h, did, holderPid, bearer, ids, newHolderId, pid, now))
  {
    var requested := RequestedIds(ids);
    var (t, reply) := AcceptRequest(h.t, h.mode, did, holderPid, bearer, requested, newHolderId, pid, now);
    if reply.Created? {
      AcceptedKeeps(h, did, holderPid, bearer, ids, newHolderId, pid, now);
    } else {
      RefusedKeeps(h, did, holderPid, bearer, ids, newHolderId, pid, now);
    }
  }

  lemma MoreMinted(h: Hub, h': Hub)
    requires Inv(h) && h' == h.(minted := h'.minted) && h.minted <= h'.minted
    ensures Kept(TheLinks, h')
  {
    assert Sat(TheLinks, h);
    assert forall i :: 0 <= i < |h.tasks| && TaskLinked(h, i) ==> TaskLinked(h', i);
    assert forall x :: x in h.t.requests.records && ProcessLinked(h, x) ==> ProcessLinked(h', x);
  }

  /** A minted id that nothing uses changes nothing. */
  lemma MintedKeeps(h: Hub, pid: string)
    requires Inv(h)
    ensures Inv(h.(minted := h.minted + {pid}))
  {
    var h' := h.(minted := h.minted + {pid});
    Untouched(h, h');
    TrackedStill(h, h');
    MoreMinted(h, h');
    Establish(h');
  }

  lemma RefusedKeeps(h: Hub, did: string, holderPid: string, bearer: Option<string>, ids: seq<string>,
                     newHolderId: string, pid: string, now: nat)
    requires Inv(h) && pid !in h.minted
    requires !AcceptRequest(h.t, h.mode, did, holderPid, bearer, RequestedIds(ids), newHolderId, pid, now).1.Created?
    ensures Inv(RequestStep(h, did, holderPid, bearer, ids, newHolderId, pid, now))
  {
    var t := AcceptRequest(h.t, h.mode, did, holderPid, bearer, RequestedIds(ids), newHolderId, pid, now).0;
    if t == h.t {
      MintedKeeps(h, pid);
      assert h.(t := t) == h;
    } else {
      var h1 := h.(t := t);
      assert AdmitHolder(h.t.holders, h.mode, did, newHolderId, now).Ok?;
      AdmitKeeps(h, did, newHolderId, now);
      MintedKeeps(h1, pid);
    }
  }

  /** The process an accepted request creates, and the hub right after its holder was admitted. */
  lemma AcceptedProcess(h: Hub, did: string, holderPid: string, bearer: Option<string>, ids: seq<string>,
                        newHolderId: string, pid: string, now: nat)
      returns (h1: Hub, p: Process)
    requires Inv(h) && pid !in h.minted
    requires AcceptRequest(h.t, h.mode, did, holderPid, bearer, RequestedIds(ids), newHolderId, pid, now).1.Created?
    ensures Inv(h1) && h1 == h.(t := h.t.(holders := h1.t.holders))
    ensures p.id == pid && JobOk(p) && !p.deliveryStarted && p.definitions == Distinct(ids)
    ensures HolderKnownFor(h1.t.holders, p) && NeedsMet(h1.t.catalog, p)
    ensures p.state.Submitted? || p.state.Approved?
    ensures p.state.Submitted? ==> !AtPendingCap(h1.t.requests, p.holderId)
    ensures Track(h1.t.requests, MAX_TRACKED_REQUESTS, pid, p).Ok?
    ensures AcceptRequest(h.t, h.mode, did, holderPid, bearer, RequestedIds(ids), newHolderId, pid, now).0
      == h1.t.(requests := Track(h1.t.requests, MAX_TRACKED_REQUESTS, pid, p).value)
  {
    var requested := RequestedIds(ids);
    RequestedFit(ids, requested);
    var (holders, holder) := AdmitHolder(h.t.holders, h.mode, did, newHolderId, now).value;
    h1 := h.(t := h.t.(holders := holders));
    p := NewProcess(pid, holder, did, holderPid, bearer, requested, now);
    AdmitKeeps(h, did, newHolderId, now);
    assert HolderKnownFor(holders, p) by {
      assert Sat(TheTables, h);
      AdmitHolderKeepsRegistry(h.t.holders, h.mode, did, newHolderId, now);
    }
    assert NeedsMet(h1.t.catalog, p) by {
      forall id | id in p.definitions
        ensures Names(h1.t.catalog, id)
      {
        assert Lookup(h.t.catalog, id).Some?;
      }
    }
  }

  lemma AcceptedKeeps(h: Hub, did: string, holderPid: string, bearer: Option<string>, ids: seq<string>,
                      newHolderId: string, pid: string, now: nat)
    requires Inv(h) && pid !in h.minted
    requires AcceptRequest(h.t, h.mode, did, holderPid, bearer, RequestedIds(ids), newHolderId, pid, now).1.Created?
    ensures Inv(RequestStep(h, did, holderPid, bearer, ids, newHolderId, pid, now))
  {
    var h1, p := AcceptedProcess(h, did, holderPid, bearer, ids, newHolderId, pid, now);
    TrackTables(h1, p);
    var log := Track(h1.t.requests, MAX_TRACKED_REQUESTS, pid, p).value;
    var h2 := h1.(t := h1.t.(requests := log), minted := h1.minted + {pid});
    assert Tracks(h1, h2, p);
    assert log.records[pid] == p;
    if p.state.Submitted? {
      TrackedSubmittedKeeps(h1, h2, p);
    } else {
      TrackedApprovedKeeps(h1, h2, p);
    }
  }

  lemma RedeemLogLinked(h: Hub, h': Hub, i: nat, p: Process)
    requires Inv(h) && Redeems(h, i) && h.tasks[i].stage.Numbered? && Tracks(h, h', p)
    requires p.state.Delivered? && p.definitions == [h.tasks[i].stage.def.id]
    requires h'.taskOf == h.taskOf[p.id := i] && OnlyTask(h, h', i)
    requires h'.tasks[i] == Redemption(Logged(h.tasks[i].stage.def, h.tasks[i].stage.did, h.tasks[i].stage.holderId,
                                              h.tasks[i].stage.index, p.id))
    ensures Kept(TheLinks, h')
  {
    TaskOfInRange(h);
    forall pid | pid in h.taskOf
      ensures h.taskOf[pid] != i && pid != p.id
    {
      assert Concerns(h.tasks[h.taskOf[pid]], pid);
    }
    TrackedOthers(h, h', p);
    assert TaskLinked(h', i);
    assert ProcessLinked(h', p.id);
    assert forall j :: 0 <= j < |h'.tasks| && j != i ==> h'.tasks[j] == h.tasks[j];
  }

  lemma RedeemLogIs(h: Hub, i: nat, p: Process, now: nat)
    requires Inv(h) && p.id !in h.minted && Redeems(h, i) && h.tasks[i].stage.Numbered?
    requires p == RedeemedProcess(p.id, h.tasks[i].stage.holderId, h.tasks[i].stage.did, h.tasks[i].stage.def.id, now)
    requires Track(h.t.requests, MAX_TRACKED_REQUESTS, p.id, p).Ok?
    ensures var h' := RedeemLogStep(h, i, p.id, now);
      && Tracks(h, h', p) && OnlyTask(h, h', i) && Quiet(h.tasks[i], h'.tasks[i]) && LocalOk(h'.tasks[i])
      && h'.taskOf == h.taskOf[p.id := i]
      && h'.tasks[i] == Redemption(Logged(h.tasks[i].stage.def, h.tasks[i].stage.did, h.tasks[i].stage.holderId,
                                          h.tasks[i].stage.index, p.id))
    ensures HolderKnownFor(h.t.holders, p) && JobOk(p)
  {
    TrackTables(h, p);
    assert Sat(TheLocals, h);
  }

  lemma RedeemLogKeeps(h: Hub, i: nat, pid: string, now: nat)
    requires Inv(h) && pid !in h.minted
    ensures Inv(RedeemLogStep(h, i, pid, now))
  {
    if Redeems(h, i) && h.tasks[i].stage.Numbered? {
      var Numbered(d, did, holderId, n) := h.tasks[i].stage;
      var p := RedeemedProcess(pid, holderId, did, d.id, now);
      match Track(h.t.requests, MAX_TRACKED_REQUESTS, pid, p)
      case Err(_) => StageKeeps(h, i, Refused(n));
      case Ok(log) =>
        var h' := RedeemLogStep(h, i, pid, now);
        RedeemLogIs(h, i, p, now);
        RedeemLogLinked(h, h', i, p);
        TrackedRest(h, h', p);
        TrackedCaps(h, h', p);
        OnlyTaskLocals(h, h', i);
        QuietRecords(h, h', i);
        QuietPartition(h, h', i);
        Establish(h');
    }
  }

  // ---- The operator decides ----

  /** The tables after a decision, before any delivery is queued. */
  ghost predicate Decides(h: Hub, h': Hub, holderId: string, approve: bool, now: nat) {
    && holderId in h.t.holders.holders
    && h'.t == h.t.(
         holders := SetHolderStatus(h.t.holders, holderId, if approve then HolderApproved else HolderRejected),
         requests := Decide(h.t.requests, holderId, if approve then Approved else Rejected, now))
    && h'.births == h.births && h'.minted == h.minted && h'.mode == h.mode
  }

  lemma DecideTables(h: Hub, h': Hub, holderId: string, approve: bool, now: nat)
    requires Inv(h) && Decides(h, h', holderId, approve, now)
    ensures Kept(TheTables, h')
  {
    assert Sat(TheTables, h);
    SetStatusKeepsRegistry(h.t.holders, holderId, if approve then HolderApproved else HolderRejected);
    DecideKeepsLog(h.t.requests, holderId, if approve then Approved else Rejected, now);
    assert h'.t.requests.records.Keys == h.t.requests.records.Keys;
  }

  lemma DecideCaps(h: Hub, h': Hub, holderId: string, approve: bool, now: nat)
    requires Inv(h) && Decides(h, h', holderId, approve, now)
    ensures Kept(TheCaps, h')
  {
    assert Sat(TheCaps, h);
    var before, after := h.t.requests.records, h'.t.requests.records;
    assert PendingIds(after) <= PendingIds(before);
    SubsetCardinality(PendingIds(after), PendingIds(before));
    forall other
      ensures |PendingIdsOf(after, other)| <= MAX_PENDING_PROCESSES_PER_HOLDER
    {
      assert PendingIdsOf(after, other) <= PendingIdsOf(before, other);
      SubsetCardinality(PendingIdsOf(after, other), PendingIdsOf(before, other));
    }
  }

  lemma DecideHolders(h: Hub, h': Hub, holderId: string, approve: bool, now: nat)
    requires Inv(h) && Decides(h, h', holderId, approve, now)
    ensures Kept(TheHolders, h')
  {
    assert Sat(TheHolders, h);
    forall pid | pid in h'.t.requests.records
      ensures HolderKnownFor(h'.t.holders, h'.t.requests.records[pid])
    {
      assert HolderKnownFor(h.t.holders, h.t.requests.records[pid]);
    }
  }

  lemma DecideDefinitions(h: Hub, h': Hub, holderId: string, approve: bool, now: nat)
    requires Inv(h) && Decides(h, h', holderId, approve, now)
    ensures Kept(TheDefinitions, h') && Kept(TheBits, h')
  {
    assert Kept(TheDefinitions, h') by {
      assert Sat(TheDefinitions, h);
      forall pid | pid in h'.t.requests.records
        ensures JobOk(h'.t.requests.records[pid])
        ensures h'.t.requests.records[pid].state.IsActive() ==> NeedsMet(h'.t.catalog, h'.t.requests.records[pid])
      {
        assert JobOk(h.t.requests.records[pid]);
        assert h.t.requests.records[pid].state.IsActive() ==> NeedsMet(h.t.catalog, h.t.requests.records[pid]);
      }
    }
    assert Kept(TheBits, h') by {
      assert Sat(TheBits, h);
    }
  }

  lemma RejectLinked(h: Hub, h': Hub, holderId: string, now: nat)
    requires Inv(h) && Decides(h, h', holderId, false, now) && h'.tasks == h.tasks && h'.taskOf == h.taskOf
    ensures Kept(TheLinks, h')
  {
    assert Sat(TheLinks, h);
    forall i | 0 <= i < |h'.tasks|
      ensures TaskLinked(h', i)
    {
      assert TaskLinked(h, i);
      if h.tasks[i].Delivery? && h.tasks[i].pid in h.t.requests.records {
        assert ProcessLinked(h, h.tasks[i].pid);
      }
    }
    forall pid | pid in h'.t.requests.records
      ensures pid in h'.minted && ProcessLinked(h', pid)
    {
      assert ProcessLinked(h, pid);
    }
  }

  lemma RejectKeeps(h: Hub, holderId: string, now: nat)
    requires Inv(h) && holderId in h.t.holders.holders
    ensures Inv(DecideStep(h, holderId, false, [], now))
  {
    var h' := DecideStep(h, holderId, false, [], now);
    assert Decides(h, h', holderId, false, now);
    DecideTables(h, h', holderId, false, now);
    DecideCaps(h, h', holderId, false, now);
    DecideHolders(h, h', holderId, false, now);
    DecideDefinitions(h, h', holderId, false, now);
    RejectLinked(h, h', holderId, now);
    SpawnedTasks(h, h', []);
    Establish(h');
  }

  /** The new deliveries, and where the history finds them. */
  lemma SpawnFacts(h: Hub, moved: seq<string>)
    requires NoDup(moved)
    ensures var s := Spawn(h, moved);
      && |s.tasks| == |h.tasks| + |moved|
      && (forall i :: 0 <= i < |h.tasks| ==> s.tasks[i] == h.tasks[i])
      && (forall k :: 0 <= k < |moved| ==> s.tasks[|h.tasks| + k] == Delivery(moved[k], Queued))
      && (forall k :: 0 <= k < |moved| ==> moved[k] in s.taskOf && s.taskOf[moved[k]] == |h.tasks| + k)
      && (forall pid :: pid in h.taskOf && pid !in moved ==> pid in s.taskOf && s.taskOf[pid] == h.taskOf[pid])
      && (forall pid :: pid in s.taskOf <==> pid in h.taskOf || pid in moved)
  {
  }

  lemma ApproveTask(h: Hub, h': Hub, holderId: string, moved: seq<string>, now: nat, i: nat)
    requires Inv(h) && Decides(h, h', holderId, true, now)
    requires h'.tasks == Spawn(h, moved).tasks && h'.taskOf == Spawn(h, moved).taskOf
    requires NoDup(moved) && Elems(moved) == MovedIds(h.t.requests, holderId, Approved)
    requires i < |h'.tasks|
    ensures TaskLinked(h', i)
  {
    assert Sat(TheLinks, h);
    SpawnFacts(h, moved);
    if i < |h.tasks| {
      assert TaskLinked(h, i);
      var task := h.tasks[i];
      if task.Delivery? {
        MovedHasNoTask(h, holderId, moved, task.pid);
      } else if task.stage.Logged? || task.stage.Filed? {
        MovedHasNoTask(h, holderId, moved, task.stage.pid);
      }
    } else {
      assert h'.tasks[i] == Delivery(moved[i - |h.tasks|], Queued);
    }
  }

  lemma MovedHasNoTask(h: Hub, holderId: string, moved: seq<string>, pid: string)
    requires Inv(h) && Elems(moved) == MovedIds(h.t.requests, holderId, Approved) && pid in h.taskOf
    ensures pid !in moved
    ensures pid in h.t.requests.records ==> !Moves(h.t.requests.records[pid], holderId, Approved)
  {
    assert Sat(TheLinks, h);
    if pid in h.t.requests.records {
      assert ProcessLinked(h, pid);
    }
    assert pid !in Elems(moved);
  }

  lemma ApproveProcess(h: Hub, h': Hub, holderId: string, moved: seq<string>, now: nat, pid: string)
    requires Inv(h) && Decides(h, h', holderId, true, now)
    requires h'.tasks == Spawn(h, moved).tasks && h'.taskOf == Spawn(h, moved).taskOf
    requires NoDup(moved) && Elems(moved) == MovedIds(h.t.requests, holderId, Approved)
    requires pid in h'.t.requests.records
    ensures pid in h'.minted && ProcessLinked(h', pid)
  {
    assert Sat(TheLinks, h);
    SpawnFacts(h, moved);
    assert ProcessLinked(h, pid);
    assert pid in moved <==> pid in Elems(moved);
    if pid in moved {
      var k := Position(moved, pid);
      assert h'.tasks[|h.tasks| + k] == Delivery(pid, Queued);
    }
  }

  lemma ApproveLinked(h: Hub, h': Hub, holderId: string, moved: seq<string>, now: nat)
    requires Inv(h) && Decides(h, h', holderId, true, now)
    requires h'.tasks == Spawn(h, moved).tasks && h'.taskOf == Spawn(h, moved).taskOf
    requires NoDup(moved) && Elems(moved) == MovedIds(h.t.requests, holderId, Approved)
    ensures Kept(TheLinks, h')
  {
    forall i | 0 <= i < |h'.tasks|
      ensures TaskLinked(h', i)
    {
      ApproveTask(h, h', holderId, moved, now, i);
    }
    forall pid | pid in h'.t.requests.records
      ensures pid in h'.minted && ProcessLinked(h', pid)
    {
      ApproveProcess(h, h', holderId, moved, now, pid);
    }
    forall pid | pid in h'.taskOf
      ensures pid in h'.minted && h'.taskOf[pid] < |h'.tasks| && Concerns(h'.tasks[h'.taskOf[pid]], pid)
    {
      ApproveTaskOf(h, h', holderId, moved, now, pid);
    }
  }

  lemma ApproveTaskOf(h: Hub, h': Hub, holderId: string, moved: seq<string>, now: nat, pid: string)
    requires Inv(h) && Decides(h, h', holderId, true, now)
    requires h'.tasks == Spawn(h, moved).tasks && h'.taskOf == Spawn(h, moved).taskOf
    requires NoDup(moved) && Elems(moved) == MovedIds(h.t.requests, holderId, Approved)
    requires pid in h'.taskOf
    ensures pid in h'.minted && h'.taskOf[pid] < |h'.tasks| && Concerns(h'.tasks[h'.taskOf[pid]], pid)
  {
    assert Sat(TheLinks, h);
    SpawnFacts(h, moved);
    if pid in moved {
      assert pid in Elems(moved);
      var k := Position(moved, pid);
      assert h'.tasks[|h.tasks| + k] == Delivery(pid, Queued);
    }
  }

  lemma ApproveKeeps(h: Hub, holderId: string, moved: seq<string>, now: nat)
    requires Inv(h) && holderId in h.t.holders.holders
    requires NoDup(moved) && Elems(moved) == MovedIds(h.t.requests, holderId, Approved)
    ensures Inv(DecideStep(h, holderId, true, moved, now))
  {
    var h' := DecideStep(h, holderId, true, moved, now);
    assert Decides(h, h', holderId, true, now);
    DecideTables(h, h', holderId, true, now);
    DecideCaps(h, h', holderId, true, now);
    DecideHolders(h, h', holderId, true, now);
    DecideDefinitions(h, h', holderId, true, now);
    ApproveLinked(h, h', holderId, moved, now);
    SpawnedTasks(h, h', moved);
    Establish(h');
  }

  lemma DecideKeeps(h: Hub, holderId: string, approve: bool, moved: seq<string>, now: nat)
    requires Inv(h) && NoDup(moved)
    requires Elems(moved) == MovedIds(h.t.requests, holderId, if approve then Approved else Rejected)
    ensures Inv(DecideStep(h, holderId, approve, moved, now))
  {
    if holderId in h.t.holders.holders {
      if approve {
        ApproveKeeps(h, holderId, moved, now);
      } else {
        RejectKeeps(h, holderId, now);
      }
    }
  }

  // ---- Every step, every run ----

  lemma StepKeeps(h: Hub, e: Event)
    requires Inv(h) && Enabled(h, e)
    ensures Inv(Step(h, e))
  {
    match e
    case Request(did, holderPid, bearer, ids, newHolderId, pid, now) =>
      RequestKeeps(h, did, holderPid, bearer, ids, newHolderId, pid, now);
    case DecideHolder(holderId, approve, moved, now) => DecideKeeps(h, holderId, approve, moved, now);
    case RegisterHolder(holder) => RegisterKeeps(h, holder);
    case CreateDef(d) => CreateDefKeeps(h, d);
    case UpdateDef(d) => UpdateDefKeeps(h, d);
    case DeleteDef(id) => DeleteDefKeeps(h, id);
    case ClaimTask(i) => ClaimKeeps(h, i);
    case Gather(i) => GatherKeeps(h, i);
    case Abort(i, reason) => AbortKeeps(h, i, reason);
    case Sign(i, credentialId, now) => SignKeeps(h, i, credentialId, now);
    case Post(i, accepted, reason) => PostKeeps(h, i, accepted, reason);
    case ReleaseIndexes(i) => ReleaseKeeps(h, i);
    case FileSigned(i) => FileKeeps(h, i);
    case Finish(i, now) => FinishKeeps(h, i, now);
    case Redeem(definitionId, did) => RedeemKeeps(h, definitionId, did);
    case RedeemHolder(i, newHolderId, now) => RedeemHolderKeeps(h, i, newHolderId, now);
    case RedeemIndex(i) => RedeemIndexKeeps(h, i);
    case RedeemLog(i, pid, now) => RedeemLogKeeps(h, i, pid, now);
    case RedeemRelease(i) => RedeemReleaseKeeps(h, i);
    case RedeemFile(i, credentialId, now) => RedeemFileKeeps(h, i, credentialId, now);
    case RevokeCredential(id) => RevokeKeeps(h, id);
    case ServeStatusList(now) => ServeKeeps(h, now);
  }

  lemma StartHolds(mode: HolderApproval, now: nat)
    ensures Inv(Start(mode, now))
  {
    var h := Start(mode, now);
    StartTables(mode, now);
    StartTasks(mode, now);
    Establish(h);
  }

  lemma StartTables(mode: HolderApproval, now: nat)
    ensures var h := Start(mode, now);
      && Kept(TheTables, h) && Kept(TheCaps, h) && Kept(TheHolders, h) && Kept(TheDefinitions, h) && Kept(TheBits, h)
  {
    var h := Start(mode, now);
    assert PendingIds(h.t.requests.records) == {};
    assert forall holderId :: PendingIdsOf(h.t.requests.records, holderId) == {};
    assert forall n: nat :: !RevokedIndex(h.t.issued.records, n);
  }

  lemma StartTasks(mode: HolderApproval, now: nat)
    ensures var h := Start(mode, now);
      Kept(TheLinks, h) && Kept(TheLocals, h) && Kept(TheRecords, h) && Kept(ThePartition, h)
  {
  }

  /** The invariant holds in every state of every run. */
  lemma {:induction false} RunKeeps(h: Hub, es: seq<Event>)
    requires Inv(h) && ValidRun(h, es)
    ensures Inv(Run(h, es))
    decreases |es|
  {
    if es != [] {
      StepKeeps(h, es[0]);
      RunKeeps(Step(h, es[0]), es[1..]);
    }
  }
}
