/**
 The tables in place, and the critical sections that update them. Each method computes, on mutable
 fields and with loops, the value that `IssuerTables` gives for the same critical section; the
 protocol's steps are made of those values.
 */
module IssuerService {
  import opened Prelude
  import opened HolderKeys
  import opened IssuerTables
  import opened StatusListState
  import Protocol

  class RequestTable {
    var records: map<string, Process>
    var order: seq<string>
    const capacity: nat

    ghost predicate Valid()
      reads this
    {
      LogOk(Log()) && |records| <= capacity
    }

    ghost function Log(): RequestLog
      reads this
    {
      RequestLog(records, order)
    }

    constructor (capacity: nat)
      ensures Valid() && Log() == RequestLog(map[], []) && this.capacity == capacity
    {
      this.capacity := capacity;
      records := map[];
      order := [];
    }

    /** The position of the oldest record that may go. */
    method FindEvictable() returns (k: Option<nat>)
      ensures k == OldestEvictable(Log(), 0)
    {
      var i := 0;
      while i < |order|
        invariant 0 <= i <= |order|
        invariant OldestEvictable(Log(), 0) == OldestEvictable(Log(), i)
      {
        if order[i] !in records || records[order[i]].state.IsTerminal() {
          return Some(i);
        }
        i := i + 1;
      }
      return None;
    }

    method Insert(id: string, p: Process) returns (r: Result<(), TableFull>)
      requires Valid() && id !in records && p.id == id
      modifies this`records, this`order
      ensures Valid()
      ensures r.Ok? <==> Track(old(Log()), capacity, id, p).Ok?
      ensures Log() == if r.Ok? then Track(old(Log()), capacity, id, p).value else old(Log())
    {
      while |records| >= capacity
        invariant Valid() && id !in records
        invariant Track(Log(), capacity, id, p) == Track(old(Log()), capacity, id, p)
        invariant Log() == old(Log()) || |records| < capacity
        decreases |order|
      {
        var oldest := FindEvictable();
        match oldest
        case None => return Err(TableFull);
        case Some(k) =>
          EvictedOk(Log(), k);
          records := records - {order[k]};
          order := order[..k] + order[k + 1..];
      }
      AppendedOk(Log(), id, p);
      TrackBound(old(Log()), capacity, id, p);
      records := records[id := p];
      order := order + [id];
      return Ok(());
    }

    /** How many processes of this holder are SUBMITTED, and how many in all. */
    method PendingCounts(holderId: string) returns (mine: nat, all: nat)
      requires Valid()
      ensures mine == |PendingIdsOf(records, holderId)| && all == |PendingIds(records)|
    {
      mine, all := 0, 0;
      for i := 0 to |order|
        invariant all == |PendingAmong(records, order[..i])|
        invariant mine == |PendingAmongOf(records, order[..i], holderId)|
      {
        assert order[i] in order;
        PendingNext(records, order, i);
        PendingNextOf(records, order, i, holderId);
        var p := records[order[i]];
        if p.state.Submitted? {
          mine := mine + if p.holderId == holderId then 1 else 0;
          all := all + 1;
        }
      }
      assert order[..|order|] == order;
      assert PendingAmong(records, order) == PendingIds(records);
      assert PendingAmongOf(records, order, holderId) == PendingIdsOf(records, holderId);
    }

    /** Moves every process an operator decision reaches, in whatever order the map yields them. */
    method MoveAll(holderId: string, next: ProcessState, now: nat) returns (moved: seq<string>)
      requires Valid()
      modifies this`records
      ensures Valid()
      ensures Log() == Decide(old(Log()), holderId, next, now)
      ensures NoDup(moved) && Elems(moved) == MovedIds(old(Log()), holderId, next)
    {
      ghost var before := records;
      DecideStarts(records, holderId, next, now);
      DecideEnds(Log(), holderId, next, now);
      DecideKeepsLog(Log(), holderId, next, now);
      moved := [];
      var todo := records.Keys;
      while todo != {}
        invariant todo <= before.Keys
        invariant records == DecidedSoFar(before, todo, holderId, next, now)
        invariant NoDup(moved) && Elems(moved) == MovedSoFar(before, todo, holderId, next)
        decreases todo
      {
        var id :| id in todo;
        DecideNext(before, todo, id, holderId, next, now);
        todo := todo - {id};
        var p := records[id];
        if Moves(p, holderId, next) {
          records := records[id := p.(state := next, stateTimestamp := now)];
          AppendNew(moved, id);
          moved := moved + [id];
        }
      }
    }

    /** Whether an active process names the definition. */
    method NeedsDefinition(id: string) returns (r: bool)
      requires Valid()
      ensures r <==> InUse(Log(), id)
    {
      for i := 0 to |order|
        invariant forall k :: 0 <= k < i ==>
          !(records[order[k]].state.IsActive() && id in records[order[k]].definitions)
      {
        assert order[i] in order;
        if records[order[i]].state.IsActive() && id in records[order[i]].definitions {
          return true;
        }
      }
      forall pid | pid in records
        ensures !(records[pid].state.IsActive() && id in records[pid].definitions)
      {
        var k := Position(order, pid);
      }
      return false;
    }
  }

  lemma TrackBound(log: RequestLog, capacity: nat, id: string, p: Process)
    requires LogOk(log) && |log.records| <= capacity && id !in log.records && p.id == id
    ensures Track(log, capacity, id, p).Ok? ==> |Track(log, capacity, id, p).value.records| <= capacity
  {
    TrackRefinesSequence(log, capacity, id, p);
  }

  class HolderRegistry {
    var holders: map<string, Holder>
    var byDid: map<string, string>
    var order: seq<string>

    ghost predicate Valid()
      reads this
    {
      RegistryOk(View())
    }

    ghost function View(): Registry
      reads this
    {
      Registry(holders, byDid, order)
    }

    constructor ()
      ensures Valid() && View() == Registry(map[], map[], [])
    {
      holders := map[];
      byDid := map[];
      order := [];
    }

    method Find(did: string) returns (r: Option<Holder>)
      requires Valid()
      ensures r == ByDid(View(), did)
      ensures r.Some? <==> exists id :: id in holders && SameSpelling(holders[id].did, did)
    {
      OneHolderPerSpelling(View(), did, did);
      var key := HolderKey(did);
      if key in byDid && byDid[key] in holders {
        return Some(holders[byDid[key]]);
      }
      return None;
    }

    method Insert(h: Holder) returns (r: Result<Holder, IssuerError>)
      requires Valid()
      modifies this
      ensures Valid()
      ensures r.Ok? <==> AddHolder(old(View()), h).Ok?
      ensures r.Ok? ==> r.value == h && View() == AddHolder(old(View()), h).value
      ensures r.Err? ==> AddHolder(old(View()), h) == Err(r.error) && View() == old(View())
    {
      if h.holderId in holders {
        return Err(Conflict);
      }
      var existing := Find(h.did);
      if existing.Some? {
        return Err(Conflict);
      }
      if |holders| >= MAX_HOLDERS {
        return Err(Full);
      }
      AddHolderKeepsRegistry(View(), h);
      byDid := byDid[HolderKey(h.did) := h.holderId];
      order := order + [h.holderId];
      holders := holders[h.holderId := h];
      return Ok(h);
    }

    method SetStatus(id: string, status: HolderStatus) returns (known: bool)
      requires Valid()
      modifies this`holders
      ensures Valid() && (known <==> id in old(holders))
      ensures View() == if known then SetHolderStatus(old(View()), id, status) else old(View())
    {
      known := id in holders;
      if known {
        SetStatusKeepsRegistry(View(), id, status);
        holders := holders[id := holders[id].(status := status)];
      }
    }

    /** Finds the holder or registers it, as both issuance protocols do. */
    method Admit(mode: HolderApproval, did: string, newId: string, now: nat) returns (r: Result<Holder, IssuerError>)
      requires Valid()
      modifies this
      ensures Valid()
      ensures r.Ok? <==> AdmitHolder(old(View()), mode, did, newId, now).Ok?
      ensures r.Ok? ==> (View(), r.value) == AdmitHolder(old(View()), mode, did, newId, now).value
      ensures r.Err? ==> View() == old(View())
    {
      var found := Find(did);
      match found
      case Some(h) => return Ok(h);
      case None =>
        r := Insert(Holder(newId, did, if mode.Auto? then HolderApproved else HolderPending, now));
    }
  }

  class DefinitionCatalog {
    var definitions: seq<Definition>

    constructor (seed: Definition)
      ensures definitions == [seed]
    {
      definitions := [seed];
    }

    method Get(id: string) returns (r: Option<Definition>)
      ensures r == Lookup(definitions, id)
    {
      var i := 0;
      while i < |definitions|
        invariant 0 <= i <= |definitions|
        invariant Lookup(definitions, id) == Lookup(definitions[i..], id)
      {
        assert definitions[i..][1..] == definitions[i + 1..];
        if definitions[i].id == id {
          return Some(definitions[i]);
        }
        i := i + 1;
      }
      return None;
    }

    method Create(d: Definition) returns (r: Result<(), IssuerError>)
      modifies this
      ensures r.Ok? <==> CreateDefinition(old(definitions), d).Ok?
      ensures definitions == if r.Ok? then CreateDefinition(old(definitions), d).value else old(definitions)
    {
      var existing := Get(d.id);
      if existing.Some? {
        return Err(Conflict);
      }
      if |definitions| >= MAX_CREDENTIAL_DEFINITIONS {
        return Err(Full);
      }
      definitions := definitions + [d];
      return Ok(());
    }

    method Remove(id: string)
      modifies this
      ensures definitions == WithoutDefinition(old(definitions), id)
    {
      var kept: seq<Definition> := [];
      var i := 0;
      while i < |definitions|
        invariant 0 <= i <= |definitions|
        invariant definitions == old(definitions)
        invariant kept + WithoutDefinition(definitions[i..], id) == WithoutDefinition(definitions, id)
      {
        assert definitions[i..][1..] == definitions[i + 1..];
        if definitions[i].id != id {
          assert WithoutDefinition(definitions[i..], id)
            == [definitions[i]] + WithoutDefinition(definitions[i + 1..], id);
          assert kept + ([definitions[i]] + WithoutDefinition(definitions[i + 1..], id))
            == (kept + [definitions[i]]) + WithoutDefinition(definitions[i + 1..], id);
          kept := kept + [definitions[i]];
        }
        i := i + 1;
      }
      definitions := kept;
    }
  }

  class IssuedCredentials {
    var records: map<string, Record>
    var order: seq<string>
    const list: StatusList

    ghost predicate Valid()
      reads this, list, list.bits
    {
      list.Valid() && forall id :: id in records ==> records[id].index < STATUS_LIST_BITS
    }

    ghost function View(): Issued
      reads this, list, list.bits
    {
      Issued(records, order, list.View())
    }

    constructor ()
      ensures Valid() && fresh(list) && fresh(list.bits)
      ensures View() == Issued(map[], [], StatusBits(0, {}, {}, None))
    {
      records := map[];
      order := [];
      list := new StatusList();
    }

    method Insert(r: Record)
      requires Valid() && r.index < STATUS_LIST_BITS
      modifies this
      ensures Valid() && View() == FileRecord(old(View()), r)
    {
      order := order + [r.id];
      records := records[r.id := r];
    }

    method InsertAll(rs: seq<Record>)
      requires Valid() && forall k :: 0 <= k < |rs| ==> rs[k].index < STATUS_LIST_BITS
      modifies this
      ensures Valid() && View() == FileRecords(old(View()), rs)
    {
      var i := 0;
      while i < |rs|
        invariant 0 <= i <= |rs|
        invariant Valid() && FileRecords(View(), rs[i..]) == FileRecords(old(View()), rs)
      {
        assert rs[i..][1..] == rs[i + 1..];
        Insert(rs[i]);
        i := i + 1;
      }
    }

    method ReleaseAllIndexes(indexes: seq<nat>)
      requires Valid()
      modifies list`free
      ensures Valid()
      ensures View() == old(View()).(list := ReleaseAll(old(View()).list, indexes))
    {
      var i := 0;
      while i < |indexes|
        invariant 0 <= i <= |indexes|
        invariant Valid() && records == old(records) && order == old(order)
        invariant ReleaseAll(list.View(), indexes[i..]) == ReleaseAll(old(list.View()), indexes)
      {
        assert indexes[i..][1..] == indexes[i + 1..];
        list.Release(indexes[i]);
        i := i + 1;
      }
    }

    /**
     The allocation loop of one delivery, run without interference: all indexes, or those taken before the list ran out.
     */
    method AllocateIndexes(count: nat) returns (taken: seq<nat>)
      requires Valid()
      modifies list`free, list`nextIndex
      ensures Valid() && |taken| <= count
      ensures |taken| < count ==> IssuerTables.Allocate(list.View()).1.None?
      ensures (list.View(), taken) == AllocateMany(old(list.View()), count)
    {
      taken := [];
      var left: nat := count;
      assert [] + AllocateMany(list.View(), count).1 == AllocateMany(list.View(), count).1;
      while left > 0
        invariant list.Valid() && left <= count && |taken| == count - left
        invariant AllocatedSoFar(old(list.View()), count, list.View(), taken, left)
      {
        ghost var mid := list.View();
        var index := list.Allocate();
        AllocateNext(old(list.View()), count, mid, taken, left);
        if index.None? {
          return;
        }
        taken := taken + [index.value];
        left := left - 1;
      }
      assert taken + [] == taken;
    }

    /** Marks the record and sets its bit. Revoking again changes nothing. */
    method RevokeRecord(id: string) returns (r: Option<Record>)
      requires Valid()
      modifies this, list`cachedJwt, list.bits
      ensures Valid() && View() == IssuerTables.Revoke(old(View()), id)
      ensures r.Some? <==> id in old(records)
      ensures r.Some? ==> r.value == old(records[id]).(status := Revoked)
      ensures IssuerTables.Revoke(View(), id) == View()
    {
      if id !in records {
        return None;
      }
      var record := records[id].(status := Revoked);
      records := records[id := record];
      list.Set(record.index);
      return Some(record);
    }
  }

  /** The four tables and the critical sections over them. */
  class Service {
    const mode: HolderApproval
    const catalog: DefinitionCatalog
    const holders: HolderRegistry
    const requests: RequestTable
    const issued: IssuedCredentials

    ghost predicate Valid()
      reads this, catalog, holders, requests, issued, issued.list, issued.list.bits
    {
      holders.Valid() && requests.Valid() && issued.Valid() && requests.capacity == MAX_TRACKED_REQUESTS
    }

    ghost function View(): Tables
      reads this, catalog, holders, requests, issued, issued.list, issued.list.bits
    {
      Tables(catalog.definitions, holders.View(), requests.Log(), issued.View())
    }

    constructor (mode: HolderApproval, now: nat)
      ensures Valid() && View() == Protocol.Start(mode, now).t && this.mode == mode
    {
      this.mode := mode;
      var seed := Definition("membership-credential", "MembershipCredential", "VC1_0_JWT", 3600, now);
      catalog := new DefinitionCatalog(seed);
      holders := new HolderRegistry();
      requests := new RequestTable(MAX_TRACKED_REQUESTS);
      issued := new IssuedCredentials();
    }

    /** Whether every requested id is in the catalog. */
    method AllKnown(ids: seq<string>) returns (r: bool)
      ensures r <==> forall id :: id in ids ==> Lookup(catalog.definitions, id).Some?
    {
      for i := 0 to |ids|
        invariant forall k :: 0 <= k < i ==> Lookup(catalog.definitions, ids[k]).Some?
      {
        var d := catalog.Get(ids[i]);
        if d.None? {
          return false;
        }
      }
      return true;
    }

    /** The Credential Request API, under the catalog, holder and request locks. */
    method CredentialRequest(did: string, holderPid: string, bearer: Option<string>, ids: seq<string>,
                             newHolderId: string, pid: string, now: nat)
        returns (reply: Reply, deliver: bool)
      requires Valid() && pid !in requests.records
      modifies holders, requests`records, requests`order
      ensures Valid()
      ensures (View(), reply)
        == AcceptRequest(old(View()), mode, did, holderPid, bearer, RequestedIds(ids), newHolderId, pid, now)
      ensures deliver <==> reply.Created? && pid in requests.records && requests.records[pid].state.Approved?
    {
      deliver := false;
      var requested := CollectRequestedIds(ids);
      if requested == [] || |requested| > MAX_REQUEST_CREDENTIALS {
        return BadRequest, false;
      }
      var known := AllKnown(requested);
      if !known {
        return BadRequest, false;
      }
      var admitted := holders.Admit(mode, did, newHolderId, now);
      if admitted.Err? {
        return Unavailable, false;
      }
      var holder := admitted.value;
      reply := AcceptHolder(holder, did, holderPid, bearer, requested, pid, now);
      deliver := reply.Created? && pid in requests.records && requests.records[pid].state.Approved?;
    }

    /** The rest of a Credential Request, still under the same locks. */
    method AcceptHolder(holder: Holder, did: string, holderPid: string, bearer: Option<string>,
                        requested: seq<string>, pid: string, now: nat)
        returns (reply: Reply)
      requires Valid() && pid !in requests.records
      modifies requests`records, requests`order
      ensures Valid()
      ensures (View(), reply) == AcceptFrom(old(View()), holder, did, holderPid, bearer, requested, pid, now)
    {
      if holder.status.HolderRejected? {
        return Forbidden;
      }
      if holder.status.HolderPending? {
        var mine, all := requests.PendingCounts(holder.holderId);
        if mine >= MAX_PENDING_PROCESSES_PER_HOLDER || all >= MAX_PENDING_PROCESSES {
          return Unavailable;
        }
      }
      var p := NewProcess(pid, holder, did, holderPid, bearer, requested, now);
      var inserted := requests.Insert(pid, p);
      return if inserted.Ok? then Created else Unavailable;
    }

    /** An operator decision: the holder's status and every process that waits on it, under two locks. */
    method DecideHolder(holderId: string, approve: bool, now: nat) returns (r: Result<seq<string>, IssuerError>)
      requires Valid()
      modifies holders, requests`records
      ensures Valid()
      ensures r.Err? <==> holderId !in old(holders.holders)
      ensures r.Err? ==> View() == old(View())
      ensures r.Ok? ==>
        && NoDup(r.value) && Elems(r.value) == MovedIds(old(requests.Log()), holderId, Verdict(approve))
        && View() == old(View()).(
             holders := SetHolderStatus(old(holders.View()), holderId, StatusAfter(approve)),
             requests := Decide(old(requests.Log()), holderId, Verdict(approve), now))
    {
      var known := holders.SetStatus(holderId, StatusAfter(approve));
      if !known {
        return Err(NotFound);
      }
      var moved := requests.MoveAll(holderId, Verdict(approve), now);
      return Ok(moved);
    }

    /** A delete waits until no active process names the definition. */
    method DeleteDefinition(id: string) returns (r: Result<(), IssuerError>)
      requires Valid()
      modifies catalog
      ensures Valid()
      ensures r.Ok? <==> Names(old(catalog.definitions), id) && !InUse(requests.Log(), id)
      ensures View() == old(View()).(catalog :=
        if r.Ok? then WithoutDefinition(old(catalog.definitions), id) else old(catalog.definitions))
    {
      var d := catalog.Get(id);
      if d.None? {
        return Err(NotFound);
      }
      var inUse := requests.NeedsDefinition(id);
      if inUse {
        return Err(Conflict);
      }
      catalog.Remove(id);
      return Ok(());
    }

    /** The first critical section of a delivery. */
    method ClaimProcess(pid: string) returns (job: Option<Process>)
      requires Valid()
      modifies requests`records
      ensures Valid()
      ensures match Claim(old(requests.Log()), pid)
        case None => job.None? && View() == old(View())
        case Some((log, p)) => job == Some(p) && View() == old(View()).(requests := log)
    {
      if pid in requests.records && requests.records[pid].state.Approved? {
        var p := requests.records[pid].(deliveryStarted := true);
        UpdateKeepsLog(requests.Log(), pid, p);
        requests.records := requests.records[pid := p];
        return Some(p);
      }
      return None;
    }

    /** The second: the definitions the job names, or the first that is missing. */
    method GatherDefinitions(ids: seq<string>) returns (r: Result<seq<Definition>, string>)
      ensures r.Ok? <==> Protocol.LookupAll(catalog.definitions, ids).Ok?
      ensures r.Ok? ==> r == Protocol.LookupAll(catalog.definitions, ids)
    {
      var ds: seq<Definition> := [];
      for i := 0 to |ids|
        invariant |ds| == i
        invariant forall k :: 0 <= k < i ==> Lookup(catalog.definitions, ids[k]) == Some(ds[k])
      {
        var d := catalog.Get(ids[i]);
        if d.None? {
          return Err("no longer exists: " + ids[i]);
        }
        ds := ds + [d.value];
      }
      GatheredIsLookup(catalog.definitions, ids, ds);
      return Ok(ds);
    }

    /** The last: DELIVERED or ERRORED. */
    method SettleProcess(pid: string, error: Option<string>, now: nat)
      requires Valid()
      modifies requests`records
      ensures Valid() && View() == old(View()).(requests := Settle(old(requests.Log()), pid, error, now))
    {
      if pid in requests.records {
        var p := requests.records[pid].(
          state := if error.None? then Delivered else Errored, stateTimestamp := now, errorDetail := error);
        UpdateKeepsLog(requests.Log(), pid, p);
        requests.records := requests.records[pid := p];
      }
    }
  }

  ghost function AllocateMany(list: StatusBits, count: nat): (StatusBits, seq<nat>)
    decreases count
  {
    if count == 0 then
      (list, [])
    else
      match IssuerTables.Allocate(list)
      case (list', None) => (list', [])
      case (list', Some(n)) =>
        var (last, more) := AllocateMany(list', count - 1);
        (last, [n] + more)
  }

  /** A run of allocations with `left` to go. */
  ghost predicate AllocatedSoFar(start: StatusBits, count: nat, list: StatusBits, taken: seq<nat>, left: nat) {
    var (last, more) := AllocateMany(list, left);
    AllocateMany(start, count) == (last, taken + more)
  }

  lemma AllocateNext(start: StatusBits, count: nat, list: StatusBits, taken: seq<nat>, left: nat)
    requires left > 0 && AllocatedSoFar(start, count, list, taken, left)
    ensures var (list', index) := IssuerTables.Allocate(list);
      if index.None? then list' == list && AllocateMany(start, count) == (list, taken)
      else AllocatedSoFar(start, count, list', taken + [index.value], left - 1)
  {
    var (list', index) := IssuerTables.Allocate(list);
    if index.None? {
      assert taken + [] == taken;
    } else {
      var more := AllocateMany(list', left - 1).1;
      assert taken + ([index.value] + more) == (taken + [index.value]) + more;
    }
  }

  /**
   Failing after any number of allocations and giving everything back leaves the list as it was, but for its high-water
   mark.
   */
  lemma {:induction false} ReleaseUndoesAllocate(list: StatusBits, count: nat)
    requires list.next <= STATUS_LIST_BITS && list.free !! list.revoked
    requires forall i :: i in list.free || i in list.revoked ==> i < list.next
    ensures var (after, taken) := AllocateMany(list, count);
      && NoDup(taken)
      && (forall k :: 0 <= k < |taken| ==>
           taken[k] < after.next && taken[k] !in after.revoked && taken[k] !in after.free)
      && list.next <= after.next <= STATUS_LIST_BITS && after.revoked == list.revoked && after.cached == list.cached
      && (forall i :: i in after.free || i in taken <==> i in list.free || list.next <= i < after.next)
    decreases count
  {
    if count > 0 {
      var (mid, index) := IssuerTables.Allocate(list);
      if index.Some? {
        var n := index.value;
        ReleaseUndoesAllocate(mid, count - 1);
        var (after, more) := AllocateMany(mid, count - 1);
        assert Elems([n] + more) == {n} + Elems(more);
        assert n !in more by {
          assert n !in mid.free && n < mid.next;
          assert n !in Elems(more);
        }
      }
    }
  }

  lemma {:induction false} GatheredIsLookup(catalog: seq<Definition>, ids: seq<string>, ds: seq<Definition>)
    requires |ds| == |ids| && forall k :: 0 <= k < |ids| ==> Lookup(catalog, ids[k]) == Some(ds[k])
    ensures Protocol.LookupAll(catalog, ids) == Ok(ds)
    decreases |ids|
  {
    if ids != [] {
      assert forall k :: 0 <= k < |ids[1..]| ==> ids[1..][k] == ids[k + 1] && ds[1..][k] == ds[k + 1];
      GatheredIsLookup(catalog, ids[1..], ds[1..]);
      assert [ds[0]] + ds[1..] == ds;
    }
  }
}
