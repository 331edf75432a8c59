/**
 Revocation and the public status list, traced back to their causes: what was revoked by whom, which bits the
 list shows, and of when the signed list is that a verifier is given.
 */
module RevocationHistory {
  import opened Prelude
  import opened IssuerTables
  import opened Protocol
  import opened IssuanceInvariant
  import opened IssuanceSteps
  import opened IssuanceTheorems
  import opened IssuanceHistory

  // ---- Records over one step ----

  /** No record leaves or changes but by being revoked, and a record that enters is active. */
  ghost predicate RecordsFollow(before: map<string, Record>, e: Event, after: map<string, Record>) {
    && (forall id :: id in before ==>
         && id in after
         && after[id] == if e == RevokeCredential(id) then before[id].(status := Revoked) else before[id])
    && (forall id :: id in after && id !in before ==> after[id].status.Active?)
  }

  lemma StepRecords(h: Hub, e: Event)
    requires Inv(h) && Enabled(h, e)
    ensures RecordsFollow(h.t.issued.records, e, Step(h, e).t.issued.records)
  {
    match e
    case Request(did, holderPid, bearer, ids, newHolderId, pid, now) =>
      RequestLeavesIssued(h, did, holderPid, bearer, ids, newHolderId, pid, now);
    case FileSigned(i) => DeliveryFiles(h, i);
    case RedeemFile(i, credentialId, now) => RedemptionFiles(h, i, credentialId, now);
    case RevokeCredential(_) =>
    case _ => RecordsUntouched(h, e);
  }

  lemma DeliveryFiles(h: Hub, i: nat)
    requires Inv(h)
    ensures RecordsFollow(h.t.issued.records, FileSigned(i), FileStep(h, i).t.issued.records)
  {
    if Delivers(h, i) && h.tasks[i].phase.Posted? {
      FileStepFiles(h, i);
      assert LocalOk(h.tasks[i]);
    }
  }

  lemma RedemptionFiles(h: Hub, i: nat, credentialId: string, now: nat)
    requires Inv(h) && credentialId !in h.births
    ensures RecordsFollow(h.t.issued.records, RedeemFile(i, credentialId, now),
                          RedeemFileStep(h, i, credentialId, now).t.issued.records)
  {
    if Redeems(h, i) && h.tasks[i].stage.Logged? {
      RedeemFileFiles(h, i, credentialId, now);
    }
  }

  lemma RecordsUntouched(h: Hub, e: Event)
    requires Inv(h) && !e.Request? && !e.FileSigned? && !e.RedeemFile? && !e.RevokeCredential?
    ensures Step(h, e).t.issued.records == h.t.issued.records
  {
    if e.Sign? || e.RedeemIndex? {
      AllocatingLeavesRecords(h, e);
    } else if e.ReleaseIndexes? {
      if Delivers(h, e.i) && h.tasks[e.i].phase.Failing? {
        ReleaseEffect(h, e.i);
      }
    } else if !e.RedeemRelease? && !e.ServeStatusList? {
      IssuedUntouched(h, e);
    }
  }

  lemma AllocatingLeavesRecords(h: Hub, e: Event)
    requires e.Sign? || e.RedeemIndex?
    ensures Step(h, e).t.issued.records == h.t.issued.records
  {
  }

  // ---- Revocation over a run ----

  lemma NothingAtStart(r: Trace)
    requires IsRun(r)
    ensures At(r, 0).t.issued.records == map[] && At(r, 0).t.issued.list.cached.None?
  {
  }

  /** The credential was on record when a request to revoke it came, among the first `n` events. */
  ghost predicate RevokedBefore(r: Trace, n: nat, id: string)
    requires n <= |r.events|
  {
    exists k :: 0 <= k < n && r.events[k] == RevokeCredential(id) && id in At(r, k).t.issued.records
  }

  lemma RecordsAt(r: Trace, k: nat)
    requires IsRun(r) && k < |r.events|
    ensures RecordsFollow(At(r, k).t.issued.records, r.events[k], At(r, k + 1).t.issued.records)
  {
    AtIsReachable(r, k);
    assert StepAt(r, k);
    StepRecords(At(r, k), r.events[k]);
  }

  /** A credential is revoked exactly when it was asked to be once it was on record. */
  lemma {:induction false} RevokedByRequest(r: Trace, n: nat, id: string)
    requires IsRun(r) && n <= |r.events|
    ensures id in At(r, n).t.issued.records ==>
      (At(r, n).t.issued.records[id].status.Revoked? <==> RevokedBefore(r, n, id))
    ensures RevokedBefore(r, n, id) ==> id in At(r, n).t.issued.records
    decreases n
  {
    if n > 0 {
      RevokedByRequest(r, n - 1, id);
      RecordsAt(r, n - 1);
      RevokedByNow(r, n, id);
    } else {
      NothingAtStart(r);
    }
  }

  lemma RevokedByNow(r: Trace, n: nat, id: string)
    requires 0 < n <= |r.events|
    ensures RevokedBefore(r, n, id) <==>
      || RevokedBefore(r, n - 1, id)
      || (r.events[n - 1] == RevokeCredential(id) && id in At(r, n - 1).t.issued.records)
  {
    if RevokedBefore(r, n - 1, id) {
      var k :| 0 <= k < n - 1 && r.events[k] == RevokeCredential(id) && id in At(r, k).t.issued.records;
      assert 0 <= k < n && r.events[k] == RevokeCredential(id);
    }
  }

  /** And so a bit of the status list is set exactly when the credential of that index was. */
  lemma BitsByRequest(r: Trace, n: nat, i: nat)
    requires IsRun(r) && n <= |r.events|
    ensures var issued := At(r, n).t.issued;
      i in issued.list.revoked <==>
        exists id :: id in issued.records && issued.records[id].index == i && RevokedBefore(r, n, id)
  {
    var h := At(r, n);
    AtIsReachable(r, n);
    StatusListIsTrue(h, i, 0);
    forall id
      ensures id in h.t.issued.records ==> (h.t.issued.records[id].status.Revoked? <==> RevokedBefore(r, n, id))
    {
      RevokedByRequest(r, n, id);
    }
  }

  // ---- The signed list ----

  /** What a step does to the cached list: a changed bit drops it, serving fills it, and nothing else touches it. */
  ghost predicate CacheFollows(before: StatusBits, e: Event, after: StatusBits) {
    if after.revoked != before.revoked then after.cached.None?
    else if e.ServeStatusList? && before.cached.None? then after.cached == Some(StatusJwt(before.revoked, e.now))
    else after.cached == before.cached
  }

  lemma StepCache(h: Hub, e: Event)
    requires Inv(h) && Enabled(h, e)
    ensures CacheFollows(h.t.issued.list, e, Step(h, e).t.issued.list)
  {
    if e.Request? {
      RequestLeavesIssued(h, e.did, e.holderPid, e.bearer, e.ids, e.newHolderId, e.pid, e.now);
    } else if e.Sign? || e.RedeemIndex? {
      AllocatingLeavesCache(h, e);
    } else if e.FileSigned? || e.RedeemFile? {
      FilingLeavesList(h, e);
    } else if e.ReleaseIndexes? {
      if Delivers(h, e.i) && h.tasks[e.i].phase.Failing? {
        ReleaseEffect(h, e.i);
      }
    } else if !e.RedeemRelease? && !e.ServeStatusList? && !e.RevokeCredential? {
      IssuedUntouched(h, e);
    }
  }

  lemma AllocatingLeavesCache(h: Hub, e: Event)
    requires e.Sign? || e.RedeemIndex?
    ensures var list, list' := h.t.issued.list, Step(h, e).t.issued.list;
      list'.revoked == list.revoked && list'.cached == list.cached
  {
  }

  lemma FilingLeavesList(h: Hub, e: Event)
    requires Inv(h) && (e.FileSigned? || e.RedeemFile?)
    ensures Step(h, e).t.issued.list == h.t.issued.list
  {
    if e.FileSigned? && Delivers(h, e.i) && h.tasks[e.i].phase.Posted? {
      FileStepFiles(h, e.i);
    }
  }

  lemma CacheAt(r: Trace, k: nat)
    requires IsRun(r) && k < |r.events|
    ensures CacheFollows(At(r, k).t.issued.list, r.events[k], At(r, k + 1).t.issued.list)
  {
    AtIsReachable(r, k);
    assert StepAt(r, k);
    StepCache(At(r, k), r.events[k]);
  }

  /** The list was signed at event `k`, and shows the bits of then, which no event has changed since. */
  ghost predicate SignedSince(r: Trace, n: nat, k: nat, jwt: StatusJwt)
    requires k < n <= |r.events|
  {
    && r.events[k] == ServeStatusList(jwt.iat)
    && At(r, k).t.issued.list.cached.None?
    && forall j: nat :: k <= j <= n ==> At(r, j).t.issued.list.revoked == jwt.bits
  }

  /** The cached list was signed when it was first asked for after the last change, and is still true. */
  lemma {:induction false} CachedIsCurrent(r: Trace, n: nat) returns (k: nat)
    requires IsRun(r) && n <= |r.events| && At(r, n).t.issued.list.cached.Some?
    ensures k < n && SignedSince(r, n, k, At(r, n).t.issued.list.cached.value)
    decreases n
  {
    NothingAtStart(r);
    CacheAt(r, n - 1);
    if At(r, n - 1).t.issued.list.cached.Some? {
      k := CachedIsCurrent(r, n - 1);
    } else {
      k := n - 1;
    }
  }

  /** What a verifier is given at a status list request: the bits of this moment, signed now or when last changed. */
  lemma ServedIsCurrent(r: Trace, n: nat, now: nat) returns (jwt: StatusJwt)
    requires IsRun(r) && n <= |r.events|
    ensures jwt == ServeList(At(r, n).t.issued.list, now).1
    ensures jwt == StatusJwt(At(r, n).t.issued.list.revoked, now) || exists k: nat :: k < n && SignedSince(r, n, k, jwt)
  {
    jwt := ServeList(At(r, n).t.issued.list, now).1;
    if At(r, n).t.issued.list.cached.Some? {
      var k := CachedIsCurrent(r, n);
      assert SignedSince(r, n, k, jwt);
    }
  }
}
