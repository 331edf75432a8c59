# A verified model of the identity hub

The identity hub is an Issuer Service and a Credential Service for the Decentralized Claims Protocol
(DCP), with an OID4VCI 1.0 issuer and wallet beside it. This project models the parts of it where
correctness depends on more than one function, and proves what they promise.

- **Issuance** (`IssuerTables`, `Protocol`, `IssuanceInvariant`, `IssuanceSteps`, `IssuanceTheorems`).
  Credential Requests, operator decisions, definition deletes, asynchronous deliveries, OID4VCI
  issuances and revocations interleave over four tables, each behind its own lock. Each critical
  section is one step; what a task keeps between two of them is its phase; which task moves next,
  every network outcome and every clock reading are free. The invariant spans all four tables and the
  tasks, and is kept by every step of every run. What one step answers and changes is stated exactly
  (`IssuanceOutcomes`), and what a state shows is traced back to the events of the run that led to it:
  who let a holder in (`IssuanceHistory`), what a credential says and why a delivery ended as it did
  (`DeliveryHistory`), what was revoked and how old the public list is (`RevocationHistory`).
- **The tables in place** (`IssuerService`, `StatusList`, `HolderKeys`). The same critical sections as
  methods on mutable objects, with the loops of the source, each proved equal to the value the
  protocol's steps are made of: the request table, the holder registry with its DID canonicalisation,
  the catalog, and the status list as a byte array with most-significant-bit-first masks.
- **The credential graph** (`GraphModel`, `GraphQueries`, `GraphTrimming`, `CredentialGraph`). Batches
  and offers become quads on blank nodes with integer order literals; they are read back by a sorted
  join grouped in a loop and evicted by a cascading delete. The store agrees with the plain list it
  replaced, after every sequence of stores. A method that runs a query takes the engine's answer as a
  parameter: any sequence that satisfies the query's meaning over the set of quads.
- **The pre-authorized code flow** (`ExpiringTables`, `PreAuthorizedCode`, `PreAuthorizedProofs`,
  `PreAuthorizedExpiry`, `PreAuthorizedHistory`), as interleaved steps over four expiring tables with a log
  of what callers were told, each answer traced back to the requests behind it; and both protocols run together (`JoinedIssuance`), where a proven request becomes an issuance.
- **What a query may see** (`Scopes`, `Sts`, `Presentation`, `ReplayCache`): scopes, the token service
  and the verifier of its tokens, the presentation filter end to end from the store, replay protection.
- **What gets into the store** (`Wallet`): the Storage API and the redemption of an offer.
- **Trust and administration** (`RegistryTrust`, `AdminQuery`): the cached trust list with saturating
  u64 arithmetic; filter, stable sort and paging.

Five statements one might expect of the code are false. Each is shown to fail, with the exact condition
under which it holds:

- An expiring table's `order` is not bounded by its capacity: a table whose entries are taken out keeps
  every key it ever saw (`OrderIsUnbounded`). One insertion keeps it within the capacity exactly when the
  order has room or every place is taken (`OrderStaysWithinCapacity`), and a whole lifetime does exactly
  when that holds at every insertion (`OrderBoundedExactly`).
- Eviction is not always oldest-first: a key used twice evicts its own newer entry (`ReusedKeyIsEvicted`).
  It is oldest-first exactly when the key is nowhere in the order or is the newest live entry's own
  (`OldestFirstExactly`); every caller uses random keys, which are never in the order.
- The token handler reads the clock once to look a code up and again to remove it. It panics with the
  lock held, and so poisons it for good, exactly when the code expires in between
  (`PanicsWhenCodeExpiresBetween`, `PanicIsPossible`, `PoisonedForever`).
- The types a list of scopes names are documented as distinct, but only neighbouring repeats are
  dropped: they are distinct exactly when equal types stand together (`DistinctWhenGrouped`).
- The comparison behind sorting is not transitive across JSON kinds (`NotTransitiveAcrossKinds`); it is
  transitive exactly when no two differing values meet a third of another kind (`TransitiveUnlessMixed`).

The documentation and the code disagree in one more place:

- `crates/identity-hub-http/src/state.rs:226-228` says a process may be evicted while its delivery
  runs. The code never evicts an active process, so a running delivery always finds it
  (`RunningHasItsProcess`); the model follows the code.

Where a member is stated for a state `h` or `s` with `Inv`, every reachable state has it
(`RunKeeps`, `StartHolds`).

## Model

| member | source | states |
|---|---|---|
| `IssuanceTheorems.IndexesAreNotShared` | crates/identity-hub-http/src/handlers.rs:783-820 | In every reachable state of every interleaving, `[0, next_index)` is the disjoint union of the free list, the indexes running tasks hold and the indexes records own; two records never share an index, nor does a record and a task |
| `IssuanceTheorems.ExhaustedMeansInUse` | crates/identity-hub-http/src/issuer.rs:552-561 | Allocation is refused if and only if all 131072 indexes are in flight or recorded |
| `IssuanceTheorems.FailedDeliveryReturnsIndexes` | crates/identity-hub-http/src/handlers.rs:799-806 | After a failed delivery every index it had taken is back in the free list, and nothing else changed: the guard of `release` never refuses one |
| `IssuanceTheorems.RecordsAreBounded` | crates/identity-hub-http/src/issuer.rs:595-609 | There are never more records than bits, although records are never evicted |
| `IssuanceTheorems.StepLegal` | crates/identity-hub-http/src/issuer.rs:446-489 | A step moves a process only SUBMITTED to APPROVED or REJECTED, unclaimed APPROVED to REJECTED, claimed APPROVED to DELIVERED or ERRORED; it drops only terminal records and adds only new ids |
| `IssuanceTheorems.TerminalForever` | crates/identity-hub-http/src/issuer.rs:446-449 | Over every run a terminal process is never changed in any field, and an id that has been evicted never comes back |
| `IssuanceTheorems.RejectedIsNeverIssued` | crates/identity-hub-http/src/admin.rs:462-485 | However a run goes on after a rejection, re-approvals included, the process stays as it was and no record is ever filed for it |
| `IssuanceTheorems.RecordHasItsTask` | crates/identity-hub-http/src/handlers.rs:813-834 | Every record was filed by the one task of its process, and is what that task signed but for a later revocation (what that says, and since when, is `DeliveryHistory.RecordHistory`) |
| `IssuanceTheorems.ApprovedHasOneDelivery` | crates/identity-hub-http/src/handlers.rs:698-742 | Every APPROVED process has exactly one outstanding delivery, and that one is queued if and only if `delivery_started` is false |
| `IssuanceTheorems.RunningHasItsProcess` | crates/identity-hub-http/src/handlers.rs:743-769 | The process of a running delivery is in the table, APPROVED and started, so eviction never takes it and the final update never misses |
| `IssuanceTheorems.DeliveredIsIssuedInFull` | crates/identity-hub-http/src/handlers.rs:813-835 | A DELIVERED process has exactly one record for each of its definitions (an OID4VCI one, which logs the process first, once its record is filed) |
| `IssuanceTheorems.UnfinishedHasNoRecords` | crates/identity-hub-http/src/handlers.rs:813-835 | A process that is not DELIVERED has no record, except in the window between filing the records and the final update of a successful delivery |
| `IssuanceTheorems.ClaimedForApprovedHolder` | crates/identity-hub-http/src/handlers.rs:757-769 | A delivery that claims its process does so for a holder approved at that moment, found under the DID of the request, with every definition in the catalog |
| `IssuanceTheorems.StatusMatchesHolder` | crates/identity-hub-http/src/admin.rs:462-485 | In every reachable state a SUBMITTED process has a pending holder and an unclaimed APPROVED one an approved holder |
| `IssuanceTheorems.DefinitionsNeverVanish` | crates/identity-hub-http/src/handlers.rs:770-782 | The `no longer exists` error after a claim is unreachable |
| `IssuanceTheorems.DeleteWaitsForProcesses` | crates/identity-hub-http/src/admin.rs:326-347 | A delete is refused exactly while an active process names the definition, which is then in the catalog; an accepted delete removes that id and no other |
| `IssuanceTheorems.AcceptedListsDistinctIds` | crates/identity-hub-http/src/handlers.rs:585-623 | An accepted request is tracked with the message's distinct ids, at most 16, all in the catalog, for a registered holder |
| `IssuanceTheorems.RequestTableIsBounded` | crates/identity-hub-http/src/state.rs:151-181 | In every reachable state at most 2048 processes are tracked, at most 1024 SUBMITTED and at most 8 of those for one holder |
| `IssuanceTheorems.StatusListIsTrue` | crates/identity-hub-http/src/handlers.rs:1096-1130 | A bit is set if and only if some record owns the index and is revoked, and the JWT served, cached or new, encodes exactly the current bits |
| `IssuanceTheorems.RevokedForever` | crates/identity-hub-http/src/issuer.rs:570-576 | Over every run a set bit stays set |
| `IssuanceSteps.StepKeeps` | crates/identity-hub-http/src/handlers.rs:558-945 | Every critical section of every handler keeps the whole cross-table invariant |
| `IssuanceSteps.RunKeeps` | crates/identity-hub-http/src/handlers.rs:558-945 | So does every run |
| `IssuanceSteps.StartHolds` | crates/identity-hub-http/src/issuer.rs:189-206 | The seeded catalog and the empty tables satisfy it |
| `IssuanceHistory.ApprovedByOperator` | crates/identity-hub-http/src/handlers.rs:624-631 | In every run in Manual mode a holder that is APPROVED was approved or registered by an operator's event before: no request ever lets its own caller in |
| `IssuanceHistory.AutoNeverPends` | crates/identity-hub-http/src/handlers.rs:624-631 | In every run in Auto mode no holder is ever PENDING |
| `IssuanceHistory.AutoNeverWaits` | crates/identity-hub-http/src/handlers.rs:624-697 | Nor any process SUBMITTED: no request, of a first-time caller or another, waits for an operator |
| `IssuanceHistory.RejectedUntilApproved` | crates/identity-hub-http/src/admin.rs:456-486 | Once rejected, a holder stays rejected along any run until an operator approves it |
| `IssuanceHistory.CatalogIsDistinct` | crates/identity-hub-http/src/issuer.rs:216-253 | In every state of every run the catalog has at most 256 definitions, each id once |
| `IssuanceHistory.AtIsRun` | crates/identity-hub-http/src/handlers.rs:558-945 | The states a run passes through are those running its events leads to, all of them reachable |
| `DeliveryHistory.TasksMove` | crates/identity-hub-http/src/handlers.rs:743-945 | Every step leaves each task alone, adds a new one, or moves it exactly as its phase allows: which event, which outcome, what is signed under which index |
| `DeliveryHistory.RecordHistory` | crates/identity-hub-http/src/handlers.rs:867-897 | Every credential on record, in every state of every run: one event signed or filed it and its clock reading is `issuedAt`; type, format, definition id and `expiresAt == issuedAt + validity` are those of a definition the catalog had when its task read it; holder and DID are those of the process its delivery claimed, or the DID the OID4VCI client proved |
| `DeliveryHistory.ClaimedForLetIn` | crates/identity-hub-http/src/handlers.rs:757-769 | In Manual mode every delivery that has claimed a process claimed it for a holder an operator had approved or registered before |
| `DeliveryHistory.ApprovedForLetIn` | crates/identity-hub-http/src/handlers.rs:698-742 | In Manual mode every APPROVED process, its delivery queued or running, belongs to such a holder: no delivery is queued for a holder no operator admitted |
| `DeliveryHistory.DeliveredToLetIn` | crates/identity-hub-http/src/handlers.rs:813-834 | So in Manual mode every record is for such a holder, or for an OID4VCI client that proved its DID |
| `DeliveryHistory.WhyDelivered` | crates/identity-hub-http/src/handlers.rs:798-834 | A delivery that succeeds had signed a credential for every definition and the holder accepted the post |
| `DeliveryHistory.WhyFailed` | crates/identity-hub-http/src/handlers.rs:770-834 | A delivery that fails carries the reason of an earlier event: no endpoint, no index left, or the post was not accepted; never that a definition no longer exists |
| `DeliveryHistory.OutcomeHistory` | crates/identity-hub-http/src/handlers.rs:813-834 | So a DELIVERED process was taken in full by its holder (or is an OID4VCI one), and an ERRORED one has the reason of its failure as its detail |
| `RevocationHistory.RevokedByRequest` | crates/identity-hub-http/src/issuer.rs:619-627 | In every run a credential is revoked if and only if a revocation named it while it was on record |
| `RevocationHistory.BitsByRequest` | crates/identity-hub-http/src/issuer.rs:570-576 | A bit of the list is set if and only if the credential of that index was so revoked |
| `RevocationHistory.StepCache` | crates/identity-hub-http/src/handlers.rs:1096-1130 | A step that changes a bit drops the cached list, serving fills an empty cache with the current bits and its clock reading, and nothing else touches it |
| `RevocationHistory.CachedIsCurrent` | crates/identity-hub-http/src/handlers.rs:1096-1130 | A cached list was signed by the first request after the last change of a bit, and shows the bits of every moment since |
| `RevocationHistory.ServedIsCurrent` | crates/identity-hub-http/src/handlers.rs:1096-1130 | What a verifier is given shows the bits of this moment, signed now, or when they were first asked for after their last change |
| `IssuanceOutcomes.AdmissionOutcome` | crates/identity-hub-http/src/handlers.rs:624-648 | A caller whose DID is known keeps its holder; an unknown one becomes a holder of that DID, PENDING in Manual mode and APPROVED in Auto, refused exactly when the id is taken or 4096 are registered; no one else changes |
| `IssuanceOutcomes.RegistrationOutcome` | crates/identity-hub-http/src/admin.rs:366-400 | An operator's registration makes an APPROVED holder, or changes nothing when the id or an equivalent DID is taken or 4096 are registered |
| `IssuanceOutcomes.DecisionOutcome` | crates/identity-hub-http/src/admin.rs:456-466 | A decision changes the one holder it names, to APPROVED or REJECTED |
| `IssuanceOutcomes.DecisionReaches` | crates/identity-hub-http/src/admin.rs:467-486 | It moves the SUBMITTED processes of that holder, and on a rejection the unclaimed APPROVED ones, to its verdict and time, and no others; an approval queues one delivery for each |
| `IssuanceOutcomes.RequestOutcome` | crates/identity-hub-http/src/handlers.rs:578-697 | When each reply is given, in terms of the tables: bad request, forbidden, unavailable (registry full, 8 or 1024 waiting, 2048 active), and accepted otherwise |
| `IssuanceOutcomes.AcceptedOutcome` | crates/identity-hub-http/src/handlers.rs:649-713 | Every field of the process an accepted request leaves, SUBMITTED if and only if its holder is pending, or new in Manual mode; only an APPROVED one queues a delivery |
| `IssuanceOutcomes.WaitingIsBounded` | crates/identity-hub-http/src/handlers.rs:650-672 | No set of waiting processes in any reachable state is larger than 1024, nor than 8 when all are of one holder |
| `IssuanceOutcomes.CreationOutcome` | crates/identity-hub-http/src/issuer.rs:216-231 | A definition is appended exactly when its id is new and there are fewer than 256 |
| `IssuanceOutcomes.RedeemHolderOutcome` | crates/identity-hub-http/src/oid4vci.rs:744-790 | An OID4VCI issuance is denied exactly for a rejected holder or want of a place, and goes on under the holder its DID belongs to |
| `IssuanceOutcomes.RedeemLogOutcome` | crates/identity-hub-http/src/oid4vci.rs:790-830 | Every field of the process it is logged as; refused exactly when all 2048 are active |
| `IssuanceOutcomes.FinishOutcome` | crates/identity-hub-http/src/handlers.rs:821-834 | The final update: DELIVERED without an error, ERRORED with the one met, at this time, and no other process |
| `IssuanceOutcomes.ChangesAreStamped` | crates/identity-hub-http/src/issuer.rs:462-489 | A process that changes state bears the clock reading of the step; one that does not keeps its time and its detail; the creation time never changes |
| `IssuanceOutcomes.LowestIsAllocated` | crates/identity-hub-http/src/issuer.rs:552-561 | In every reachable state the index allocated is the lowest that no task holds and no record owns |
| `IssuanceOutcomes.OrdersGrow` | crates/identity-hub-http/src/issuer.rs:610-618 | Holders and credentials are listed in the order they came: a step only adds at the end |
| `IssuerTables.Lookup` | crates/identity-hub-http/src/issuer.rs:212-214 | Finds a definition if and only if the catalog has one with that id |
| `IssuerTables.UpdateDefinition` | crates/identity-hub-http/src/issuer.rs:233-247 | Exactly the first definition with that id is replaced, its creation time kept; every other stays as it is and where it is |
| `IssuerTables.WithoutKeepsOthers` | crates/identity-hub-http/src/issuer.rs:249-253 | Removing an id removes it and keeps every other |
| `IssuerTables.AddHolderKeepsRegistry` | crates/identity-hub-http/src/issuer.rs:394-418 | An insertion keeps the two maps and the order in agreement, one holder per key |
| `IssuerTables.AdmitHolderKeepsRegistry` | crates/identity-hub-http/src/handlers.rs:624-648 | Looking up or registering a caller keeps the registry and every holder in it, and yields a holder whose key is the caller's |
| `IssuerTables.SetStatusKeepsRegistry` | crates/identity-hub-http/src/admin.rs:462-466 | A decision keeps the registry consistent |
| `IssuerTables.OneHolderPerSpelling` | crates/identity-hub-http/src/issuer.rs:382-386 | Two DIDs find the same record if and only if they are spellings of one another; a record is found exactly when a registered DID is a spelling of the one asked for |
| `IssuerTables.OldestEvictable` | crates/identity-hub-http/src/state.rs:151-168 | The first evictable entry from a position on, or none if there is none |
| `IssuerTables.TrackRefinesSequence` | crates/identity-hub-http/src/state.rs:151-172 | On the arrival-ordered list: appends below capacity; at capacity drops exactly the oldest terminal row, then appends; refuses if and only if the table is full of active rows |
| `IssuerTables.TrackEffect` | crates/identity-hub-http/src/state.rs:151-172 | The records after an insertion are the old ones with the new one, less terminal ones only |
| `IssuerTables.ReleaseAllEffect` | crates/identity-hub-http/src/handlers.rs:799-806 | Releasing a list of handed-out, unrevoked indexes adds exactly those to the free list |
| `IssuerTables.FileRecordsEffect` | crates/identity-hub-http/src/handlers.rs:813-820 | Filing records with new ids adds exactly those and touches no other |
| `IssuerTables.Distinct` | crates/identity-hub-http/src/handlers.rs:585-595 | The same ids without repeats |
| `IssuerTables.DistinctKeepsOrder` | crates/identity-hub-http/src/handlers.rs:585-595 | The distinct ids are in first-occurrence order |
| `IssuerTables.CollectRequestedIds` | crates/identity-hub-http/src/handlers.rs:587-595 | The loop computes the distinct ids, stopping one past the limit of 16 |
| `IssuerService.RequestTable.FindEvictable` | crates/identity-hub-http/src/state.rs:155-164 | The scan finds the oldest evictable entry |
| `IssuerService.RequestTable.Insert` | crates/identity-hub-http/src/state.rs:151-172 | In place, the new table is the value `Track` gives, or the old table with an error |
| `IssuerService.RequestTable.PendingCounts` | crates/identity-hub-http/src/state.rs:174-181 | The counts are the sizes of the sets of SUBMITTED processes, in all and of one holder |
| `IssuerService.RequestTable.MoveAll` | crates/identity-hub-http/src/admin.rs:467-485 | The loop moves exactly the processes a decision reaches, and lists each once |
| `IssuerService.RequestTable.NeedsDefinition` | crates/identity-hub-http/src/admin.rs:334-339 | True if and only if an active process names the definition |
| `IssuerService.HolderRegistry.Find` | crates/identity-hub-http/src/issuer.rs:382-386 | Some holder is found if and only if a registered DID is a spelling of the one given |
| `IssuerService.HolderRegistry.Insert` | crates/identity-hub-http/src/issuer.rs:394-418 | Conflict on the id or an equivalent DID, full at 4096, else registered; the registry stays consistent |
| `IssuerService.HolderRegistry.SetStatus` | crates/identity-hub-http/src/admin.rs:462-466 | Changes one holder's status and nothing else |
| `IssuerService.HolderRegistry.Admit` | crates/identity-hub-http/src/handlers.rs:624-648 | Finds the caller, or registers it; the registry is the one `AdmitHolder` gives (which first status that means is `IssuanceOutcomes.AdmissionOutcome`) |
| `IssuerService.DefinitionCatalog.Get` | crates/identity-hub-http/src/issuer.rs:212-214 | The scan computes `Lookup` |
| `IssuerService.DefinitionCatalog.Create` | crates/identity-hub-http/src/issuer.rs:216-231 | Conflict on the id, full at 256, else appended |
| `IssuerService.DefinitionCatalog.Remove` | crates/identity-hub-http/src/issuer.rs:249-253 | The catalog without that id |
| `IssuerService.IssuedCredentials.InsertAll` | crates/identity-hub-http/src/handlers.rs:813-820 | The loop files every record of a delivery |
| `IssuerService.IssuedCredentials.AllocateIndexes` | crates/identity-hub-http/src/handlers.rs:867-897 | The allocation loop takes one index per definition, or stops with the list exhausted |
| `IssuerService.IssuedCredentials.ReleaseAllIndexes` | crates/identity-hub-http/src/handlers.rs:799-806 | The loop gives every index back |
| `IssuerService.IssuedCredentials.RevokeRecord` | crates/identity-hub-http/src/issuer.rs:620-627 | Marks the record and sets its bit; idempotent |
| `IssuerService.ReleaseUndoesAllocate` | crates/identity-hub-http/src/handlers.rs:867-897 | A run of allocations takes distinct, unrevoked indexes, and what it took with what stayed free is what was free before plus the indexes newly opened |
| `IssuerService.Service.CredentialRequest` | crates/identity-hub-http/src/handlers.rs:558-713 | Under three locks: the reply and all four tables are those of the protocol's request step; a delivery is due if and only if the process was created APPROVED (when each reply is given, and what the process says, are `IssuanceOutcomes.RequestOutcome` and `AcceptedOutcome`) |
| `IssuerService.Service.DecideHolder` | crates/identity-hub-http/src/admin.rs:456-486 | Unknown holders are an error and change nothing; else the status and exactly the reached processes change, and each is listed once |
| `IssuerService.Service.DeleteDefinition` | crates/identity-hub-http/src/admin.rs:322-348 | Succeeds if and only if the id is in the catalog and no active process names it; only the catalog changes |
| `IssuerService.Service.ClaimProcess` | crates/identity-hub-http/src/handlers.rs:757-769 | Claims a process still APPROVED, else leaves everything alone |
| `IssuerService.Service.GatherDefinitions` | crates/identity-hub-http/src/handlers.rs:770-782 | All the definitions of a job in order, or an error if one is missing |
| `IssuerService.Service.SettleProcess` | crates/identity-hub-http/src/handlers.rs:821-834 | DELIVERED without an error, ERRORED with one |
| `StatusListState.SettingABit` | crates/identity-hub-http/src/issuer.rs:570-581 | Or-ing a most-significant-bit-first mask into a byte sets that bit and leaves the other seven |
| `StatusListState.SettingAnIndex` | crates/identity-hub-http/src/issuer.rs:570-581 | Setting index i of the byte array adds i, and nothing else, to the set of indexes that are set |
| `StatusListState.StatusList.Allocate` | crates/identity-hub-http/src/issuer.rs:552-561 | The lowest free index, else the next unused one, else none |
| `StatusListState.StatusList.Release` | crates/identity-hub-http/src/issuer.rs:564-568 | Returns an index that was handed out and is not revoked |
| `StatusListState.StatusList.Set` | crates/identity-hub-http/src/issuer.rs:570-576 | Sets one bit and drops the cached JWT exactly when the bit was not set before |
| `StatusListState.StatusList.IsSet` | crates/identity-hub-http/src/issuer.rs:578-581 | True if and only if the index is in the set |
| `StatusListState.StatusList.Serve` | crates/identity-hub-http/src/handlers.rs:1096-1130 | Serves the cached JWT if there is one, else signs one of the current bits at this clock reading; it is then cached |
| `HolderKeys.UppercaseEscapesLoop` | crates/identity-hub-http/src/issuer.rs:342-362 | The parser loop computes the recursive definition |
| `HolderKeys.UppercaseEscapesAt` | crates/identity-hub-http/src/issuer.rs:342-362 | Position by position: hex digits of a percent escape are upper-cased, every other character is copied |
| `HolderKeys.KeyAt` | crates/identity-hub-http/src/issuer.rs:318-340 | Position by position what the key is: same length, host lower-cased, escape digits upper-cased, the rest copied; a DID of another method is its own key |
| `HolderKeys.KeysAgree` | crates/identity-hub-http/src/issuer.rs:318-340 | Two DIDs have one key if and only if they differ only in host case and escape hex case |
| `HolderKeys.KeyIsCanonical` | crates/identity-hub-http/src/issuer.rs:318-340 | The key is idempotent, and is itself a spelling of its DID |
| `HolderKeys.PathKeepsCase` | crates/identity-hub-http/src/issuer.rs:318-340 | Past the host, a letter that is no escape digit is copied unchanged |
| `GraphQueries.AnswerIsTheRows` | crates/identity-hub-graph/src/store.rs:344-360 | The join has exactly one answer, for batches as for offers: the rows of the stored items, in order |
| `GraphQueries.GroupAllRows` | crates/identity-hub-graph/src/store.rs:362-404 | Grouping those rows gives the items back, every field and the order of children restored |
| `GraphTrimming.OldestAreFirst` | crates/identity-hub-graph/src/store.rs:163-187 | The sub-select has one answer: the nodes of the first items of the kind |
| `GraphTrimming.DeleteDropsFirst` | crates/identity-hub-graph/src/store.rs:163-187 | The delete removes the first items of the kind with their children and touches nothing else, of either kind |
| `GraphTrimming.NoOrphans` | crates/identity-hub-graph/src/store.rs:163-187 | Every quad's subject is the node of a stored batch or offer, or a child that such a node links to |
| `GraphTrimming.HitsAreWanted` | crates/identity-hub-graph/src/store.rs:425-458 | The type query's hits, taken in store order, are what filtering the plain list gives |
| `GraphTrimming.PickedBag` | crates/identity-hub-graph/src/store.rs:437-457 | Which credentials are kept does not depend on the order the engine answers in |
| `CredentialGraphStore.CredentialGraph.AddBatch` | crates/identity-hub-graph/src/store.rs:229-333 | After any sequence of stores the graph holds exactly the quads of the last 2048 batches and the last 2048 offers; this one is the newest, and no offer is touched |
| `CredentialGraphStore.CredentialGraph.AddOffer` | crates/identity-hub-graph/src/store.rs:472-543 | Likewise for offers, and no batch is touched |
| `CredentialGraphStore.CredentialGraph.TrimOldest` | crates/identity-hub-graph/src/store.rs:163-187 | Keeps the last `cap` items of one kind and all of the other |
| `CredentialGraphStore.CredentialGraph.Batches` | crates/identity-hub-graph/src/store.rs:344-405 | Returns the last 2048 batches ever stored, in order, each as it was stored |
| `CredentialGraphStore.CredentialGraph.Offers` | crates/identity-hub-graph/src/store.rs:546-592 | Returns the last 2048 offers ever stored, in order, each as it was stored |
| `CredentialGraphStore.CredentialGraph.Batch` | crates/identity-hub-graph/src/store.rs:407-412 | The oldest kept batch with that id, or none if there is none |
| `CredentialGraphStore.CredentialGraph.CredentialsOfTypes` | crates/identity-hub-graph/src/store.rs:425-458 | As a bag, exactly the credentials that filtering the kept ISSUED batches by type gives |
| `CredentialGraphStore.PickOldest` | crates/identity-hub-graph/src/store.rs:163-187 | Picks the oldest nodes of a kind; there is only one choice |
| `CredentialGraphStore.GroupRows` | crates/identity-hub-graph/src/store.rs:362-404 | The loop that mutates the last output element computes the grouping |
| `CredentialGraphStore.BatchQuads` | crates/identity-hub-graph/src/store.rs:229-322 | The quads built are exactly those of the batch and its credentials |
| `CredentialGraphStore.OfferQuads` | crates/identity-hub-graph/src/store.rs:472-532 | The quads built are exactly those of the offer and its credentials |
| `ExpiringTables.PutRefinesList` | crates/identity-hub-http/src/oid4vci.rs:122-138 | With a key never used before: appends to the insertion-ordered list, and beyond capacity drops the oldest entry and only that one, never the new one when capacity is at least 1; live keys stay in the order |
| `ExpiringTables.EvictsFirstToExpire` | crates/identity-hub-http/src/oid4vci.rs:122-138 | An insertion that expires no earlier than any entry evicts the entry that would have expired first |
| `ExpiringTables.AlwaysEvictsFirstToExpire` | crates/identity-hub-http/src/oid4vci.rs:99-158 | Over every lifetime of a table (any sequence of insertions, lookups, writes and removals) with one TTL, a clock that never goes back and fresh keys: every insertion evicts the entry that expires first, nothing while there is room, and never the new entry when capacity is at least 1 |
| `ExpiringTables.AlwaysTidy` | crates/identity-hub-http/src/oid4vci.rs:99-158 | Over every such lifetime live keys are in the order, once, the capacity holds, and entries expire in the order they stand |
| `ExpiringTables.OldestFirstExactly` | crates/identity-hub-http/src/oid4vci.rs:122-138 | For every well-formed table and every key: an insertion keeps the table well formed and is oldest-first on the list if and only if the key is nowhere in the order or is the newest live entry's own |
| `ExpiringTables.TakenOk` | crates/identity-hub-http/src/oid4vci.rs:141-157 | A removal takes out that key's slot and leaves the rest of the list in place; live keys stay in the order |
| `ExpiringTables.ExceptKeeps` | crates/identity-hub-http/src/oid4vci.rs:153-157 | A removal keeps the entries in order of expiry |
| `ExpiringTables.ReusedKeyIsEvicted` | crates/identity-hub-http/src/oid4vci.rs:122-138 | With a key used twice oldest-first fails: the older mention evicts the newer entry |
| `ExpiringTables.OrderGrows` | crates/identity-hub-http/src/oid4vci.rs:122-138 | The order grows with an insertion, by one, if and only if the table has room |
| `ExpiringTables.OrderStaysWithinCapacity` | crates/identity-hub-http/src/oid4vci.rs:122-138 | An insertion keeps the order within the capacity if and only if the order has room or every place in the table is taken |
| `ExpiringTables.OrderBoundedExactly` | crates/identity-hub-http/src/oid4vci.rs:99-158 | Over every lifetime the order is always within the capacity if and only if no insertion finds the order full while the table has room |
| `ExpiringTables.OrderIsUnbounded` | crates/identity-hub-http/src/oid4vci.rs:122-157 | So it is not bounded by the capacity: inserting and taking any list of keys leaves no entry and every key in the order |
| `ExpiringTables.ExpiringTable.Insert` | crates/identity-hub-http/src/oid4vci.rs:122-138 | In place, the value `Put` gives; the eviction loop ends |
| `ExpiringTables.ExpiringTable.Get` | crates/identity-hub-http/src/oid4vci.rs:140-151 | Finds the entry if and only if it is there and `now` is before its expiry; one found expired is dropped, and nothing else |
| `ExpiringTables.ExpiringTable.Take` | crates/identity-hub-http/src/oid4vci.rs:153-157 | Removes the entry either way, and returns it if and only if it was there and `now` before its expiry |
| `ExpiringTables.ExpiringTable.Write` | crates/identity-hub-http/src/oid4vci.rs:547-550 | A write through the reference changes one value and keeps its expiry and its place |
| `ExpiringTables.WrittenRefinesList` | crates/identity-hub-http/src/oid4vci.rs:547-550 | On the list: one slot changes, every key and every place stays |
| `PreAuthorizedProofs.OneTokenPerCode` | crates/identity-hub-http/src/oid4vci.rs:519-575 | Over every run two access tokens sent never come from one code |
| `PreAuthorizedProofs.OneUsePerNonce` | crates/identity-hub-http/src/oid4vci.rs:675-691 | A nonce passes at most once, and no two credentials were sent on the same nonce |
| `PreAuthorizedProofs.OfferServedOnce` | crates/identity-hub-http/src/oid4vci.rs:484-498 | An offer is served by reference at most once, is then gone, and the document served lists what the operator offered under its code |
| `PreAuthorizedProofs.ThreeGuesses` | crates/identity-hub-http/src/oid4vci.rs:548-554 | A code draws at most 3 `wrong tx_code` answers, and after the third it is gone |
| `PreAuthorizedProofs.BurnedForever` | crates/identity-hub-http/src/oid4vci.rs:548-554 | After the third wrong guess no token comes of the code, however the run goes on |
| `PreAuthorizedProofs.IssuedWasOffered` | crates/identity-hub-http/src/oid4vci.rs:602-707 | Every credential sent is for a configuration id listed in the operator's offer that its token came from |
| `PreAuthorizedProofs.HistoryStands` | crates/identity-hub-http/src/oid4vci.rs:435-455 | What was offered under a code, and which code a token came from, never change |
| `PreAuthorizedProofs.TablesAreBounded` | crates/identity-hub-http/src/oid4vci.rs:80-82 | Each of the four tables holds at most 2048 entries in every reachable state |
| `PreAuthorizedProofs.PoisonedForever` | crates/identity-hub-http/src/oid4vci.rs:519-559 | After a panic under the lock no code is created or redeemed again |
| `PreAuthorizedProofs.OneReadingNeverPoisons` | crates/identity-hub-http/src/oid4vci.rs:519-559 | If both clock readings of every token request agree, the lock is never poisoned |
| `PreAuthorizedProofs.StepKeeps` | crates/identity-hub-http/src/oid4vci.rs:390-730 | Every critical section keeps the invariant of the four tables, the tasks and the answers sent |
| `PreAuthorizedCode.PanicsWhenCodeExpiresBetween` | crates/identity-hub-http/src/oid4vci.rs:525-559 | The token handler panics if and only if the code is there, its tx_code is right, and it expires after the lookup's clock reading and not after the removal's |
| `PreAuthorizedCode.PanicIsPossible` | crates/identity-hub-http/src/oid4vci.rs:557-559 | A run from the start: a code created at 0, looked up at 599 and removed at 600, makes the handler panic and poisons the lock |
| `PreAuthorizedCode.GrantToken` | crates/identity-hub-http/src/oid4vci.rs:519-562 | In place: the reply and the table are those of the critical section, and a token is granted if and only if the code is there, has not expired at either clock reading, and was given exactly the tx_code it asks for, or none where it asks for none |
| `PreAuthorizedCode.RepliesExactly` | crates/identity-hub-http/src/oid4vci.rs:519-575 | Each answer of the token endpoint if and only if its condition holds; granted only for the tx_code the code has, or none where it has none, with the ids of that code |
| `PreAuthorizedCode.SectionEffect` | crates/identity-hub-http/src/oid4vci.rs:525-562 | What becomes of the table: other codes never change, `tx_code is required` changes nothing, a wrong guess counts and the third takes the code out, a grant takes it out |
| `PreAuthorizedProofs.TokenNeedsTxCode` | crates/identity-hub-http/src/oid4vci.rs:541-547 | Over every run: every token sent was asked for with exactly the tx_code the operator set for its code, or none where none was set |
| `PreAuthorizedHistory.TokenHistory` | crates/identity-hub-http/src/oid4vci.rs:519-575 | Every token sent goes back to a request that gave the tx_code of an offer the operator had created less than 600 seconds before, of a nonempty list of supported configurations |
| `PreAuthorizedHistory.CredentialHistory` | crates/identity-hub-http/src/oid4vci.rs:602-707 | Every credential sent goes back to a valid proof, for a configuration supported then, over a nonce less than 300 seconds old, by a caller that presented its token less than 300 seconds after it was sent |
| `PreAuthorizedHistory.OfferHistory` | crates/identity-hub-http/src/oid4vci.rs:484-498 | Every offer served was published less than 600 seconds before |
| `PreAuthorizedHistory.CreateOutcome` | crates/identity-hub-http/src/oid4vci.rs:390-455 | A code is created exactly for a nonempty list of supported configurations on a table that is not poisoned; it expires in 600 seconds |
| `PreAuthorizedHistory.FetchOutcome` | crates/identity-hub-http/src/oid4vci.rs:484-498 | An offer is served exactly while it is live, and is taken out either way |
| `PreAuthorizedHistory.AuthorizeOutcome` | crates/identity-hub-http/src/oid4vci.rs:611-629 | An access token is accepted, for the configurations it stands for, exactly while it is live |
| `PreAuthorizedHistory.ProveOutcome` | crates/identity-hub-http/src/oid4vci.rs:642-691 | A proof passes exactly when its configuration is supported and covered, it is valid and its nonce live; the nonce is used up exactly when the request gets that far |
| `PreAuthorizedHistory.SendOutcome` | crates/identity-hub-http/src/oid4vci.rs:693-730 | A proven request is answered with its credential exactly when it is not denied after all |
| `PreAuthorizedExpiry.EvictionsTakeFirstToExpire` | crates/identity-hub-http/src/oid4vci.rs:435-596 | In every state a run with a nondecreasing clock reaches, whichever of the four tables takes a new entry, what it evicts would have expired first |
| `PreAuthorizedExpiry.RunTidy` | crates/identity-hub-http/src/oid4vci.rs:435-596 | Every such run keeps the entries of all four tables in order of expiry |
| `JoinedIssuance.RecordWasOffered` | crates/identity-hub-http/src/oid4vci.rs:602-847 | Over every joint run of the flow and the issuance protocol: an OID4VCI record's definition is one the operator's offer behind its access token listed, and the nonce it was requested with passed exactly once |
| `JoinedIssuance.OneRecordPerNonce` | crates/identity-hub-http/src/oid4vci.rs:675-707 | Two OID4VCI records never go back to one nonce |
| `JoinedIssuance.SentIsRecorded` | crates/identity-hub-http/src/oid4vci.rs:693-730 | Every credential sent over OID4VCI is on record under the configuration asked for, and so can be revoked |
| `JoinedIssuance.StepKeeps` | crates/identity-hub-http/src/oid4vci.rs:602-847 | Every step of either side, and the two steps that join them, keep the joint invariant |
| `JoinedIssuance.RunKeeps` | crates/identity-hub-http/src/oid4vci.rs:602-847 | So does every joint run |
| `ReplayCache.SeenJtiCache.Insert` | crates/identity-hub-http/src/state.rs:92-107 | True if and only if the value is not among the last `capacity` accepted; set and queue hold the same distinct values, which are those last accepted; the newest stays when capacity is at least 1 |
| `ReplayCache.SeenJtiCache.Check` | crates/identity-hub-http/src/auth.rs:159-193 | Accepted if and only if subject, audience and time bounds (30 seconds of leeway for `nbf` and `iat`, none for `exp`) hold and the `jti` is not in the window; each refusal is given exactly when its check is the first to fail; one refused for another reason leaves the cache alone |
| `ReplayCache.ReuseIsFarApart` | crates/identity-hub-http/src/state.rs:63-107 | Two acceptances of one value have at least `capacity` others between them |
| `Scopes.SplitUndoesJoin` | crates/identity-hub-core/src/scope.rs:65-67 | Splitting scopes joined by single spaces gives them back (section 3.3 of RFC 6749) |
| `Scopes.SplitGivesWords` | crates/identity-hub-core/src/scope.rs:65-67 | Whatever is split, every part is nonempty and free of whitespace |
| `Scopes.CredentialTypes` | crates/identity-hub-core/src/scope.rs:42-49 | The types, as a set, are those some scope names; no two neighbours are equal |
| `Scopes.DistinctWhenGrouped` | crates/identity-hub-core/src/scope.rs:42-49 | The result is free of repeats if and only if scopes naming equal types stood together |
| `Scopes.RepeatIsKept` | crates/identity-hub-core/src/scope.rs:42-49 | A repeat that is not next to its first mention is kept |
| `Scopes.BlankHasNoWords` | crates/identity-hub-core/src/sts.rs:152-160 | Text has no words if and only if it is all whitespace |
| `Sts.ConstantTimeEq` | crates/identity-hub-core/src/sts.rs:42-44 | The fold over all bytes is equality |
| `Sts.IssueToken` | crates/identity-hub-core/src/sts.rs:135-207 | A token is issued if and only if the grant type is client_credentials, the client's id and its secret are both the configured ones, and the audience is not blank; the envelope is that of `Issue`, the nested audience set on a local payload |
| `Sts.IssuedExactly` | crates/identity-hub-core/src/sts.rs:135-207 | When a token is issued, and every field of the envelope and of the nested token, the 300 seconds included |
| `Sts.RefusedExactly` | crates/identity-hub-core/src/sts.rs:135-160 | Which refusal it is: the grant type first, then the client's id or secret, then the audience |
| `Sts.AcceptedExactly` | crates/identity-hub-http/src/auth.rs:272-310 | A nested token is accepted if and only if it is the authority's by issuer, key id and signature, not expired, and bound to the caller |
| `Sts.NothingWithoutScope` | crates/identity-hub-http/src/handlers.rs:291-306 | Without a nested token, or a scope in it, nothing is granted; a refused one is an error |
| `Sts.IssuedTokenVerifies` | crates/identity-hub-http/src/auth.rs:272-310 | A nested token issued at t is accepted at t' from P if and only if t' < t + 300 and P is the signer (direct case) or the requested audience (hand-off); it then grants exactly the types its scope names |
| `Sts.GrantsWhatWasAsked` | crates/identity-hub-http/src/handlers.rs:291-306 | Scopes joined by the client come out of the token one by one |
| `Sts.EveryGrantWasIssued` | crates/identity-hub-http/src/auth.rs:272-310 | If the key signs nothing but what the service issues, every type ever granted was requested with the configured client id and secret, for this caller, less than 300 seconds ago; an envelope presented in place of its nested token grants nothing |
| `Presentation.Presentable` | crates/identity-hub-http/src/handlers.rs:311-324 | Every payload that is undecodable or within its validity window, once, and nothing else |
| `Presentation.WindowMeaning` | crates/identity-hub-http/src/validation.rs:131-140 | Within validity from 60 seconds before `nbf` until just before `exp`, where they are given |
| `Presentation.EffectiveTypes` | crates/identity-hub-http/src/handlers.rs:249-252 | A type is kept if and only if it is both requested and granted |
| `Presentation.PresentationQuery` | crates/identity-hub-http/src/handlers.rs:223-258 | Refused exactly when the nested token is; otherwise each distinct payload of a kept ISSUED credential whose type is requested and granted and which may be shown is presented exactly once, and nothing else; the token check and the validity filter read the clock separately |
| `Wallet.VerifyCredentialProofs` | crates/identity-hub-http/src/validation.rs:212-256 | Passes if and only if every container has a JWT format, decodes, names its issuer and key, and carries that issuer's signature |
| `Wallet.CheckCredentialClaims` | crates/identity-hub-http/src/validation.rs:75-127 | Passes if and only if every credential has the container's type, a trusted issuer, this service as subject and is within its window |
| `Wallet.StorageWrite` | crates/identity-hub-http/src/handlers.rs:392-464 | Stores the message as one batch if and only if every check passes, else changes nothing; every credential in the store stays genuine, trusted, bound to this service and filed under its own type |
| `Wallet.LastSpecific` | crates/identity-hub-http/src/oid4vci.rs:1458-1468 | The last type other than `VerifiableCredential`, or none if there is none |
| `Wallet.Accept` | crates/identity-hub-http/src/oid4vci.rs:1446-1502 | Accepted if and only if the payload decodes, its types are a list with one other than `VerifiableCredential`, it names issuer and key, the issuer is trusted and reachable, the signature genuine, the subject this service, and it has no `exp` or `now` is before it; it is filed under the last such type |
| `Wallet.TakeCredentials` | crates/identity-hub-http/src/oid4vci.rs:1306-1317 | The inner loop accepts the credentials of one response in order, or fails |
| `Wallet.TakeAnswers` | crates/identity-hub-http/src/oid4vci.rs:1250-1318 | The loop over the requests of one configuration |
| `Wallet.Redeem` | crates/identity-hub-http/src/oid4vci.rs:1229-1341 | All or nothing: it succeeds if and only if every configuration is known, every answer a nonempty issuance and every credential in the presentable format acceptable at its own clock reading; then one batch at most is stored, those credentials in order, each unexpired at its reading and vouched for; a failure anywhere leaves the store as it was |
| `Wallet.OfferExactly` | crates/identity-hub-http/src/oid4vci.rs:1229-1341 | A redemption fails exactly when a configuration is unknown, an answer no nonempty issuance, or a presentable credential not acceptable; otherwise what is stored is, in order, what was received in that format |
| `Wallet.TakeOffer` | crates/identity-hub-http/src/oid4vci.rs:1229-1330 | The outer loop over the configurations of the offer |
| `Wallet.KeptIsVouched` | crates/identity-hub-http/src/handlers.rs:410-464 | Everything the store can still return is vouched for |
| `RegistryTrust.KeptWhileYoung` | crates/identity-hub-http/src/registry_trust.rs:48-51 | In exact arithmetic: a snapshot is kept if and only if it is younger than a quarter of its lifetime and more than 30 seconds from its end; where the u64 sums saturate it is refetched |
| `RegistryTrust.Registry.TrustList` | crates/identity-hub-http/src/registry_trust.rs:79-104 | A snapshot younger than a quarter of its lifetime and more than 30 seconds from its end is served as it is; otherwise a fetched list replaces it, and after a failed fetch it is served until it expires, then refused; never an expired list; with a clock that has not gone back, the cached list was fetched in the past |
| `AdminQuery.OneKindIsPreordered` | crates/identity-hub-http/src/issuer.rs:673-686 | On values of one kind or null the comparison is a total preorder with null least |
| `AdminQuery.NotTransitiveAcrossKinds` | crates/identity-hub-http/src/issuer.rs:673-686 | Across kinds it is not transitive |
| `AdminQuery.TransitiveUnlessMixed` | crates/identity-hub-http/src/issuer.rs:673-686 | It is transitive on a set of values if and only if no two that differ meet a third of another kind |
| `AdminQuery.SortedIsStable` | crates/identity-hub-http/src/issuer.rs:728-739 | On a field of one kind or null the result is sorted, a permutation, and equal keys keep their order, ascending and descending |
| `AdminQuery.StableSortIsUnique` | crates/identity-hub-http/src/issuer.rs:728-739 | There is only one such result, whichever algorithm finds it |
| `AdminQuery.QueryMeaning` | crates/identity-hub-http/src/issuer.rs:720-739 | The full result is the one stable sort of the matching rows |
| `AdminQuery.MatchingAre` | crates/identity-hub-http/src/issuer.rs:720-727 | Exactly the matching rows are kept, each as often as it was there |
| `AdminQuery.MatchingInOrder` | crates/identity-hub-http/src/issuer.rs:720-727 | Filtering keeps the order of the rows |
| `AdminQuery.PagesJoin` | crates/identity-hub-http/src/issuer.rs:740-740 | Consecutive pages of any size from 1 join up to the rest of the full result from any offset |
| `AdminQuery.Apply` | crates/identity-hub-http/src/issuer.rs:691-741 | Fails if and only if the query is malformed; else row k of the answer is row offset + k of the full result, and there are as many as the limit, 500 and the rest allow; 7 and 7.0 match and print as different values, and sort as equal |
| `AdminQuery.SortRows` | crates/identity-hub-http/src/issuer.rs:728-739 | The insertion loop computes the sort |
| `AdminQuery.PlaceRow` | crates/identity-hub-http/src/issuer.rs:728-739 | The inner loop puts a row after every row it is not strictly before |
| `AdminQuery.UnsortedMeaning` | crates/identity-hub-http/src/issuer.rs:737-739 | Without a sort field the full result is the matching rows as stored, or exactly reversed when DESC, in any letter case, is asked for |
| `AdminQuery.SortedMeaning` | crates/identity-hub-http/src/issuer.rs:728-736 | With one, keys never go down, or never up when DESC is asked for |
| `AdminQuery.ComparisonMeaning` | crates/identity-hub-http/src/issuer.rs:673-686 | Numbers compare by size, false before true, text as in a dictionary, null before everything |
| `AdminQuery.DirectionMeaning` | crates/identity-hub-http/src/issuer.rs:700-712 | ASC and DESC in any letter case, ascending when nothing is said, an error otherwise |
| `AdminQuery.MatchesMeaning` | crates/identity-hub-http/src/issuer.rs:661-671 | A row matches when each criterion's field equals its operand, or prints as it |

## Left out

- Cryptography, JWS and JSON encoding, gzip, base64 and UUIDs: a signature is the key that made it, an encoded status list is the set of its bits with the time of signing, a payload is the text of its JSON value, and a minted id is a new one.
- HTTP, DID resolution, outbound allow-lists, redirects and timeouts: every outcome is a free choice of the step or a parameter.
- The semaphore of 32 concurrent deliveries: it only restricts which interleavings happen.
- Spawning a delivery is part of the critical section that owes it: a queued task is one that is spawned or about to be. No other lock is taken in between.
- The texts of errors, HTTP status codes beyond the cases a reply distinguishes, and a holder's name and properties.
- Overflow of the graph's u64 order counter and of 64-bit clock arithmetic outside the trust list; integers are unbounded there.
- The SPARQL parser and engine, concurrent writers of the graph, and store errors: the fixed queries have their meaning over the set of quads, run one at a time.
- The regular expression of a scope: a scope's type is an arbitrary partial function of the scope.
- Numbers compare by their exact size in `AdminQuery`, where the source rounds them to 64-bit floats first; how a number prints is a parameter.
- The registry's accreditation logic and the per-type decisions of a trusted issuers registry: `Wallet` has the static trust list only.
- Presentation assembly, issuer metadata, DPoP, client assertions, offer resolution and admin input validation: field assembly with only easy properties.
- Wallet.Redeem: takes the issuer's answers as given rather than choosing later requests by earlier answers.
- AdminQuery.SortRows: is an insertion sort where the source calls the standard library's stable sort; `StableSortIsUnique` shows the choice does not matter on a field of one kind or null.
- RegistryTrust.Registry.TrustList: requires that a fetched snapshot is unexpired at the clock reading, which the snapshot's verification, not part of this model, checks.
- IssuanceTheorems.ClaimedForApprovedHolder: is about deliveries only; an OID4VCI issuance checks for a rejected holder in a critical section of its own, so a rejection that comes later does not stop it.
