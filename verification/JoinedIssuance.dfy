/**
 The pre-authorized code flow and the issuance protocol run together. The handler of a credential
 request first works on the flow's tables; once its nonce has passed it looks its definition up and
 becomes an issuance of the hub; what becomes of that issuance is what the caller is told. Every other
 step of either side is free.
 */
module JoinedIssuance {
  import opened Prelude
  import opened IssuerTables
  import Hub = Protocol
  import HubSteps = IssuanceSteps
  import Flow = PreAuthorizedCode
  import FlowSteps = PreAuthorizedProofs

  /** The issuance a proven request became, and what it was proven for. */
  datatype Origin = Origin(task: nat, token: string, configId: string, nonce: string)

  /** `origins` is keyed by the flow's task. */
  datatype Joint = Joint(hub: Hub.Hub, flow: Flow.Issuer, origins: map<nat, Origin>)

  function Start(mode: HolderApproval, now: nat): Joint {
    Joint(Hub.Start(mode, now), Flow.Start(), map[])
  }

  datatype Event =
    | HubMoves(hubEvent: Hub.Event)
    | FlowMoves(flowEvent: Flow.Event)
    | Begin(i: nat, did: string)
    | Reply(i: nat)

  predicate IsProven(j: Joint, i: nat) {
    i < |j.flow.tasks| && j.flow.tasks[i].Proven?
  }

  /** The definition is looked up: without it the request is denied, with it the issuance starts. */
  function BeginStep(j: Joint, i: nat, did: string): Joint {
    if IsProven(j, i) && i !in j.origins then
      var t: Flow.Task := j.flow.tasks[i];
      match Lookup(j.hub.t.catalog, t.configId)
      case None => j.(flow := Flow.SendCredentialStep(j.flow, i, true))
      case Some(_) =>
        j.(hub := Hub.RedeemStep(j.hub, t.configId, did),
           origins := j.origins[i := Origin(|j.hub.tasks|, t.token, t.configId, t.nonce)])
    else
      j
  }

  /** The caller is told how its issuance ended. */
  function ReplyStep(j: Joint, i: nat): Joint {
    if IsProven(j, i) && i in j.origins && Hub.Redeems(j.hub, j.origins[i].task) then
      match j.hub.tasks[j.origins[i].task].stage
      case Filed(_, _, _) => j.(flow := Flow.SendCredentialStep(j.flow, i, false))
      case Denied => j.(flow := Flow.SendCredentialStep(j.flow, i, true))
      case _ => j
    else
      j
  }

  /** Issuances start and replies are sent only through the two steps above. */
  ghost predicate Enabled(j: Joint, e: Event) {
    match e
    case HubMoves(he) => !he.Redeem? && Hub.Enabled(j.hub, he)
    case FlowMoves(fe) => !fe.SendCredential? && Flow.Enabled(j.flow, fe)
    case _ => true
  }

  ghost function Step(j: Joint, e: Event): Joint {
    match e
    case HubMoves(he) => j.(hub := Hub.Step(j.hub, he))
    case FlowMoves(fe) => j.(flow := Flow.Step(j.flow, fe))
    case Begin(i, did) => BeginStep(j, i, did)
    case Reply(i) => ReplyStep(j, i)
  }

  ghost function Run(j: Joint, es: seq<Event>): Joint
    decreases |es|
  {
    if es == [] then j else Run(Step(j, es[0]), es[1..])
  }

  ghost predicate ValidRun(j: Joint, es: seq<Event>)
    decreases |es|
  {
    es == [] || (Enabled(j, es[0]) && ValidRun(Step(j, es[0]), es[1..]))
  }

  // ---- The invariant ----

  /** The hub's task works on this configuration, as far as it still says. */
  predicate WorksOn(t: Hub.Task, configId: string) {
    t.Redemption? &&
    match t.stage
    case Admitted(def, _) => def.id == configId
    case HolderKnown(def, _, _) => def.id == configId
    case Numbered(def, _, _, _) => def.id == configId
    case Logged(def, _, _, _, _) => def.id == configId
    case Filed(def, _, _) => def.id == configId
    case _ => true
  }

  ghost predicate OriginOk(j: Joint, i: nat)
    requires i in j.origins
  {
    var Origin(task, token, configId, nonce) := j.origins[i];
    && task < |j.hub.tasks| && WorksOn(j.hub.tasks[task], configId)
    && i < |j.flow.tasks| && (j.flow.tasks[i] == Flow.Proven(token, configId, nonce) || j.flow.tasks[i].Done?)
    && Flow.Times(j.flow, Flow.NonceAccepted(nonce)) == 1
    && Flow.Covers(j.flow, token, configId)
  }

  ghost predicate Origins(j: Joint) {
    forall i :: i in j.origins ==> OriginOk(j, i)
  }

  /** No two issuances come from one nonce or share a task, and a request still to begin has a nonce of its own. */
  ghost predicate KeptApart(j: Joint) {
    && (forall i, k :: i in j.origins && k in j.origins && i != k ==>
         j.origins[i].task != j.origins[k].task && j.origins[i].nonce != j.origins[k].nonce)
    && (forall i: nat, k: nat :: IsProven(j, i) && i !in j.origins && k in j.origins ==>
         j.flow.tasks[i].nonce != j.origins[k].nonce)
  }

  ghost predicate HasOrigin(j: Joint, task: nat) {
    exists i :: i in j.origins && j.origins[i].task == task
  }

  /** Every OID4VCI issuance of the hub began with a proven request. */
  ghost predicate Begun(j: Joint) {
    forall k :: 0 <= k < |j.hub.tasks| && j.hub.tasks[k].Redemption? ==> HasOrigin(j, k)
  }

  ghost predicate SentFor(j: Joint, i: nat, a: Flow.Answer)
    requires a.CredentialSent?
  {
    && i in j.origins
    && j.origins[i].token == a.token && j.origins[i].configId == a.configId && j.origins[i].nonce == a.nonce
    && Hub.Redeems(j.hub, j.origins[i].task) && j.hub.tasks[j.origins[i].task].stage.Filed?
  }

  /** Every credential sent is the one an issuance filed. */
  ghost predicate Sent(j: Joint) {
    forall k :: 0 <= k < |j.flow.answers| && j.flow.answers[k].CredentialSent? ==>
      exists i :: SentFor(j, i, j.flow.answers[k])
  }

  datatype Clause = TheHub | TheFlow | TheOrigins | TheDistinct | TheBegun | TheSent

  ghost predicate Sat(c: Clause, j: Joint) {
    match c
    case TheHub => Hub.Inv(j.hub)
    case TheFlow => Flow.Inv(j.flow)
    case TheOrigins => Origins(j)
    case TheDistinct => KeptApart(j)
    case TheBegun => Begun(j)
    case TheSent => Sent(j)
  }

  ghost predicate Inv(j: Joint) {
    forall c: Clause :: Sat(c, j)
  }

  ghost predicate Kept(c: Clause, j: Joint) {
    forall d: Clause :: d == c ==> Sat(d, j)
  }

  lemma Establish(j: Joint)
    requires Kept(TheHub, j) && Kept(TheFlow, j) && Kept(TheOrigins, j)
    requires Kept(TheDistinct, j) && Kept(TheBegun, j) && Kept(TheSent, j)
    ensures Inv(j)
  {
    forall c: Clause
      ensures Sat(c, j)
    {
      match c
      case TheHub =>
      case TheFlow =>
      case TheOrigins =>
      case TheDistinct =>
      case TheBegun =>
      case TheSent =>
    }
  }

  // ---- Steps of the hub ----

  /** What any step but the start of an issuance does to the hub's tasks. */
  ghost predicate TasksGoOn(h: Hub.Hub, h': Hub.Hub) {
    && |h.tasks| <= |h'.tasks|
    && (forall k :: 0 <= k < |h.tasks| ==> GoesOn(h.tasks[k], h'.tasks[k]))
    && (forall k :: |h.tasks| <= k < |h'.tasks| ==> h'.tasks[k].Delivery?)
  }

  predicate GoesOn(t: Hub.Task, t': Hub.Task) {
    match t
    case Delivery(_, _) => t'.Delivery?
    case Redemption(stage) =>
      && t'.Redemption?
      && (stage.Filed? ==> t' == t)
      && (DefOf(t').Some? ==> DefOf(t') == DefOf(t))
  }

  function DefOf(t: Hub.Task): Option<string> {
    if !t.Redemption? then None
    else
      match t.stage
      case Admitted(def, _) => Some(def.id)
      case HolderKnown(def, _, _) => Some(def.id)
      case Numbered(def, _, _, _) => Some(def.id)
      case Logged(def, _, _, _, _) => Some(def.id)
      case Filed(def, _, _) => Some(def.id)
      case _ => None
  }

  lemma DeliveriesGoOn(h: Hub.Hub, e: Hub.Event)
    requires || e.ClaimTask? || e.Gather? || e.Abort? || e.Sign? || e.Post?
             || e.ReleaseIndexes? || e.FileSigned? || e.Finish?
    ensures TasksGoOn(h, Hub.Step(h, e))
  {
    match e
    case ClaimTask(_) =>
    case Gather(_) =>
    case Abort(_, _) =>
    case Sign(_, _, _) =>
    case Post(_, _, _) =>
    case ReleaseIndexes(_) =>
    case FileSigned(_) =>
    case Finish(_, _) =>
  }

  lemma RedemptionsGoOn(h: Hub.Hub, e: Hub.Event)
    requires e.RedeemHolder? || e.RedeemIndex? || e.RedeemLog? || e.RedeemRelease? || e.RedeemFile?
    ensures TasksGoOn(h, Hub.Step(h, e))
  {
    match e
    case RedeemHolder(i, newHolderId, now) => HolderGoesOn(h, i, newHolderId, now);
    case RedeemIndex(i) => IndexGoesOn(h, i);
    case RedeemLog(i, pid, now) => LogGoesOn(h, i, pid, now);
    case RedeemRelease(_) =>
    case RedeemFile(_, _, _) =>
  }

  lemma HolderGoesOn(h: Hub.Hub, i: nat, newHolderId: string, now: nat)
    ensures TasksGoOn(h, Hub.RedeemHolderStep(h, i, newHolderId, now))
  {
  }

  lemma IndexGoesOn(h: Hub.Hub, i: nat)
    ensures TasksGoOn(h, Hub.RedeemIndexStep(h, i))
  {
  }

  lemma LogGoesOn(h: Hub.Hub, i: nat, pid: string, now: nat)
    ensures TasksGoOn(h, Hub.RedeemLogStep(h, i, pid, now))
  {
  }

  lemma RequestsGoOn(h: Hub.Hub, e: Hub.Event)
    requires e.Request? || e.DecideHolder?
    ensures TasksGoOn(h, Hub.Step(h, e))
  {
  }

  lemma TablesGoOn(h: Hub.Hub, e: Hub.Event)
    requires || e.RegisterHolder? || e.CreateDef? || e.UpdateDef? || e.DeleteDef?
             || e.RevokeCredential? || e.ServeStatusList?
    ensures TasksGoOn(h, Hub.Step(h, e))
  {
    match e
    case RegisterHolder(_) =>
    case CreateDef(_) =>
    case UpdateDef(_) =>
    case DeleteDef(_) =>
    case RevokeCredential(_) =>
    case ServeStatusList(_) =>
  }

  lemma HubGoesOn(h: Hub.Hub, e: Hub.Event)
    requires !e.Redeem?
    ensures TasksGoOn(h, Hub.Step(h, e))
  {
    if e.Request? || e.DecideHolder? {
      RequestsGoOn(h, e);
    } else if e.RedeemHolder? || e.RedeemIndex? || e.RedeemLog? || e.RedeemRelease? || e.RedeemFile? {
      RedemptionsGoOn(h, e);
    } else if e.RegisterHolder? || e.CreateDef? || e.UpdateDef? || e.DeleteDef?
              || e.RevokeCredential? || e.ServeStatusList? {
      TablesGoOn(h, e);
    } else {
      DeliveriesGoOn(h, e);
    }
  }

  lemma StillWorksOn(t: Hub.Task, t': Hub.Task, configId: string)
    requires WorksOn(t, configId) && GoesOn(t, t')
    ensures WorksOn(t', configId)
  {
  }

  lemma HubMovesOrigins(j: Joint, hub': Hub.Hub)
    requires Inv(j) && TasksGoOn(j.hub, hub')
    ensures Kept(TheOrigins, j.(hub := hub'))
  {
    assert Sat(TheOrigins, j);
    forall i | i in j.origins
      ensures OriginOk(j.(hub := hub'), i)
    {
      assert OriginOk(j, i);
      var k := j.origins[i].task;
      StillWorksOn(j.hub.tasks[k], hub'.tasks[k], j.origins[i].configId);
    }
  }

  lemma HubMovesRest(j: Joint, hub': Hub.Hub)
    requires Inv(j) && TasksGoOn(j.hub, hub')
    ensures Kept(TheDistinct, j.(hub := hub')) && Kept(TheBegun, j.(hub := hub')) && Kept(TheSent, j.(hub := hub'))
  {
    var j' := j.(hub := hub');
    assert Kept(TheDistinct, j') by {
      assert Sat(TheDistinct, j);
    }
    assert Kept(TheBegun, j') by {
      assert Sat(TheBegun, j);
      forall k | 0 <= k < |hub'.tasks| && hub'.tasks[k].Redemption?
        ensures HasOrigin(j', k)
      {
        assert k < |j.hub.tasks| ==> GoesOn(j.hub.tasks[k], hub'.tasks[k]);
        assert HasOrigin(j, k);
      }
    }
    HubMovesSent(j, hub');
  }

  lemma HubMovesSent(j: Joint, hub': Hub.Hub)
    requires Inv(j) && TasksGoOn(j.hub, hub')
    ensures Kept(TheSent, j.(hub := hub'))
  {
    assert Sat(TheSent, j);
    forall k | 0 <= k < |j.flow.answers| && j.flow.answers[k].CredentialSent?
      ensures exists i :: SentFor(j.(hub := hub'), i, j.flow.answers[k])
    {
      var i :| SentFor(j, i, j.flow.answers[k]);
      var t := j.origins[i].task;
      assert GoesOn(j.hub.tasks[t], hub'.tasks[t]);
      assert SentFor(j.(hub := hub'), i, j.flow.answers[k]);
    }
  }

  lemma HubMovesKeep(j: Joint, e: Hub.Event)
    requires Inv(j) && !e.Redeem? && Hub.Enabled(j.hub, e)
    ensures Inv(j.(hub := Hub.Step(j.hub, e)))
  {
    var j' := j.(hub := Hub.Step(j.hub, e));
    assert Sat(TheHub, j) && Sat(TheFlow, j);
    HubSteps.StepKeeps(j.hub, e);
    HubGoesOn(j.hub, e);
    HubMovesOrigins(j, j'.hub);
    HubMovesRest(j, j'.hub);
    assert Kept(TheHub, j') && Kept(TheFlow, j');
    Establish(j');
  }

  // ---- Steps of the flow ----

  /** What any step but a reply does to the flow: history only grows, and what is proven or done stays. */
  ghost predicate FlowGoesOn(s: Flow.Issuer, s': Flow.Issuer, said: Option<Flow.Answer>) {
    && FlowSteps.Extends(s, s') && FlowSteps.Logs(s, s', said)
    && (said.Some? ==> !said.value.CredentialSent?)
    && |s.tasks| <= |s'.tasks|
    && (forall i :: 0 <= i < |s.tasks| && (s.tasks[i].Proven? || s.tasks[i].Done?) ==> s'.tasks[i] == s.tasks[i])
    && (forall i :: 0 <= i < |s'.tasks| && s'.tasks[i].Proven? && !(i < |s.tasks| && s.tasks[i].Proven?) ==>
         said == Some(Flow.NonceAccepted(s'.tasks[i].nonce)))
    && (forall n :: said == Some(Flow.NonceAccepted(n)) ==> Flow.Times(s, Flow.NonceAccepted(n)) == 0)
  }

  lemma FlowStepGoesOn(s: Flow.Issuer, e: Flow.Event)
    requires Flow.Inv(s) && Flow.Enabled(s, e) && !e.SendCredential?
    ensures FlowGoesOn(s, Flow.Step(s, e), FlowSteps.Answering(s, e))
  {
    FlowSteps.StepExtends(s, e);
    FlowSteps.StepLogs(s, e);
    FlowSteps.StepAdvances(s, e);
    FlowSteps.ProvenIsAccepted(s, e);
    FlowSteps.AcceptedWasUnspent(s, e);
    AdvancesOpen(s, e);
  }

  lemma AdvancesOpen(s: Flow.Issuer, e: Flow.Event)
    requires !e.SendCredential?
    ensures var to := FlowSteps.Advancing(s, e);
      to.Some? && to.value.0 < |s.tasks| ==> !s.tasks[to.value.0].Proven? && !s.tasks[to.value.0].Done?
    ensures var said := FlowSteps.Answering(s, e); said.Some? ==> !said.value.CredentialSent?
  {
  }

  lemma FlowMovesOrigins(j: Joint, flow': Flow.Issuer, said: Option<Flow.Answer>)
    requires Inv(j) && FlowGoesOn(j.flow, flow', said)
    ensures Kept(TheOrigins, j.(flow := flow'))
  {
    assert Sat(TheOrigins, j);
    forall i | i in j.origins
      ensures OriginOk(j.(flow := flow'), i)
    {
      assert OriginOk(j, i);
      FlowSteps.TimesAfter(j.flow, flow', said, Flow.NonceAccepted(j.origins[i].nonce));
    }
  }

  lemma FlowMovesDistinct(j: Joint, flow': Flow.Issuer, said: Option<Flow.Answer>)
    requires Inv(j) && FlowGoesOn(j.flow, flow', said)
    ensures Kept(TheDistinct, j.(flow := flow'))
  {
    assert Sat(TheDistinct, j) && Sat(TheOrigins, j);
    forall i: nat, k: nat | IsProven(j.(flow := flow'), i) && i !in j.origins && k in j.origins
      ensures flow'.tasks[i].nonce != j.origins[k].nonce
    {
      assert OriginOk(j, k);
      assert IsProven(j, i) ==> j.flow.tasks[i].nonce != j.origins[k].nonce;
    }
  }

  lemma FlowMovesSent(j: Joint, flow': Flow.Issuer, said: Option<Flow.Answer>)
    requires Inv(j) && FlowGoesOn(j.flow, flow', said)
    ensures Kept(TheSent, j.(flow := flow')) && Kept(TheBegun, j.(flow := flow'))
  {
    assert Sat(TheSent, j) && Sat(TheBegun, j);
    forall k | 0 <= k < |flow'.answers| && flow'.answers[k].CredentialSent?
      ensures exists i :: SentFor(j.(flow := flow'), i, flow'.answers[k])
    {
      assert k < |j.flow.answers| && flow'.answers[k] == j.flow.answers[k];
      var i :| SentFor(j, i, j.flow.answers[k]);
      assert SentFor(j.(flow := flow'), i, flow'.answers[k]);
    }
    forall k | 0 <= k < |j.hub.tasks| && j.hub.tasks[k].Redemption?
      ensures HasOrigin(j.(flow := flow'), k)
    {
      assert HasOrigin(j, k);
    }
  }

  lemma FlowMovesKeep(j: Joint, e: Flow.Event)
    requires Inv(j) && !e.SendCredential? && Flow.Enabled(j.flow, e)
    ensures Inv(j.(flow := Flow.Step(j.flow, e)))
  {
    var j', said := j.(flow := Flow.Step(j.flow, e)), FlowSteps.Answering(j.flow, e);
    assert Sat(TheHub, j) && Sat(TheFlow, j);
    FlowSteps.StepKeeps(j.flow, e);
    FlowStepGoesOn(j.flow, e);
    FlowMovesOrigins(j, j'.flow, said);
    FlowMovesDistinct(j, j'.flow, said);
    FlowMovesSent(j, j'.flow, said);
    assert Kept(TheHub, j') && Kept(TheFlow, j');
    Establish(j');
  }

  // ---- Starting and ending an issuance ----

  /** A reply ends one task of the flow and sends at most the credential it was proven for. */
  lemma EndKeeps(j: Joint, i: nat, denied: bool)
    requires Inv(j) && IsProven(j, i)
    requires !denied ==>
      i in j.origins && Hub.Redeems(j.hub, j.origins[i].task) && j.hub.tasks[j.origins[i].task].stage.Filed?
    ensures Inv(j.(flow := Flow.SendCredentialStep(j.flow, i, denied)))
  {
    var flow' := Flow.SendCredentialStep(j.flow, i, denied);
    var j' := j.(flow := flow');
    assert Sat(TheHub, j) && Sat(TheFlow, j);
    FlowSteps.StepKeeps(j.flow, Flow.SendCredential(i, denied));
    EndOrigins(j, i, denied);
    EndSent(j, i, denied);
    EndRest(j, i, denied);
    assert Kept(TheHub, j') && Kept(TheFlow, j');
    Establish(j');
  }

  lemma EndOrigins(j: Joint, i: nat, denied: bool)
    requires Inv(j) && IsProven(j, i)
    ensures Kept(TheOrigins, j.(flow := Flow.SendCredentialStep(j.flow, i, denied)))
  {
    var flow' := Flow.SendCredentialStep(j.flow, i, denied);
    assert Sat(TheOrigins, j);
    forall k | k in j.origins
      ensures OriginOk(j.(flow := flow'), k)
    {
      assert OriginOk(j, k);
      var passed := Flow.NonceAccepted(j.origins[k].nonce);
      assert Flow.Times(flow', passed) == Flow.Times(j.flow, passed);
    }
  }

  lemma EndRest(j: Joint, i: nat, denied: bool)
    requires Inv(j) && IsProven(j, i)
    ensures var j' := j.(flow := Flow.SendCredentialStep(j.flow, i, denied));
      Kept(TheDistinct, j') && Kept(TheBegun, j')
  {
    var j' := j.(flow := Flow.SendCredentialStep(j.flow, i, denied));
    assert Sat(TheDistinct, j) && Sat(TheBegun, j);
    forall m: nat, k: nat | IsProven(j', m) && m !in j.origins && k in j.origins
      ensures j'.flow.tasks[m].nonce != j.origins[k].nonce
    {
      assert IsProven(j, m) && j'.flow.tasks[m] == j.flow.tasks[m];
    }
    assert KeptApart(j');
    forall k | 0 <= k < |j.hub.tasks| && j.hub.tasks[k].Redemption?
      ensures HasOrigin(j', k)
    {
      assert HasOrigin(j, k);
    }
  }

  lemma EndSent(j: Joint, i: nat, denied: bool)
    requires Inv(j) && IsProven(j, i)
    requires !denied ==>
      i in j.origins && Hub.Redeems(j.hub, j.origins[i].task) && j.hub.tasks[j.origins[i].task].stage.Filed?
    ensures Kept(TheSent, j.(flow := Flow.SendCredentialStep(j.flow, i, denied)))
  {
    var flow' := Flow.SendCredentialStep(j.flow, i, denied);
    var j' := j.(flow := flow');
    assert Sat(TheSent, j) && Sat(TheOrigins, j);
    forall k | 0 <= k < |flow'.answers| && flow'.answers[k].CredentialSent?
      ensures exists m :: SentFor(j', m, flow'.answers[k])
    {
      if k < |j.flow.answers| {
        var m :| SentFor(j, m, j.flow.answers[k]);
        assert SentFor(j', m, flow'.answers[k]);
      } else {
        assert OriginOk(j, i);
        assert SentFor(j', i, flow'.answers[k]);
      }
    }
  }

  lemma BegunOrigins(j: Joint, i: nat, did: string)
    requires Inv(j) && IsProven(j, i) && i !in j.origins && Lookup(j.hub.t.catalog, j.flow.tasks[i].configId).Some?
    ensures Kept(TheOrigins, BeginStep(j, i, did))
  {
    var j' := BeginStep(j, i, did);
    assert Sat(TheOrigins, j);
    assert OriginOk(j', i) by {
      assert Sat(TheFlow, j);
      assert Flow.Sat(Flow.TheTasks, j.flow) && Flow.Sat(Flow.TheCredentials, j.flow);
      assert Flow.TaskOk(j.flow, j.flow.tasks[i]);
    }
    forall k | k in j'.origins
      ensures OriginOk(j', k)
    {
      assert k != i ==> OriginOk(j, k);
    }
  }

  lemma BegunDistinct(j: Joint, i: nat, did: string)
    requires Inv(j) && IsProven(j, i) && i !in j.origins && Lookup(j.hub.t.catalog, j.flow.tasks[i].configId).Some?
    ensures Kept(TheDistinct, BeginStep(j, i, did))
  {
    var j' := BeginStep(j, i, did);
    assert Sat(TheDistinct, j) && Sat(TheOrigins, j) && Sat(TheFlow, j);
    assert Flow.Sat(Flow.TheCredentials, j.flow);
    forall m, k | m in j'.origins && k in j'.origins && m != k
      ensures j'.origins[m].task != j'.origins[k].task && j'.origins[m].nonce != j'.origins[k].nonce
    {
      assert m != i ==> OriginOk(j, m);
      assert k != i ==> OriginOk(j, k);
    }
    forall m: nat, k: nat | IsProven(j', m) && m !in j'.origins && k in j'.origins
      ensures j'.flow.tasks[m].nonce != j'.origins[k].nonce
    {
      assert IsProven(j, m) && m != i;
    }
    assert KeptApart(j');
  }

  lemma BegunRest(j: Joint, i: nat, did: string)
    requires Inv(j) && IsProven(j, i) && i !in j.origins && Lookup(j.hub.t.catalog, j.flow.tasks[i].configId).Some?
    ensures Kept(TheBegun, BeginStep(j, i, did)) && Kept(TheSent, BeginStep(j, i, did))
  {
    var j' := BeginStep(j, i, did);
    assert Sat(TheBegun, j) && Sat(TheSent, j);
    forall k | 0 <= k < |j'.hub.tasks| && j'.hub.tasks[k].Redemption?
      ensures HasOrigin(j', k)
    {
      if k < |j.hub.tasks| {
        assert HasOrigin(j, k);
        var m :| m in j.origins && j.origins[m].task == k;
        assert j'.origins[m].task == k;
      } else {
        assert j'.origins[i].task == k;
      }
    }
    forall k | 0 <= k < |j'.flow.answers| && j'.flow.answers[k].CredentialSent?
      ensures exists m :: SentFor(j', m, j'.flow.answers[k])
    {
      var m :| SentFor(j, m, j.flow.answers[k]);
      assert SentFor(j', m, j'.flow.answers[k]);
    }
  }

  lemma BeginKeeps(j: Joint, i: nat, did: string)
    requires Inv(j)
    ensures Inv(BeginStep(j, i, did))
  {
    if IsProven(j, i) && i !in j.origins {
      var configId := j.flow.tasks[i].configId;
      if Lookup(j.hub.t.catalog, configId).None? {
        EndKeeps(j, i, true);
      } else {
        var j' := BeginStep(j, i, did);
        assert Sat(TheHub, j) && Sat(TheFlow, j);
        HubSteps.StepKeeps(j.hub, Hub.Redeem(configId, did));
        BegunOrigins(j, i, did);
        BegunDistinct(j, i, did);
        BegunRest(j, i, did);
        assert Kept(TheHub, j') && Kept(TheFlow, j');
        Establish(j');
      }
    }
  }

  lemma ReplyKeeps(j: Joint, i: nat)
    requires Inv(j)
    ensures Inv(ReplyStep(j, i))
  {
    if IsProven(j, i) && i in j.origins && Hub.Redeems(j.hub, j.origins[i].task) {
      match j.hub.tasks[j.origins[i].task].stage
      case Filed(_, _, _) => EndKeeps(j, i, false);
      case Denied => EndKeeps(j, i, true);
      case _ =>
    }
  }

  lemma StepKeeps(j: Joint, e: Event)
    requires Inv(j) && Enabled(j, e)
    ensures Inv(Step(j, e))
  {
    match e
    case HubMoves(he) => HubMovesKeep(j, he);
    case FlowMoves(fe) => FlowMovesKeep(j, fe);
    case Begin(i, did) => BeginKeeps(j, i, did);
    case Reply(i) => ReplyKeeps(j, i);
  }

  lemma StartHolds(mode: HolderApproval, now: nat)
    ensures Inv(Start(mode, now))
  {
    var j := Start(mode, now);
    HubSteps.StartHolds(mode, now);
    FlowSteps.StartHolds();
    Establish(j);
  }

  lemma {:induction false} RunKeeps(j: Joint, es: seq<Event>)
    requires Inv(j) && ValidRun(j, es)
    ensures Inv(Run(j, es))
    decreases |es|
  {
    if es != [] {
      StepKeeps(j, es[0]);
      RunKeeps(Step(j, es[0]), es[1..]);
    }
  }

  // ---- Over every joint run ----

  ghost predicate Reachable(j: Joint) {
    exists mode, now, es :: ValidRun(Start(mode, now), es) && j == Run(Start(mode, now), es)
  }

  lemma ReachableInv(j: Joint)
    requires Reachable(j)
    ensures Inv(j)
  {
    var mode, now, es :| ValidRun(Start(mode, now), es) && j == Run(Start(mode, now), es);
    StartHolds(mode, now);
    RunKeeps(Start(mode, now), es);
  }

  /** A record of the issued table that an OID4VCI issuance filed. */
  ghost predicate IsRedeemed(j: Joint, id: string) {
    && id in j.hub.t.issued.records && id in j.hub.births
    && Hub.Redeems(j.hub, j.hub.births[id].task)
  }

  /** The proven request a record goes back to. */
  ghost predicate ComesFrom(j: Joint, id: string, i: nat) {
    IsRedeemed(j, id) && i in j.origins && j.origins[i].task == j.hub.births[id].task
  }

  /** The definition is one the offer behind the request's token listed, and the request's nonce passed once. */
  ghost predicate WasOffered(j: Joint, id: string, i: nat)
    requires ComesFrom(j, id, i)
  {
    var Origin(_, token, configId, nonce) := j.origins[i];
    && j.hub.t.issued.records[id].definitionId == configId
    && token in j.flow.soldAs && j.flow.soldAs[token] in j.flow.offered
    && configId in j.flow.offered[j.flow.soldAs[token]].ids
    && Flow.Times(j.flow, Flow.NonceAccepted(nonce)) == 1
  }

  /** The record is the one an answer speaks of. */
  ghost predicate IsAnswered(j: Joint, id: string, i: nat, a: Flow.Answer)
    requires ComesFrom(j, id, i) && a.CredentialSent?
  {
    j.origins[i].nonce == a.nonce && j.origins[i].token == a.token
    && j.hub.t.issued.records[id].definitionId == a.configId
  }

  lemma RedeemedRecord(j: Joint, id: string)
    requires Inv(j) && IsRedeemed(j, id)
    ensures var t := j.hub.tasks[j.hub.births[id].task];
      && t.stage.Filed? && t.stage.record.id == id
      && j.hub.t.issued.records[id].definitionId == t.stage.def.id
  {
    assert Sat(TheHub, j);
    var k := j.hub.births[id].task;
    assert Hub.FiledBy(j.hub, id) by {
      assert Hub.Sat(Hub.TheRecords, j.hub);
    }
    assert Hub.LocalOk(j.hub.tasks[k]) by {
      assert Hub.Sat(Hub.TheLocals, j.hub);
    }
    assert j.hub.t.issued.records[id].id == id by {
      assert Hub.Sat(Hub.TheTables, j.hub);
    }
  }

  /**
   Every OID4VCI record goes back to a request whose access token came from an operator's offer that
   listed the record's definition, and whose nonce passed, once.
   */
  lemma RecordWasOffered(j: Joint, id: string)
    requires Reachable(j) && IsRedeemed(j, id)
    ensures exists i :: ComesFrom(j, id, i) && WasOffered(j, id, i)
  {
    ReachableInv(j);
    RedeemedRecord(j, id);
    assert Sat(TheBegun, j) && Sat(TheOrigins, j);
    var k := j.hub.births[id].task;
    assert HasOrigin(j, k);
    var i :| i in j.origins && j.origins[i].task == k;
    assert OriginOk(j, i);
    assert ComesFrom(j, id, i);
  }

  /** There is at most one record for each nonce that passed. */
  lemma OneRecordPerNonce(j: Joint, a: string, b: string, i: nat, k: nat)
    requires Reachable(j) && ComesFrom(j, a, i) && ComesFrom(j, b, k) && j.origins[i].nonce == j.origins[k].nonce
    ensures a == b
  {
    ReachableInv(j);
    assert i == k by {
      assert Sat(TheDistinct, j);
    }
    RedeemedRecord(j, a);
    RedeemedRecord(j, b);
  }

  /** Whatever was sent is on record, under the configuration asked for, and can be revoked. */
  lemma SentIsRecorded(j: Joint, k: nat)
    requires Reachable(j) && k < |j.flow.answers| && j.flow.answers[k].CredentialSent?
    ensures exists id, i :: ComesFrom(j, id, i) && IsAnswered(j, id, i, j.flow.answers[k])
  {
    ReachableInv(j);
    assert Sat(TheSent, j) && Sat(TheOrigins, j);
    var i :| SentFor(j, i, j.flow.answers[k]);
    assert OriginOk(j, i);
    var t := j.origins[i].task;
    var id := j.hub.tasks[t].stage.record.id;
    FiledIsRecorded(j, t);
    RedeemedRecord(j, id);
    assert ComesFrom(j, id, i);
  }

  lemma FiledIsRecorded(j: Joint, t: nat)
    requires Inv(j) && Hub.Redeems(j.hub, t) && j.hub.tasks[t].stage.Filed?
    ensures var id := j.hub.tasks[t].stage.record.id; IsRedeemed(j, id) && j.hub.births[id].task == t
  {
    assert Sat(TheHub, j);
    assert Hub.Sat(Hub.TheRecords, j.hub);
    var task := j.hub.tasks[t];
    assert Hub.Signed(task)[0].id in j.hub.births;
  }
}
