/**
 The two writers of the credential store, with a static trust list: the Storage API and the redemption
 of an OID4VCI offer. What a JWS says, and whether its signature is its own issuer's, are given.
 */
module Wallet {
  import opened Prelude
  import opened GraphModel
  import opened CredentialGraphStore
  import opened Presentation

  const FORMAT_JWT_VC_JSON: string := "jwt_vc_json"

  datatype VcTypes = NoTypes | OneType(only: string) | ManyTypes(types: seq<Option<string>>)

  /** The claims of a credential, as its payload states them. */
  datatype Facts = Facts(kid: Option<string>, iss: Option<string>, sub: Option<string>, subjectId: Option<string>,
                         types: VcTypes, window: Window)

  /**
   `facts` decodes a payload; `genuine` says the signature is by the key its issuer publishes under
   its `kid`; `reachable` that the issuer's DID may be, and was, resolved; `jwt` that a container
   format is a JWT one.
   */
  datatype World = World(
    facts: string -> Option<Facts>, genuine: string -> bool, reachable: string -> bool, jwt: string -> bool,
    ownDid: string, trusted: seq<string>)

  predicate HasType(types: VcTypes, t: string) {
    match types
    case NoTypes => false
    case OneType(only) => only == t
    case ManyTypes(ts) => Some(t) in ts
  }

  /** The types a credential lists: one, or the strings of a list. */
  ghost predicate Lists(types: VcTypes, t: string) {
    types == OneType(t) || (types.ManyTypes? && exists k :: 0 <= k < |types.types| && types.types[k] == Some(t))
  }

  lemma TypesMeaning(types: VcTypes, t: string)
    ensures HasType(types, t) <==> Lists(types, t)
  {
  }

  function Subject(f: Facts): Option<string> {
    if f.sub.Some? then f.sub else f.subjectId
  }

  /** What must be true of every credential in the store. */
  ghost predicate Vouched(w: World, c: Child) {
    && c.Credential? && w.facts(c.payload).Some?
    && var f := w.facts(c.payload).value;
       && w.genuine(c.payload)
       && f.iss.Some? && f.iss.value in w.trusted
       && (f.sub == Some(w.ownDid) || (f.sub == None && f.subjectId == Some(w.ownDid)))
       && Lists(f.types, c.credentialType)
  }

  ghost predicate AllVouched(w: World, items: seq<Item>) {
    forall i, k :: 0 <= i < |items| && 0 <= k < |items[i].children| ==> Vouched(w, items[i].children[k])
  }

  datatype Refusal =
    | Untrusted
    | BadStatus
    | UnknownHolderPid
    | UnsupportedFormat
    | Unverifiable
    | WrongType
    | ForeignSubject
    | OutsideValidity

  /** The proof of one container checks out. */
  predicate Proved(w: World, c: Entry) {
    && w.jwt(c.format) && w.facts(c.payload).Some?
    && w.facts(c.payload).value.iss.Some? && w.facts(c.payload).value.kid.Some?
    && w.reachable(c.payload) && w.genuine(c.payload)
  }

  method VerifyCredentialProofs(w: World, creds: seq<Entry>) returns (r: Result<(), Refusal>)
    ensures r.Ok? <==> forall k :: 0 <= k < |creds| ==> Proved(w, creds[k])
  {
    for i := 0 to |creds|
      invariant forall k :: 0 <= k < i ==> Proved(w, creds[k])
    {
      var c := creds[i];
      if !w.jwt(c.format) {
        return Err(UnsupportedFormat);
      }
      var facts := w.facts(c.payload);
      if facts.None? || facts.value.iss.None? || facts.value.kid.None? {
        return Err(Unverifiable);
      }
      if !w.reachable(c.payload) || !w.genuine(c.payload) {
        return Err(Unverifiable);
      }
    }
    return Ok(());
  }

  /** What a container's credential must say about itself. */
  ghost predicate Claims(w: World, c: Entry, now: nat) {
    && w.facts(c.payload).Some?
    && var f := w.facts(c.payload).value;
       && Lists(f.types, c.credentialType)
       && (if f.iss.Some? then f.iss.value else "") in w.trusted
       && (f.sub == Some(w.ownDid) || (f.sub == None && f.subjectId == Some(w.ownDid)))
       && InWindow(f.window, now)
  }

  method CheckCredentialClaims(w: World, creds: seq<Entry>, now: nat) returns (r: Result<(), Refusal>)
    ensures r.Ok? <==> forall k :: 0 <= k < |creds| ==> Claims(w, creds[k], now)
  {
    for i := 0 to |creds|
      invariant forall k :: 0 <= k < i ==> Claims(w, creds[k], now)
    {
      var c := creds[i];
      var facts := w.facts(c.payload);
      if facts.None? {
        return Err(Unverifiable);
      }
      var f := facts.value;
      TypesMeaning(f.types, c.credentialType);
      if !HasType(f.types, c.credentialType) {
        return Err(WrongType);
      }
      var issuer := if f.iss.Some? then f.iss.value else "";
      if issuer !in w.trusted {
        return Err(Untrusted);
      }
      if Subject(f) != Some(w.ownDid) {
        return Err(ForeignSubject);
      }
      WindowMeaning(f.window, now);
      if !IsWithinValidity(f.window, now) {
        return Err(OutsideValidity);
      }
    }
    return Ok(());
  }

  datatype Message = Message(issuerPid: string, holderPid: string, status: string, reason: Option<string>,
                             credentials: seq<Entry>)

  ghost predicate Acceptable(w: World, known: seq<string>, caller: string, m: Message, now: nat) {
    && caller in w.trusted
    && (m.status == "ISSUED" || m.status == "REJECTED")
    && (known == [] || m.holderPid in known)
    && (forall k :: 0 <= k < |m.credentials| ==> Proved(w, m.credentials[k]) && Claims(w, m.credentials[k], now))
  }

  /** The Storage API: a message is stored whole when every check passes, and otherwise not at all. */
  method StorageWrite(w: World, graph: CredentialGraph, known: seq<string>, caller: string, m: Message, id: string,
                      now: nat)
      returns (r: Result<(), Refusal>)
    requires graph.Valid() && AllVouched(w, graph.allBatches)
    modifies graph
    ensures graph.Valid() && AllVouched(w, graph.allBatches)
    ensures r.Ok? <==> Acceptable(w, known, caller, m, now)
    ensures r.Ok? ==>
      var head := BatchHead(id, m.issuerPid, Some(m.holderPid), m.status, m.reason);
      graph.allBatches == old(graph.allBatches) + [Item(head, m.credentials)]
    ensures r.Err? ==> graph.quads == old(graph.quads) && graph.allBatches == old(graph.allBatches)
    ensures graph.allOffers == old(graph.allOffers)
  {
    if caller !in w.trusted {
      return Err(Untrusted);
    }
    if m.status != "ISSUED" && m.status != "REJECTED" {
      return Err(BadStatus);
    }
    if known != [] && m.holderPid !in known {
      return Err(UnknownHolderPid);
    }
    var proofs := VerifyCredentialProofs(w, m.credentials);
    if proofs.Err? {
      return proofs;
    }
    var claims := CheckCredentialClaims(w, m.credentials, now);
    if claims.Err? {
      return claims;
    }
    ghost var item := Item(BatchHead(id, m.issuerPid, Some(m.holderPid), m.status, m.reason), m.credentials);
    CheckedIsVouched(w, m.credentials, now);
    VouchedMore(w, graph.allBatches, item);
    graph.AddBatch(id, m.issuerPid, Some(m.holderPid), m.status, m.reason, m.credentials);
    return Ok(());
  }

  lemma CheckedIsVouched(w: World, creds: seq<Entry>, now: nat)
    requires forall k :: 0 <= k < |creds| ==> Proved(w, creds[k]) && Claims(w, creds[k], now)
    ensures forall k :: 0 <= k < |creds| ==> Vouched(w, creds[k])
  {
    forall k | 0 <= k < |creds|
      ensures Vouched(w, creds[k])
    {
      assert Proved(w, creds[k]) && Claims(w, creds[k], now);
    }
  }

  lemma VouchedMore(w: World, items: seq<Item>, item: Item)
    requires AllVouched(w, items) && forall k :: 0 <= k < |item.children| ==> Vouched(w, item.children[k])
    ensures AllVouched(w, items + [item])
  {
  }

  // ---- Redeeming an offer ----

  /** What the issuer answers to one Credential Request. */
  datatype Answer = Failed | Deferred | Issued(credentials: seq<Received>)

  /** A credential of a response, and the clock reading it is checked at. */
  datatype Received = Received(payload: string, now: nat)

  datatype Redeemed = Redeemed(configId: string, credentialType: string, payload: string)

  const GENERIC_TYPE: string := "VerifiableCredential"

  predicate IsSpecific(t: Option<string>) {
    t.Some? && t.value != "VerifiableCredential"
  }

  /** `t` stands at `k` and no specific type stands after it. */
  ghost predicate LastSpecificAt(types: seq<Option<string>>, t: string, k: int) {
    && 0 <= k < |types| && types[k] == Some(t) && IsSpecific(types[k])
    && forall m :: k < m < |types| ==> !IsSpecific(types[m])
  }

  /** The last specific type in the list. */
  function LastSpecific(types: seq<Option<string>>): (r: Option<string>)
    ensures r.Some? ==> exists k :: LastSpecificAt(types, r.value, k)
    ensures r.None? ==> forall k :: 0 <= k < |types| ==> !IsSpecific(types[k])
  {
    if types == [] then
      None
    else
      var last := types[|types| - 1];
      if last.Some? && last.value != GENERIC_TYPE then
        assert LastSpecificAt(types, last.value, |types| - 1);
        last
      else
        var front := types[..|types| - 1];
        assert forall k :: 0 <= k < |front| ==> front[k] == types[k];
        assert forall t, k :: LastSpecificAt(front, t, k) ==> LastSpecificAt(types, t, k);
        LastSpecific(front)
  }

  /**
   A credential the wallet takes: it decodes and lists a specific type, names its issuer and key, is the
   genuine work of a trusted issuer that can be reached, is bound to this service, and has not expired.
   */
  ghost predicate Redeemable(w: World, payload: string, now: nat) {
    && w.facts(payload).Some?
    && var f := w.facts(payload).value;
       && f.types.ManyTypes? && (exists k :: 0 <= k < |f.types.types| && IsSpecific(f.types.types[k]))
       && f.iss.Some? && f.kid.Some? && f.iss.value in w.trusted
       && w.reachable(payload) && w.genuine(payload)
       && (f.sub == Some(w.ownDid) || (f.sub == None && f.subjectId == Some(w.ownDid)))
       && (forall e :: f.window.exp == Some(e) ==> now < e)
  }

  /** The last specific type the credential lists. */
  ghost predicate FiledUnder(w: World, payload: string, t: string) {
    && w.facts(payload).Some? && w.facts(payload).value.types.ManyTypes?
    && exists k :: LastSpecificAt(w.facts(payload).value.types.types, t, k)
  }

  /** The type an issued credential is filed under, if it passes. */
  function Accept(w: World, payload: string, now: nat): (r: Option<string>)
    ensures r.Some? <==> Redeemable(w, payload, now)
    ensures r.Some? ==> Vouched(w, Credential(r.value, FORMAT_JWT_VC_JSON, payload)) && FiledUnder(w, payload, r.value)
  {
    match w.facts(payload)
    case None => None
    case Some(f) =>
      if !f.types.ManyTypes? then None
      else
        match LastSpecific(f.types.types)
        case None => None
        case Some(t) =>
          if (if f.iss.Some? then f.iss.value else "") !in w.trusted then None
          else if f.iss.None? || f.kid.None? || !w.reachable(payload) || !w.genuine(payload) then None
          else if Subject(f) != Some(w.ownDid) then None
          else if f.window.exp.Some? && f.window.exp.value <= now then None
          else Some(t)
  }

  /** The credentials of one response, accepted one by one; the first that fails fails them all. */
  function OfCredentials(w: World, configId: string, creds: seq<Received>): Option<seq<Redeemed>> {
    if creds == [] then
      Some([])
    else
      var last := creds[|creds| - 1];
      match OfCredentials(w, configId, creds[..|creds| - 1])
      case None => None
      case Some(done) =>
        match Accept(w, last.payload, last.now)
        case None => None
        case Some(t) => Some(done + [Redeemed(configId, t, last.payload)])
  }

  /** One request: nothing is kept of a format that cannot be presented. */
  function OfAnswer(w: World, configId: string, format: string, answer: Answer): Option<seq<Redeemed>> {
    match answer
    case Failed => None
    case Deferred => None
    case Issued(creds) =>
      if creds == [] then None
      else if format != FORMAT_JWT_VC_JSON then Some([])
      else OfCredentials(w, configId, creds)
  }

  function OfAnswers(w: World, configId: string, format: string, answers: seq<Answer>): Option<seq<Redeemed>> {
    if answers == [] then
      Some([])
    else
      match OfAnswers(w, configId, format, answers[..|answers| - 1])
      case None => None
      case Some(done) =>
        match OfAnswer(w, configId, format, answers[|answers| - 1])
        case None => None
        case Some(more) => Some(done + more)
  }

  /** One configuration, with the issuer's answers to the requests made for it. */
  function OfPart(w: World, formats: map<string, string>, part: (string, seq<Answer>)): Option<seq<Redeemed>> {
    if part.0 in formats then OfAnswers(w, part.0, formats[part.0], part.1) else None
  }

  /** The whole offer. */
  function OfOffer(w: World, formats: map<string, string>, offer: seq<(string, seq<Answer>)>): Option<seq<Redeemed>> {
    if offer == [] then
      Some([])
    else
      match OfOffer(w, formats, offer[..|offer| - 1])
      case None => None
      case Some(done) =>
        match OfPart(w, formats, offer[|offer| - 1])
        case None => None
        case Some(more) => Some(done + more)
  }

  // ---- What a redemption stores, and when it fails ----

  ghost predicate AnswerOk(w: World, format: string, answer: Answer) {
    && answer.Issued? && answer.credentials != []
    && (format == "jwt_vc_json" ==>
         forall k :: 0 <= k < |answer.credentials| ==>
           Redeemable(w, answer.credentials[k].payload, answer.credentials[k].now))
  }

  /** A configuration the issuer describes, with nothing but acceptable answers. */
  ghost predicate PartOk(w: World, formats: map<string, string>, part: (string, seq<Answer>)) {
    part.0 in formats && forall k :: 0 <= k < |part.1| ==> AnswerOk(w, formats[part.0], part.1[k])
  }

  ghost predicate OfferOk(w: World, formats: map<string, string>, offer: seq<(string, seq<Answer>)>) {
    forall k :: 0 <= k < |offer| ==> PartOk(w, formats, offer[k])
  }

  lemma OfferOkSplits(w: World, formats: map<string, string>, offer: seq<(string, seq<Answer>)>)
    requires offer != []
    ensures OfferOk(w, formats, offer) <==>
      OfferOk(w, formats, offer[..|offer| - 1]) && PartOk(w, formats, offer[|offer| - 1])
  {
    assert forall k :: 0 <= k < |offer| - 1 ==> offer[..|offer| - 1][k] == offer[k];
  }

  /** One credential received, with the configuration it was received for. */
  datatype Receipt = Receipt(configId: string, credential: Received)

  function CredentialReceipts(configId: string, creds: seq<Received>): (r: seq<Receipt>)
    ensures |r| == |creds| && forall k :: 0 <= k < |creds| ==> r[k] == Receipt(configId, creds[k])
  {
    if creds == [] then []
    else CredentialReceipts(configId, creds[..|creds| - 1]) + [Receipt(configId, creds[|creds| - 1])]
  }

  function AnswerReceipts(configId: string, answers: seq<Answer>): seq<Receipt> {
    if answers == [] then []
    else
      var last := answers[|answers| - 1];
      AnswerReceipts(configId, answers[..|answers| - 1])
      + if last.Issued? then CredentialReceipts(configId, last.credentials) else []
  }

  function PartReceipts(formats: map<string, string>, part: (string, seq<Answer>)): seq<Receipt> {
    if part.0 in formats && formats[part.0] == "jwt_vc_json" then AnswerReceipts(part.0, part.1) else []
  }

  /** Everything received in the format that can be presented, in order. */
  function OfferReceipts(formats: map<string, string>, offer: seq<(string, seq<Answer>)>): seq<Receipt> {
    if offer == [] then []
    else OfferReceipts(formats, offer[..|offer| - 1]) + PartReceipts(formats, offer[|offer| - 1])
  }

  /** What was stored for a receipt: acceptable at its own clock reading, and filed under its last specific type. */
  ghost predicate StoredFor(w: World, r: Redeemed, c: Receipt) {
    && r.configId == c.configId && r.payload == c.credential.payload
    && Redeemable(w, c.credential.payload, c.credential.now)
    && FiledUnder(w, c.credential.payload, r.credentialType)
  }

  ghost predicate AllStored(w: World, stored: seq<Redeemed>, receipts: seq<Receipt>) {
    |stored| == |receipts| && forall k :: 0 <= k < |stored| ==> StoredFor(w, stored[k], receipts[k])
  }

  lemma AllStoredConcat(w: World, a: seq<Redeemed>, b: seq<Redeemed>, ra: seq<Receipt>, rb: seq<Receipt>)
    requires AllStored(w, a, ra) && AllStored(w, b, rb)
    ensures AllStored(w, a + b, ra + rb)
  {
  }

  lemma {:induction false} CredentialsExactly(w: World, configId: string, creds: seq<Received>)
    ensures OfCredentials(w, configId, creds).Some? <==>
      forall k :: 0 <= k < |creds| ==> Redeemable(w, creds[k].payload, creds[k].now)
    ensures OfCredentials(w, configId, creds).Some? ==>
      AllStored(w, OfCredentials(w, configId, creds).value, CredentialReceipts(configId, creds))
    decreases |creds|
  {
    if creds != [] {
      var front := creds[..|creds| - 1];
      CredentialsExactly(w, configId, front);
      assert forall k :: 0 <= k < |front| ==> front[k] == creds[k];
    }
  }

  lemma AnswerExactly(w: World, configId: string, format: string, answer: Answer)
    ensures OfAnswer(w, configId, format, answer).Some? <==> AnswerOk(w, format, answer)
    ensures OfAnswer(w, configId, format, answer).Some? ==>
      AllStored(w, OfAnswer(w, configId, format, answer).value,
                if format == "jwt_vc_json" then CredentialReceipts(configId, answer.credentials) else [])
  {
    if answer.Issued? {
      CredentialsExactly(w, configId, answer.credentials);
    }
  }

  lemma {:induction false} AnswersExactly(w: World, configId: string, format: string, answers: seq<Answer>)
    ensures OfAnswers(w, configId, format, answers).Some? <==>
      forall k :: 0 <= k < |answers| ==> AnswerOk(w, format, answers[k])
    ensures OfAnswers(w, configId, format, answers).Some? ==>
      AllStored(w, OfAnswers(w, configId, format, answers).value,
                if format == "jwt_vc_json" then AnswerReceipts(configId, answers) else [])
    decreases |answers|
  {
    if answers != [] {
      var front, last := answers[..|answers| - 1], answers[|answers| - 1];
      AnswersExactly(w, configId, format, front);
      assert forall k :: 0 <= k < |front| ==> front[k] == answers[k];
      AnswersNext(w, configId, format, front, last);
    }
  }

  lemma AnswersNext(w: World, configId: string, format: string, front: seq<Answer>, last: Answer)
    requires OfAnswers(w, configId, format, front).Some? ==>
      AllStored(w, OfAnswers(w, configId, format, front).value,
                if format == "jwt_vc_json" then AnswerReceipts(configId, front) else [])
    ensures OfAnswer(w, configId, format, last).Some? <==> AnswerOk(w, format, last)
    ensures OfAnswers(w, configId, format, front).Some? && OfAnswer(w, configId, format, last).Some? ==>
      AllStored(w, OfAnswers(w, configId, format, front).value + OfAnswer(w, configId, format, last).value,
                if format == "jwt_vc_json"
                then AnswerReceipts(configId, front) + CredentialReceipts(configId, last.credentials) else [])
  {
    AnswerExactly(w, configId, format, last);
    var before, more := OfAnswers(w, configId, format, front), OfAnswer(w, configId, format, last);
    if before.Some? && more.Some? {
      var presentable := format == "jwt_vc_json";
      AllStoredConcat(w, before.value, more.value,
                      if presentable then AnswerReceipts(configId, front) else [],
                      if presentable then CredentialReceipts(configId, last.credentials) else []);
    }
  }

  /**
   A redemption fails exactly when some configuration is unknown, some answer is no nonempty issuance, or
   some credential in the presentable format is not acceptable. Otherwise it stores, in order, exactly the
   credentials received in that format.
   */
  lemma {:induction false} OfferExactly(w: World, formats: map<string, string>, offer: seq<(string, seq<Answer>)>)
    ensures OfOffer(w, formats, offer).Some? <==> OfferOk(w, formats, offer)
    ensures OfOffer(w, formats, offer).Some? ==>
      AllStored(w, OfOffer(w, formats, offer).value, OfferReceipts(formats, offer))
    decreases |offer|
  {
    if offer != [] {
      var front, last := offer[..|offer| - 1], offer[|offer| - 1];
      OfferExactly(w, formats, front);
      PartExactly(w, formats, last);
      OfferOkSplits(w, formats, offer);
      var before, more := OfOffer(w, formats, front), OfPart(w, formats, last);
      if before.Some? && more.Some? {
        AllStoredConcat(w, before.value, more.value, OfferReceipts(formats, front), PartReceipts(formats, last));
      }
    }
  }

  lemma PartExactly(w: World, formats: map<string, string>, part: (string, seq<Answer>))
    ensures OfPart(w, formats, part).Some? <==> PartOk(w, formats, part)
    ensures OfPart(w, formats, part).Some? ==>
      AllStored(w, OfPart(w, formats, part).value, PartReceipts(formats, part))
  {
    if part.0 in formats {
      AnswersExactly(w, part.0, formats[part.0], part.1);
    }
  }

  /** Once one part has failed, nothing after it mends the whole. */
  lemma {:induction false} CredentialsFail(w: World, configId: string, creds: seq<Received>, n: nat)
    requires n <= |creds| && OfCredentials(w, configId, creds[..n]).None?
    ensures OfCredentials(w, configId, creds).None?
    decreases |creds| - n
  {
    if n < |creds| {
      assert creds[..n + 1][..n] == creds[..n];
      CredentialsFail(w, configId, creds, n + 1);
    } else {
      assert creds[..n] == creds;
    }
  }

  lemma {:induction false} AnswersFail(w: World, configId: string, format: string, answers: seq<Answer>, n: nat)
    requires n <= |answers| && OfAnswers(w, configId, format, answers[..n]).None?
    ensures OfAnswers(w, configId, format, answers).None?
    decreases |answers| - n
  {
    if n < |answers| {
      assert answers[..n + 1][..n] == answers[..n];
      AnswersFail(w, configId, format, answers, n + 1);
    } else {
      assert answers[..n] == answers;
    }
  }

  lemma {:induction false} OfferFails(w: World, formats: map<string, string>, offer: seq<(string, seq<Answer>)>, n: nat)
    requires n <= |offer| && OfOffer(w, formats, offer[..n]).None?
    ensures OfOffer(w, formats, offer).None?
    decreases |offer| - n
  {
    if n < |offer| {
      assert offer[..n + 1][..n] == offer[..n];
      OfferFails(w, formats, offer, n + 1);
    } else {
      assert offer[..n] == offer;
    }
  }

  function Container(r: Redeemed): Entry {
    Credential(r.credentialType, FORMAT_JWT_VC_JSON, r.payload)
  }

  function Containers(stored: seq<Redeemed>): (cs: seq<Entry>)
    ensures |cs| == |stored| && forall k :: 0 <= k < |stored| ==> cs[k] == Container(stored[k])
  {
    if stored == [] then [] else Containers(stored[..|stored| - 1]) + [Container(stored[|stored| - 1])]
  }

  ghost predicate RedeemedOk(w: World, stored: seq<Redeemed>) {
    forall k :: 0 <= k < |stored| ==> Vouched(w, Container(stored[k]))
  }

  /** The innermost loop. */
  method TakeCredentials(w: World, configId: string, creds: seq<Received>) returns (r: Option<seq<Redeemed>>)
    ensures r == OfCredentials(w, configId, creds)
    ensures r.Some? ==> RedeemedOk(w, r.value)
  {
    var done: seq<Redeemed> := [];
    for n := 0 to |creds|
      invariant OfCredentials(w, configId, creds[..n]) == Some(done) && RedeemedOk(w, done)
    {
      assert creds[..n + 1][..n] == creds[..n];
      var t := Accept(w, creds[n].payload, creds[n].now);
      if t.None? {
        CredentialsFail(w, configId, creds, n + 1);
        return None;
      }
      done := done + [Redeemed(configId, t.value, creds[n].payload)];
    }
    assert creds[..|creds|] == creds;
    return Some(done);
  }

  /** The loop over the requests made for one configuration. */
  method TakeAnswers(w: World, configId: string, format: string,
                     answers: seq<Answer>) returns (r: Option<seq<Redeemed>>)
    ensures r == OfAnswers(w, configId, format, answers)
    ensures r.Some? ==> RedeemedOk(w, r.value)
  {
    var done: seq<Redeemed> := [];
    for n := 0 to |answers|
      invariant OfAnswers(w, configId, format, answers[..n]) == Some(done) && RedeemedOk(w, done)
    {
      assert answers[..n + 1][..n] == answers[..n];
      if !answers[n].Issued? || answers[n].credentials == [] {
        AnswersFail(w, configId, format, answers, n + 1);
        return None;
      }
      if format != FORMAT_JWT_VC_JSON {
        assert done + [] == done;
        continue;
      }
      var more := TakeCredentials(w, configId, answers[n].credentials);
      if more.None? {
        AnswersFail(w, configId, format, answers, n + 1);
        return None;
      }
      done := done + more.value;
    }
    assert answers[..|answers|] == answers;
    return Some(done);
  }

  /** The outer loop, over the configurations of the offer. */
  method TakeOffer(w: World, formats: map<string, string>, offer: seq<(string, seq<Answer>)>)
      returns (r: Option<seq<Redeemed>>)
    ensures r == OfOffer(w, formats, offer)
    ensures r.Some? ==> RedeemedOk(w, r.value)
  {
    var stored: seq<Redeemed> := [];
    for n := 0 to |offer|
      invariant OfOffer(w, formats, offer[..n]) == Some(stored) && RedeemedOk(w, stored)
    {
      assert offer[..n + 1][..n] == offer[..n];
      var (configId, answers) := offer[n];
      if configId !in formats {
        OfferFails(w, formats, offer, n + 1);
        return None;
      }
      var more := TakeAnswers(w, configId, formats[configId], answers);
      if more.None? {
        OfferFails(w, formats, offer, n + 1);
        return None;
      }
      stored := stored + more.value;
    }
    assert offer[..|offer|] == offer;
    return Some(stored);
  }

  /**
   Redeeming an offer: all or nothing. A failure anywhere in the nested loops leaves the store as it
   was; a success stores the accepted credentials as one batch in the order reported, or no batch
   when there are none.
   */
  method Redeem(w: World, graph: CredentialGraph, formats: map<string, string>, offer: seq<(string, seq<Answer>)>,
                id: string, issuerPid: string)
      returns (r: Option<seq<Redeemed>>)
    requires graph.Valid() && AllVouched(w, graph.allBatches)
    modifies graph
    ensures graph.Valid() && AllVouched(w, graph.allBatches)
    ensures r.Some? <==> OfferOk(w, formats, offer)
    ensures r.Some? ==> AllStored(w, r.value, OfferReceipts(formats, offer))
    ensures r.None? || r.value == [] ==> graph.quads == old(graph.quads) && graph.allBatches == old(graph.allBatches)
    ensures r.Some? && r.value != [] ==>
      var head := BatchHead(id, issuerPid, None, ISSUED, None);
      graph.allBatches == old(graph.allBatches) + [Item(head, Containers(r.value))]
    ensures graph.allOffers == old(graph.allOffers)
  {
    r := TakeOffer(w, formats, offer);
    OfferExactly(w, formats, offer);
    if r.Some? && r.value != [] {
      var containers := Containers(r.value);
      VouchedMore(w, graph.allBatches, Item(BatchHead(id, issuerPid, None, ISSUED, None), containers));
      graph.AddBatch(id, issuerPid, None, ISSUED, None, containers);
    }
  }

  /** Whatever the writers did, everything the store can still show is vouched for. */
  lemma KeptIsVouched(w: World, all: seq<Item>, cap: nat)
    requires AllVouched(w, all)
    ensures AllVouched(w, Last(all, cap))
  {
    var kept := Last(all, cap);
    forall i, k | 0 <= i < |kept| && 0 <= k < |kept[i].children|
      ensures Vouched(w, kept[i].children[k])
    {
      assert kept[i] == all[i + |all| - |kept|];
    }
  }
}
