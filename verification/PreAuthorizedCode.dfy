/**
 The issuer side of the pre-authorized code flow (sections 4.1, 6, 7 and 8 of OID4VCI 1.0) as
 interleaved steps over its four tables, each behind its own lock. A handler that takes two locks one
 after the other is a task between them. Clock readings, proofs and the catalog are free.

 `offered`, `soldAs`, `usedOffers`, `usedNonces` and `answers` are history: no step reads them.
 */
module PreAuthorizedCode {
  import opened Prelude
  import opened ExpiringTables

  const MAX_OID4VCI_ENTRIES: nat := 2048
  const OFFER_TTL_SECS: nat := 600
  const ACCESS_TOKEN_TTL_SECS: nat := 300
  const NONCE_TTL_SECS: nat := 300
  const MAX_TX_CODE_ATTEMPTS: nat := 3

  datatype Grant = Grant(ids: seq<string>, txCode: Option<string>, failed: nat)

  /** What the operator set for a code. */
  datatype Terms = Terms(ids: seq<string>, txCode: Option<string>)

  datatype OfferDoc = OfferDoc(code: string, ids: seq<string>, asksTxCode: bool)

  datatype Task =
    | Offering(code: string, ids: seq<string>, txCode: Option<string>)
    | Granting(code: string, ids: seq<string>, given: Option<string>)
    | Authorized(token: string, ids: seq<string>)
    | Proven(token: string, configId: string, nonce: string)
    | Done

  /** What callers were told, oldest first. */
  datatype Answer =
    | OfferServed(offerId: string, doc: OfferDoc)
    | WrongTxCode(code: string)
    | TokenSent(token: string, code: string, given: Option<string>)
    | NonceAccepted(nonce: string)
    | CredentialSent(configId: string, token: string, nonce: string)

  datatype Issuer = Issuer(
    offers: Table<OfferDoc>,
    codes: Table<Grant>,
    tokens: Table<seq<string>>,
    nonces: Table<()>,
    poisoned: bool,
    tasks: seq<Task>,
    offered: map<string, Terms>,
    soldAs: map<string, string>,
    usedOffers: set<string>,
    usedNonces: set<string>,
    answers: seq<Answer>)

  function Fresh<V>(): Table<V> {
    Table(map[], [], MAX_OID4VCI_ENTRIES)
  }

  function Start(): Issuer {
    Issuer(Fresh(), Fresh(), Fresh(), Fresh(), false, [], map[], map[], {}, {}, [])
  }

  // ---- The token endpoint's critical section ----

  datatype TokenReply =
    | InvalidGrant
    | TxCodeUnexpected
    | TxCodeRequired
    | TxCodeWrong
    | Granted(ids: seq<string>)
    | Panicked

  /** The lock is held throughout, but the clock is read twice: by the lookup and again by the removal. */
  function TokenSection(codes: Table<Grant>, code: string, given: Option<string>, now: nat, later: nat)
    : (Table<Grant>, TokenReply)
  {
    if !LiveAt(codes, code, now) then
      (Seen(codes, code, now), InvalidGrant)
    else
      var Timed(exp, grant) := codes.entries[code];
      if grant.txCode.None? && given.Some? then
        (codes, TxCodeUnexpected)
      else if grant.txCode.Some? && given.None? then
        (codes, TxCodeRequired)
      else if grant.txCode != given then
        if grant.failed + 1 >= MAX_TX_CODE_ATTEMPTS then
          (Taken(codes, code), TxCodeWrong)
        else
          (Written(codes, code, grant.(failed := grant.failed + 1)), TxCodeWrong)
      else
        (Taken(codes, code), if later < exp then Granted(grant.ids) else Panicked)
  }

  /** The code is there and has not expired at `now`, under this grant. */
  ghost predicate HoldsAt(codes: Table<Grant>, code: string, grant: Grant, exp: nat, now: nat) {
    code in codes.entries && codes.entries[code] == Timed(exp, grant) && now < exp
  }

  /**
   What the token endpoint answers, exactly. In particular a token is granted only for the Transaction Code
   the operator set, or for none where none was set.
   */
  lemma RepliesExactly(codes: Table<Grant>, code: string, given: Option<string>, now: nat, later: nat)
    ensures var reply := TokenSection(codes, code, given, now, later).1;
      && (reply.InvalidGrant? <==> forall grant, exp: nat :: !HoldsAt(codes, code, grant, exp, now))
      && forall grant, exp: nat :: HoldsAt(codes, code, grant, exp, now) ==>
           && (reply.Granted? <==> grant.txCode == given && later < exp)
           && (reply.Granted? ==> reply.ids == grant.ids)
           && (reply.Panicked? <==> grant.txCode == given && exp <= later)
           && (reply.TxCodeRequired? <==> grant.txCode.Some? && given.None?)
           && (reply.TxCodeUnexpected? <==> grant.txCode.None? && given.Some?)
           && (reply.TxCodeWrong? <==> grant.txCode.Some? && given.Some? && grant.txCode != given)
  {
    if code in codes.entries {
      var Timed(exp, grant) := codes.entries[code];
      assert now < exp ==> HoldsAt(codes, code, grant, exp, now);
    }
  }

  /**
   And what becomes of the table. Other codes are never touched. An answer that asks for another
   Transaction Code leaves this one as it was; a wrong guess counts, and the third takes it out; a grant
   takes it out.
   */
  lemma SectionEffect(codes: Table<Grant>, code: string, given: Option<string>, now: nat, later: nat)
    ensures var (codes', reply) := TokenSection(codes, code, given, now, later);
      && codes'.order == codes.order && codes'.capacity == codes.capacity
      && (forall other :: other != code ==>
           && (other in codes'.entries <==> other in codes.entries)
           && (other in codes.entries ==> codes'.entries[other] == codes.entries[other]))
      && (reply.TxCodeRequired? || reply.TxCodeUnexpected? ==> codes' == codes)
      && (reply.InvalidGrant? || reply.Granted? || reply.Panicked? ==> code !in codes'.entries)
      && (reply.TxCodeWrong? ==>
           && code in codes.entries
           && var Timed(exp, grant) := codes.entries[code];
              if grant.failed < 2
              then code in codes'.entries && codes'.entries[code] == Timed(exp, grant.(failed := grant.failed + 1))
              else code !in codes'.entries)
  {
  }

  /** The handler panics, with the lock held, exactly when the code expires between its two clock readings. */
  lemma PanicsWhenCodeExpiresBetween(codes: Table<Grant>, code: string, given: Option<string>, now: nat, later: nat)
    ensures TokenSection(codes, code, given, now, later).1.Panicked? <==>
      && code in codes.entries
      && codes.entries[code].value.txCode == given
      && now < codes.entries[code].exp <= later
  {
  }

  // ---- Steps ----

  datatype Event =
    | CreateCode(supported: set<string>, ids: seq<string>, txCode: Option<string>, code: string, now: nat)
    | PublishOffer(i: nat, offerId: string, now: nat)
    | FetchOffer(offerId: string, now: nat)
    | RequestToken(code: string, given: Option<string>, now: nat, later: nat)
    | SendToken(i: nat, token: string, now: nat)
    | RequestNonce(nonce: string, now: nat)
    | Authorize(token: string, now: nat)
    | Prove(i: nat, configId: string, supported: set<string>, proofOk: bool, proofNonce: Option<string>, now: nat)
    | SendCredential(i: nat, denied: bool)

  function Answered(s: Issuer, a: Answer): Issuer {
    s.(answers := s.answers + [a])
  }

  function SetTask(s: Issuer, i: nat, t: Task): Issuer
    requires i < |s.tasks|
  {
    s.(tasks := s.tasks[i := t])
  }

  /** The operator's offer: the code first. A poisoned lock fails the request. */
  function CreateCodeStep(s: Issuer, supported: set<string>, ids: seq<string>, txCode: Option<string>, code: string,
                          now: nat): Issuer {
    if ids == [] || (exists k :: 0 <= k < |ids| && ids[k] !in supported) || s.poisoned then
      s
    else
      s.(codes := Put(s.codes, code, now + OFFER_TTL_SECS, Grant(ids, txCode, 0)),
         offered := s.offered[code := Terms(ids, txCode)],
         tasks := s.tasks + [Offering(code, ids, txCode)])
  }

  function PublishOfferStep(s: Issuer, i: nat, offerId: string, now: nat): Issuer {
    if i < |s.tasks| && s.tasks[i].Offering? then
      var Offering(code, ids, txCode) := s.tasks[i];
      SetTask(s.(offers := Put(s.offers, offerId, now + OFFER_TTL_SECS, OfferDoc(code, ids, txCode.Some?)),
                 usedOffers := s.usedOffers + {offerId}),
              i, Done)
    else
      s
  }

  function FetchOfferStep(s: Issuer, offerId: string, now: nat): Issuer {
    var s' := s.(offers := Taken(s.offers, offerId));
    if LiveAt(s.offers, offerId, now) then Answered(s', OfferServed(offerId, s.offers.entries[offerId].value)) else s'
  }

  function RequestTokenStep(s: Issuer, code: string, given: Option<string>, now: nat, later: nat): Issuer {
    if s.poisoned then
      s
    else
      var (codes, reply) := TokenSection(s.codes, code, given, now, later);
      var s' := s.(codes := codes);
      match reply
      case TxCodeWrong => Answered(s', WrongTxCode(code))
      case Granted(ids) => s'.(tasks := s.tasks + [Granting(code, ids, given)])
      case Panicked => s'.(poisoned := true)
      case _ => s'
  }

  function SendTokenStep(s: Issuer, i: nat, token: string, now: nat): Issuer {
    if i < |s.tasks| && s.tasks[i].Granting? then
      var Granting(code, ids, given) := s.tasks[i];
      Answered(
        SetTask(s.(tokens := Put(s.tokens, token, now + ACCESS_TOKEN_TTL_SECS, ids), soldAs := s.soldAs[token := code]),
                i, Done),
        TokenSent(token, code, given))
    else
      s
  }

  function RequestNonceStep(s: Issuer, nonce: string, now: nat): Issuer {
    s.(nonces := Put(s.nonces, nonce, now + NONCE_TTL_SECS, ()), usedNonces := s.usedNonces + {nonce})
  }

  function AuthorizeStep(s: Issuer, token: string, now: nat): Issuer {
    var s' := s.(tokens := Seen(s.tokens, token, now));
    if LiveAt(s.tokens, token, now)
    then s'.(tasks := s.tasks + [Authorized(token, s.tokens.entries[token].value)]) else s'
  }

  function ProveStep(s: Issuer, i: nat, configId: string, supported: set<string>, proofOk: bool,
                     nonce: Option<string>, now: nat): Issuer {
    if i < |s.tasks| && s.tasks[i].Authorized? then
      var Authorized(token, ids) := s.tasks[i];
      if configId in supported && configId in ids && proofOk && nonce.Some? then
        var s' := s.(nonces := Taken(s.nonces, nonce.value));
        if LiveAt(s.nonces, nonce.value, now)
        then Answered(SetTask(s', i, Proven(token, configId, nonce.value)), NonceAccepted(nonce.value))
        else SetTask(s', i, Done)
      else
        SetTask(s, i, Done)
    else
      s
  }

  /** The definition may be gone by now, or the holder refused; otherwise the credential is sent. */
  function SendCredentialStep(s: Issuer, i: nat, denied: bool): Issuer {
    if i < |s.tasks| && s.tasks[i].Proven? then
      var Proven(token, configId, nonce) := s.tasks[i];
      if denied then SetTask(s, i, Done)
      else Answered(SetTask(s, i, Done), CredentialSent(configId, token, nonce))
    else
      s
  }

  /** Codes, offer ids, tokens and nonces are random: none is ever minted twice. */
  ghost predicate Enabled(s: Issuer, e: Event) {
    match e
    case CreateCode(_, _, _, code, _) => code !in s.offered
    case PublishOffer(_, offerId, _) => offerId !in s.usedOffers
    case SendToken(_, token, _) => token !in s.soldAs
    case RequestNonce(nonce, _) => nonce !in s.usedNonces
    case _ => true
  }

  function Step(s: Issuer, e: Event): Issuer {
    match e
    case CreateCode(supported, ids, txCode, code, now) => CreateCodeStep(s, supported, ids, txCode, code, now)
    case PublishOffer(i, offerId, now) => PublishOfferStep(s, i, offerId, now)
    case FetchOffer(offerId, now) => FetchOfferStep(s, offerId, now)
    case RequestToken(code, given, now, later) => RequestTokenStep(s, code, given, now, later)
    case SendToken(i, token, now) => SendTokenStep(s, i, token, now)
    case RequestNonce(nonce, now) => RequestNonceStep(s, nonce, now)
    case Authorize(token, now) => AuthorizeStep(s, token, now)
    case Prove(i, configId, supported, proofOk, nonce, now) => ProveStep(s, i, configId, supported, proofOk, nonce, now)
    case SendCredential(i, denied) => SendCredentialStep(s, i, denied)
  }

  function Run(s: Issuer, es: seq<Event>): Issuer
    decreases |es|
  {
    if es == [] then s else Run(Step(s, es[0]), es[1..])
  }

  ghost predicate ValidRun(s: Issuer, es: seq<Event>)
    decreases |es|
  {
    es == [] || (Enabled(s, es[0]) && ValidRun(Step(s, es[0]), es[1..]))
  }

  /** A code created at 0 expires at 600: looked up at 599 and removed at 600, it makes the handler panic. */
  lemma PanicIsPossible()
    ensures var es := [CreateCode({"m"}, ["m"], None, "code", 0), RequestToken("code", None, 599, 600)];
      ValidRun(Start(), es) && Run(Start(), es).poisoned
  {
    var e1, e2 := CreateCode({"m"}, ["m"], None, "code", 0), RequestToken("code", None, 599, 600);
    var none: map<string, Timed<Grant>> := map[];
    AddSize(none, "code", Timed(600, Grant(["m"], None, 0)));
    var s := Step(Start(), e1);
    assert s.codes.entries == none["code" := Timed(600, Grant(["m"], None, 0))];
    assert Step(s, e2).poisoned;
    assert [e1, e2][1..] == [e2] && [e2][1..] == [];
    assert Run(s, [e2]) == Step(s, e2);
  }

  // ---- The invariant ----

  ghost predicate TablesOk(s: Issuer) {
    && TableOk(s.offers) && TableOk(s.codes) && TableOk(s.tokens) && TableOk(s.nonces)
    && s.offers.capacity == s.codes.capacity == s.tokens.capacity == s.nonces.capacity == MAX_OID4VCI_ENTRIES
    && (forall k :: 0 <= k < |s.offers.order| ==> s.offers.order[k] in s.usedOffers)
    && (forall k :: 0 <= k < |s.codes.order| ==> s.codes.order[k] in s.offered)
    && (forall k :: 0 <= k < |s.tokens.order| ==> s.tokens.order[k] in s.soldAs)
    && (forall k :: 0 <= k < |s.nonces.order| ==> s.nonces.order[k] in s.usedNonces)
  }

  function Times(s: Issuer, a: Answer): nat {
    multiset(s.answers)[a]
  }

  /** An unredeemed code: what it grants, how many guesses it has drawn, and that nothing came of it yet. */
  ghost predicate CodeOk(s: Issuer, code: string)
    requires code in s.codes.entries
  {
    var grant := s.codes.entries[code].value;
    && code in s.offered && Terms(grant.ids, grant.txCode) == s.offered[code]
    && Times(s, WrongTxCode(code)) == grant.failed < MAX_TX_CODE_ATTEMPTS
    && Unsold(s, code)
  }

  ghost predicate Unsold(s: Issuer, code: string) {
    && (forall token :: token in s.soldAs ==> s.soldAs[token] != code)
    && (forall i :: 0 <= i < |s.tasks| ==> !(s.tasks[i].Granting? && s.tasks[i].code == code))
  }

  ghost predicate CodesOk(s: Issuer) {
    && (forall code :: code in s.codes.entries ==> CodeOk(s, code))
    && (forall code :: Times(s, WrongTxCode(code)) <= MAX_TX_CODE_ATTEMPTS)
    && (forall code :: code !in s.offered ==> Times(s, WrongTxCode(code)) == 0)
    && (forall code :: code !in s.offered || Burned(s, code) ==> Unsold(s, code))
  }

  /** The code has drawn the last wrong guess it tolerates. */
  ghost predicate Burned(s: Issuer, code: string) {
    Times(s, WrongTxCode(code)) == MAX_TX_CODE_ATTEMPTS
  }

  ghost predicate SoldOk(s: Issuer) {
    && (forall t, u :: t in s.soldAs && u in s.soldAs && s.soldAs[t] == s.soldAs[u] ==> t == u)
    && (forall t :: t in s.soldAs ==> s.soldAs[t] in s.offered)
    && (forall i, t :: 0 <= i < |s.tasks| && t in s.soldAs && s.tasks[i].Granting? ==> s.soldAs[t] != s.tasks[i].code)
    && (forall i, j :: 0 <= i < j < |s.tasks| && s.tasks[i].Granting? && s.tasks[j].Granting? ==>
         s.tasks[i].code != s.tasks[j].code)
    && (forall t :: t in s.tokens.entries ==>
         && t in s.soldAs && s.soldAs[t] in s.offered
         && s.tokens.entries[t].value == s.offered[s.soldAs[t]].ids)
  }

  /** Whether the token covers the configuration, judged by what the operator offered. */
  ghost predicate Covers(s: Issuer, token: string, configId: string) {
    token in s.soldAs && s.soldAs[token] in s.offered && configId in s.offered[s.soldAs[token]].ids
  }

  ghost predicate TaskOk(s: Issuer, t: Task) {
    match t
    case Offering(code, ids, txCode) => code in s.offered && Terms(ids, txCode) == s.offered[code]
    case Granting(code, ids, given) => code in s.offered && Terms(ids, given) == s.offered[code]
    case Authorized(token, ids) =>
      token in s.soldAs && s.soldAs[token] in s.offered && ids == s.offered[s.soldAs[token]].ids
    case Proven(token, configId, _) => Covers(s, token, configId)
    case Done => true
  }

  ghost predicate TasksOk(s: Issuer) {
    forall i :: 0 <= i < |s.tasks| ==> TaskOk(s, s.tasks[i])
  }

  ghost predicate AnswersOk(s: Issuer) {
    forall a :: a in s.answers ==> AnswerOk(s, a)
  }

  ghost predicate AnswerOk(s: Issuer, a: Answer) {
    match a
    case TokenSent(token, code, given) =>
      && token in s.soldAs && s.soldAs[token] == code && Times(s, a) == 1
      && code in s.offered && given == s.offered[code].txCode
    case CredentialSent(configId, token, nonce) => Covers(s, token, configId)
    case _ => true
  }

  ghost predicate OffersOk(s: Issuer) {
    && (forall id :: id in s.offers.entries ==> id in s.usedOffers && Unserved(s, id))
    && (forall id :: id in s.offers.entries ==> OfferDocOk(s, s.offers.entries[id].value))
    && (forall id :: id !in s.usedOffers ==> Unserved(s, id))
    && (forall i, j :: 0 <= i < j < |s.answers| && s.answers[i].OfferServed? && s.answers[j].OfferServed? ==>
         s.answers[i].offerId != s.answers[j].offerId)
    && (forall k :: 0 <= k < |s.answers| && s.answers[k].OfferServed? ==> OfferDocOk(s, s.answers[k].doc))
  }

  ghost predicate Unserved(s: Issuer, id: string) {
    forall k :: 0 <= k < |s.answers| ==> !(s.answers[k].OfferServed? && s.answers[k].offerId == id)
  }

  ghost predicate OfferDocOk(s: Issuer, doc: OfferDoc) {
    && doc.code in s.offered && doc.ids == s.offered[doc.code].ids
    && (doc.asksTxCode <==> s.offered[doc.code].txCode.Some?)
  }

  /** Nothing has come of this nonce. */
  ghost predicate Unspent(s: Issuer, nonce: string) {
    && Times(s, NonceAccepted(nonce)) == 0
    && (forall i :: 0 <= i < |s.tasks| ==> !(s.tasks[i].Proven? && s.tasks[i].nonce == nonce))
    && Unsent(s, nonce)
  }

  ghost predicate Unsent(s: Issuer, nonce: string) {
    forall k :: 0 <= k < |s.answers| ==> !(s.answers[k].CredentialSent? && s.answers[k].nonce == nonce)
  }

  ghost predicate NoncesOk(s: Issuer) {
    && (forall n :: n in s.nonces.entries ==> n in s.usedNonces && Unspent(s, n))
    && (forall n :: n !in s.usedNonces ==> Unspent(s, n))
    && (forall n :: Times(s, NonceAccepted(n)) <= 1)
  }

  ghost predicate CredentialsOk(s: Issuer) {
    && (forall i :: 0 <= i < |s.tasks| && s.tasks[i].Proven? ==> Unsent(s, s.tasks[i].nonce))
    && (forall i :: 0 <= i < |s.tasks| && s.tasks[i].Proven? ==> Times(s, NonceAccepted(s.tasks[i].nonce)) == 1)
    && (forall i, j :: 0 <= i < j < |s.tasks| && s.tasks[i].Proven? && s.tasks[j].Proven? ==>
         s.tasks[i].nonce != s.tasks[j].nonce)
    && (forall i, j :: 0 <= i < j < |s.answers| && s.answers[i].CredentialSent? && s.answers[j].CredentialSent? ==>
         s.answers[i].nonce != s.answers[j].nonce)
  }

  datatype Clause = TheTables | TheCodes | TheSold | TheTasks | TheAnswers | TheOffers | TheNonces | TheCredentials

  ghost predicate Sat(c: Clause, s: Issuer) {
    match c
    case TheTables => TablesOk(s)
    case TheCodes => CodesOk(s)
    case TheSold => SoldOk(s)
    case TheTasks => TasksOk(s)
    case TheAnswers => AnswersOk(s)
    case TheOffers => OffersOk(s)
    case TheNonces => NoncesOk(s)
    case TheCredentials => CredentialsOk(s)
  }

  // ---- The token endpoint in place ----

  /** The critical section: looks the grant up, counts a wrong guess, or takes the grant out. */
  method GrantToken(codes: ExpiringTable<Grant>, code: string, given: Option<string>, now: nat, later: nat)
      returns (reply: TokenReply)
    modifies codes`entries
    ensures (codes.View(), reply) == TokenSection(old(codes.View()), code, given, now, later)
    ensures reply.Granted? <==>
      exists grant, exp: nat ::
        HoldsAt(old(codes.View()), code, grant, exp, now) && grant.txCode == given && later < exp
  {
    RepliesExactly(codes.View(), code, given, now, later);
    var found := codes.Get(code, now);
    match found
    case None => return InvalidGrant;
    case Some(grant) =>
      if grant.txCode.None? && given.Some? {
        return TxCodeUnexpected;
      }
      if grant.txCode.Some? && given.None? {
        return TxCodeRequired;
      }
      if grant.txCode != given {
        if grant.failed + 1 >= MAX_TX_CODE_ATTEMPTS {
          var _ := codes.Take(code, later);
        } else {
          codes.Write(code, grant.(failed := grant.failed + 1));
        }
        return TxCodeWrong;
      }
      var taken := codes.Take(code, later);
      return if taken.Some? then Granted(taken.value.ids) else Panicked;
  }

  ghost predicate Inv(s: Issuer) {
    forall c: Clause :: Sat(c, s)
  }
}
