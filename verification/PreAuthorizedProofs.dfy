/**
 Every step of the pre-authorized code flow keeps the invariant, clause by clause; then what that means for callers.
 */
module PreAuthorizedProofs {
  import opened Prelude
  import opened ExpiringTables
  import opened PreAuthorizedCode

  // ---- Tables ----

  ghost predicate Known<V>(t: Table<V>, used: set<string>) {
    TableOk(t) && t.capacity == MAX_OID4VCI_ENTRIES && forall k :: 0 <= k < |t.order| ==> t.order[k] in used
  }

  lemma PutKnown<V>(t: Table<V>, used: set<string>, key: string, exp: nat, v: V)
    requires Known(t, used) && key !in used
    ensures Known(Put(t, key, exp, v), used + {key})
  {
    PutRefinesList(t, key, exp, v);
    PutOrder(t, used, key, exp, v);
  }

  lemma PutOrder<V>(t: Table<V>, used: set<string>, key: string, exp: nat, v: V)
    requires forall k :: 0 <= k < |t.order| ==> t.order[k] in used
    ensures Put(t, key, exp, v).capacity == t.capacity
    ensures forall k :: 0 <= k < |Put(t, key, exp, v).order| ==> Put(t, key, exp, v).order[k] in used + {key}
  {
    PutEntries(t, key, exp, v);
    forall k | 0 <= k < |Put(t, key, exp, v).order|
      ensures Put(t, key, exp, v).order[k] in used + {key}
    {
      assert Put(t, key, exp, v).order[k] in Put(t, key, exp, v).order;
    }
  }

  lemma TakenKnown<V>(t: Table<V>, used: set<string>, key: string, now: nat)
    requires Known(t, used)
    ensures Known(Taken(t, key), used) && Known(Seen(t, key, now), used)
  {
    TakenOk(t, key);
  }

  lemma TokenSectionKnown(t: Table<Grant>, used: set<string>, code: string, given: Option<string>, now: nat, later: nat)
    requires Known(t, used)
    ensures Known(TokenSection(t, code, given, now, later).0, used)
  {
    TakenKnown(t, used, code, now);
    if code in t.entries {
      var Timed(exp, grant) := t.entries[code];
      AddSize(t.entries, code, Timed(exp, grant.(failed := grant.failed + 1)));
    }
  }

  ghost predicate AllKnown(s: Issuer) {
    && Known(s.offers, s.usedOffers) && Known(s.codes, s.offered.Keys)
    && Known(s.tokens, s.soldAs.Keys) && Known(s.nonces, s.usedNonces)
  }

  lemma TablesKeep(s: Issuer, e: Event)
    requires Inv(s) && Enabled(s, e)
    ensures Sat(TheTables, Step(s, e))
  {
    assert Sat(TheTables, s);
    assert AllKnown(s);
    KnownKeeps(s, e);
    assert AllKnown(Step(s, e));
  }

  lemma KnownKeeps(s: Issuer, e: Event)
    requires AllKnown(s) && Enabled(s, e)
    ensures AllKnown(Step(s, e))
  {
    OffersKnown(s, e);
    CodesKnown(s, e);
    TokensKnown(s, e);
    NoncesKnown(s, e);
  }

  lemma OffersKnown(s: Issuer, e: Event)
    requires Known(s.offers, s.usedOffers) && Enabled(s, e)
    ensures Known(Step(s, e).offers, Step(s, e).usedOffers)
  {
    match e
    case PublishOffer(i, offerId, now) => PublishKnown(s, i, offerId, now);
    case FetchOffer(offerId, now) => FetchKnown(s, offerId, now);
    case _ => OffersFrame(s, e);
  }

  lemma PublishKnown(s: Issuer, i: nat, offerId: string, now: nat)
    requires Known(s.offers, s.usedOffers) && offerId !in s.usedOffers
    ensures var s' := PublishOfferStep(s, i, offerId, now); Known(s'.offers, s'.usedOffers)
  {
    if i < |s.tasks| && s.tasks[i].Offering? {
      var Offering(code, ids, txCode) := s.tasks[i];
      PutKnown(s.offers, s.usedOffers, offerId, now + OFFER_TTL_SECS, OfferDoc(code, ids, txCode.Some?));
    }
  }

  lemma FetchKnown(s: Issuer, offerId: string, now: nat)
    requires Known(s.offers, s.usedOffers)
    ensures var s' := FetchOfferStep(s, offerId, now); Known(s'.offers, s'.usedOffers)
  {
    TakenKnown(s.offers, s.usedOffers, offerId, now);
  }

  lemma OffersFrame(s: Issuer, e: Event)
    requires !e.PublishOffer? && !e.FetchOffer?
    ensures Step(s, e).offers == s.offers && Step(s, e).usedOffers == s.usedOffers
  {
    match e
    case CreateCode(_, _, _, _, _) =>
    case RequestToken(_, _, _, _) =>
    case SendToken(_, _, _) =>
    case RequestNonce(_, _) =>
    case Authorize(_, _) =>
    case Prove(_, _, _, _, _, _) =>
    case SendCredential(_, _) =>
  }

  lemma CreateCodeKnown(s: Issuer, supported: set<string>, ids: seq<string>, txCode: Option<string>, code: string,
                        now: nat)
    requires Known(s.codes, s.offered.Keys) && code !in s.offered
    ensures var s' := CreateCodeStep(s, supported, ids, txCode, code, now); Known(s'.codes, s'.offered.Keys)
  {
    PutKnown(s.codes, s.offered.Keys, code, now + OFFER_TTL_SECS, Grant(ids, txCode, 0));
    assert s.offered[code := Terms(ids, txCode)].Keys == s.offered.Keys + {code};
  }

  lemma CodesKnown(s: Issuer, e: Event)
    requires Known(s.codes, s.offered.Keys) && Enabled(s, e)
    ensures Known(Step(s, e).codes, Step(s, e).offered.Keys)
  {
    match e
    case CreateCode(supported, ids, txCode, code, now) => CreateCodeKnown(s, supported, ids, txCode, code, now);
    case RequestToken(code, given, now, later) => TokenSectionKnown(s.codes, s.offered.Keys, code, given, now, later);
    case _ => CodesFrame(s, e);
  }

  lemma SendTokenKnown(s: Issuer, i: nat, token: string, now: nat)
    requires Known(s.tokens, s.soldAs.Keys) && token !in s.soldAs
    ensures var s' := SendTokenStep(s, i, token, now); Known(s'.tokens, s'.soldAs.Keys)
  {
    if i < |s.tasks| && s.tasks[i].Granting? {
      PutKnown(s.tokens, s.soldAs.Keys, token, now + ACCESS_TOKEN_TTL_SECS, s.tasks[i].ids);
      assert s.soldAs[token := s.tasks[i].code].Keys == s.soldAs.Keys + {token};
    }
  }

  lemma TokensFrame(s: Issuer, e: Event)
    requires !e.SendToken? && !e.Authorize?
    ensures Step(s, e).tokens == s.tokens && Step(s, e).soldAs == s.soldAs
  {
    match e
    case CreateCode(_, _, _, _, _) =>
    case PublishOffer(_, _, _) =>
    case FetchOffer(_, _) =>
    case RequestToken(_, _, _, _) =>
    case RequestNonce(_, _) =>
    case Prove(_, _, _, _, _, _) =>
    case SendCredential(_, _) =>
  }

  lemma TokensKnown(s: Issuer, e: Event)
    requires Known(s.tokens, s.soldAs.Keys) && Enabled(s, e)
    ensures Known(Step(s, e).tokens, Step(s, e).soldAs.Keys)
  {
    match e
    case SendToken(i, token, now) => SendTokenKnown(s, i, token, now);
    case Authorize(token, now) => TakenKnown(s.tokens, s.soldAs.Keys, token, now);
    case _ => TokensFrame(s, e);
  }

  lemma NoncesKnown(s: Issuer, e: Event)
    requires Known(s.nonces, s.usedNonces) && Enabled(s, e)
    ensures Known(Step(s, e).nonces, Step(s, e).usedNonces)
  {
    match e
    case RequestNonce(nonce, now) => PutKnown(s.nonces, s.usedNonces, nonce, now + NONCE_TTL_SECS, ());
    case Prove(i, configId, supported, proofOk, nonce, now) =>
      ProveKnown(s, i, configId, supported, proofOk, nonce, now);
    case _ => NoncesFrame(s, e);
  }

  lemma ProveKnown(s: Issuer, i: nat, configId: string, supported: set<string>, proofOk: bool, nonce: Option<string>,
                   now: nat)
    requires Known(s.nonces, s.usedNonces)
    ensures var s' := ProveStep(s, i, configId, supported, proofOk, nonce, now); Known(s'.nonces, s'.usedNonces)
  {
    if nonce.Some? {
      TakenKnown(s.nonces, s.usedNonces, nonce.value, now);
    }
  }

  lemma NoncesFrame(s: Issuer, e: Event)
    requires !e.RequestNonce? && !e.Prove?
    ensures Step(s, e).nonces == s.nonces && Step(s, e).usedNonces == s.usedNonces
  {
    match e
    case CreateCode(_, _, _, _, _) =>
    case PublishOffer(_, _, _) =>
    case FetchOffer(_, _) =>
    case RequestToken(_, _, _, _) =>
    case SendToken(_, _, _) =>
    case Authorize(_, _) =>
    case SendCredential(_, _) =>
  }

  // ---- What each step does to the log of answers and to the tasks ----

  /** The new state's answers are the old ones and at most one more. */
  ghost predicate Logs(s: Issuer, s': Issuer, a: Option<Answer>) {
    s'.answers == s.answers + if a.Some? then [a.value] else []
  }

  lemma TimesAfter(s: Issuer, s': Issuer, a: Option<Answer>, b: Answer)
    requires Logs(s, s', a)
    ensures Times(s', b) == Times(s, b) + if a == Some(b) then 1 else 0
  {
  }

  function Answering(s: Issuer, e: Event): Option<Answer> {
    match e
    case FetchOffer(id, now) =>
      if LiveAt(s.offers, id, now) then Some(OfferServed(id, s.offers.entries[id].value)) else None
    case RequestToken(code, given, now, later) =>
      if !s.poisoned && TokenSection(s.codes, code, given, now, later).1.TxCodeWrong?
      then Some(WrongTxCode(code)) else None
    case SendToken(i, token, _) =>
      if i < |s.tasks| && s.tasks[i].Granting? then Some(TokenSent(token, s.tasks[i].code, s.tasks[i].given)) else None
    case Prove(i, configId, supported, proofOk, nonce, now) =>
      if i < |s.tasks| && s.tasks[i].Authorized? && configId in supported && configId in s.tasks[i].ids && proofOk
         && nonce.Some? && LiveAt(s.nonces, nonce.value, now)
      then Some(NonceAccepted(nonce.value)) else None
    case SendCredential(i, denied) =>
      if i < |s.tasks| && s.tasks[i].Proven? && !denied
      then Some(CredentialSent(s.tasks[i].configId, s.tasks[i].token, s.tasks[i].nonce)) else None
    case _ => None
  }

  lemma StepLogs(s: Issuer, e: Event)
    ensures Logs(s, Step(s, e), Answering(s, e))
  {
  }

  /** The task a step adds or advances, with its place. */
  function Advancing(s: Issuer, e: Event): Option<(nat, Task)> {
    match e
    case CreateCode(supported, ids, txCode, code, _) =>
      if ids == [] || (exists k :: 0 <= k < |ids| && ids[k] !in supported) || s.poisoned then None
      else Some((|s.tasks|, Offering(code, ids, txCode)))
    case PublishOffer(i, _, _) => if i < |s.tasks| && s.tasks[i].Offering? then Some((i, Done)) else None
    case RequestToken(code, given, now, later) =>
      if s.poisoned then None
      else
        var reply := TokenSection(s.codes, code, given, now, later).1;
        if reply.Granted? then Some((|s.tasks|, Granting(code, reply.ids, given))) else None
    case SendToken(i, _, _) => if i < |s.tasks| && s.tasks[i].Granting? then Some((i, Done)) else None
    case Authorize(token, now) =>
      if LiveAt(s.tokens, token, now) then Some((|s.tasks|, Authorized(token, s.tokens.entries[token].value))) else None
    case Prove(i, configId, _, _, _, _) =>
      if i < |s.tasks| && s.tasks[i].Authorized? then
        match Answering(s, e)
        case Some(a) => Some((i, Proven(s.tasks[i].token, configId, a.nonce)))
        case None => Some((i, Done))
      else None
    case SendCredential(i, _) => if i < |s.tasks| && s.tasks[i].Proven? then Some((i, Done)) else None
    case _ => None
  }

  ghost predicate Advances(s: Issuer, s': Issuer, to: Option<(nat, Task)>) {
    match to
    case None => s'.tasks == s.tasks
    case Some((i, t)) => i <= |s.tasks| && s'.tasks == if i < |s.tasks| then s.tasks[i := t] else s.tasks + [t]
  }

  lemma StepAdvances(s: Issuer, e: Event)
    ensures Advances(s, Step(s, e), Advancing(s, e))
  {
  }

  // ---- Codes ----

  lemma UnsoldKeeps(s: Issuer, e: Event, code: string)
    requires Unsold(s, code)
    requires e.RequestToken? && e.code == code ==> !TokenSection(s.codes, code, e.given, e.now, e.later).1.Granted?
    ensures Unsold(Step(s, e), code)
  {
    StepAdvances(s, e);
    if e.SendToken? {
      assert Advancing(s, e).Some? ==> !Advancing(s, e).value.1.Granting?;
      UnsoldStays(s, Step(s, e), Advancing(s, e), code);
    } else {
      TokensShrink(s, e);
      NotGranted(s, e, code);
      UnsoldStays(s, Step(s, e), Advancing(s, e), code);
    }
  }

  lemma NotGranted(s: Issuer, e: Event, code: string)
    requires e.RequestToken? && e.code == code ==> !TokenSection(s.codes, code, e.given, e.now, e.later).1.Granted?
    ensures var to := Advancing(s, e); to.Some? ==> !(to.value.1.Granting? && to.value.1.code == code)
  {
    if !e.RequestToken? {
      NothingGranted(s, e);
    }
  }

  lemma UnsoldStays(s: Issuer, s': Issuer, to: Option<(nat, Task)>, code: string)
    requires Unsold(s, code) && Advances(s, s', to)
    requires forall token :: token in s'.soldAs ==>
      (token in s.soldAs && s'.soldAs[token] == s.soldAs[token])
      || exists i :: 0 <= i < |s.tasks| && s.tasks[i].Granting? && s.tasks[i].code == s'.soldAs[token]
    requires to.Some? ==> !(to.value.1.Granting? && to.value.1.code == code)
    ensures Unsold(s', code)
  {
  }

  lemma CodesCreate(s: Issuer, supported: set<string>, ids: seq<string>, txCode: Option<string>, code: string, now: nat)
    requires Inv(s) && code !in s.offered
    ensures Sat(TheCodes, CreateCodeStep(s, supported, ids, txCode, code, now))
  {
    assert Sat(TheCodes, s);
    var s' := CreateCodeStep(s, supported, ids, txCode, code, now);
    PutEntries(s.codes, code, now + OFFER_TTL_SECS, Grant(ids, txCode, 0));
    forall c | c in s'.codes.entries
      ensures CodeOk(s', c)
    {
      if c in s.codes.entries {
        assert CodeOk(s, c);
      }
    }
    forall c | c !in s'.offered || Burned(s', c)
      ensures Unsold(s', c)
    {
      assert Unsold(s, c);
    }
  }

  /** Every step but the token request and the creation of a code leaves the codes alone. */
  lemma CodesUntouched(s: Issuer, e: Event)
    requires Inv(s) && Enabled(s, e) && !e.CreateCode? && !e.RequestToken?
    ensures Sat(TheCodes, Step(s, e))
  {
    assert Sat(TheCodes, s);
    CodesFrame(s, e);
    StepLogs(s, e);
    forall c: string
      ensures Unsold(s, c) ==> Unsold(Step(s, e), c)
      ensures Times(Step(s, e), WrongTxCode(c)) == Times(s, WrongTxCode(c))
    {
      TimesAfter(s, Step(s, e), Answering(s, e), WrongTxCode(c));
      if Unsold(s, c) {
        UnsoldKeeps(s, e, c);
      }
    }
    CodesStay(s, Step(s, e));
  }

  lemma CodesFrame(s: Issuer, e: Event)
    requires !e.CreateCode? && !e.RequestToken?
    ensures Step(s, e).codes == s.codes && Step(s, e).offered == s.offered
    ensures Answering(s, e).Some? ==> !Answering(s, e).value.WrongTxCode?
  {
    match e
    case PublishOffer(_, _, _) =>
    case FetchOffer(_, _) =>
    case SendToken(_, _, _) =>
    case RequestNonce(_, _) =>
    case Authorize(_, _) =>
    case Prove(_, _, _, _, _, _) =>
    case SendCredential(_, _) =>
  }

  lemma CodesStay(s: Issuer, s': Issuer)
    requires CodesOk(s) && s'.codes == s.codes && s'.offered == s.offered
    requires forall c: string :: Unsold(s, c) ==> Unsold(s', c)
    requires forall c: string :: Times(s', WrongTxCode(c)) == Times(s, WrongTxCode(c))
    ensures CodesOk(s')
  {
    forall c | c in s'.codes.entries
      ensures CodeOk(s', c)
    {
      assert CodeOk(s, c);
    }
  }

  predicate GuessedWrong(s: Issuer, e: Event, code: string) {
    e.RequestToken? && e.code == code && Answering(s, e).Some?
  }

  lemma TokenTimes(s: Issuer, e: Event, code: string)
    requires e.RequestToken?
    ensures Times(Step(s, e), WrongTxCode(code))
      == Times(s, WrongTxCode(code)) + if GuessedWrong(s, e, code) then 1 else 0
  {
    StepLogs(s, e);
    TimesAfter(s, Step(s, e), Answering(s, e), WrongTxCode(code));
  }

  lemma TokenCode(s: Issuer, e: Event, code: string)
    requires Inv(s) && e.RequestToken? && !s.poisoned && code in Step(s, e).codes.entries
    ensures CodeOk(Step(s, e), code)
  {
    TokenEntry(s, e, code);
    assert CodeOk(s, code) by {
      assert Sat(TheCodes, s);
    }
    TokenTimes(s, e, code);
    UnsoldKeeps(s, e, code);
  }

  /** What a token request leaves of an entry: the grant, with a wrong guess counted. */
  lemma TokenEntry(s: Issuer, e: Event, code: string)
    requires e.RequestToken? && !s.poisoned && code in Step(s, e).codes.entries
    ensures code in s.codes.entries && Step(s, e).offered == s.offered
    ensures var grant, grant' := s.codes.entries[code].value, Step(s, e).codes.entries[code].value;
      && grant'.ids == grant.ids && grant'.txCode == grant.txCode
      && grant'.failed == grant.failed + (if GuessedWrong(s, e, code) then 1 else 0)
      && (GuessedWrong(s, e, code) ==> grant'.failed < MAX_TX_CODE_ATTEMPTS)
    ensures e.code == code ==> !TokenSection(s.codes, code, e.given, e.now, e.later).1.Granted?
  {
  }

  lemma TokenUnsold(s: Issuer, e: Event, code: string)
    requires Inv(s) && e.RequestToken? && (code !in s.offered || Burned(Step(s, e), code))
    ensures Unsold(Step(s, e), code)
  {
    assert Sat(TheCodes, s);
    if code in s.codes.entries {
      assert CodeOk(s, code);
    }
    TokenTimes(s, e, code);
    UnsoldKeeps(s, e, code);
  }

  lemma TokenGuesses(s: Issuer, e: Event, code: string)
    requires Inv(s) && e.RequestToken?
    ensures Times(Step(s, e), WrongTxCode(code)) <= MAX_TX_CODE_ATTEMPTS
    ensures code !in s.offered ==> Times(Step(s, e), WrongTxCode(code)) == 0
  {
    assert Sat(TheCodes, s);
    TokenTimes(s, e, code);
    if GuessedWrong(s, e, code) {
      assert CodeOk(s, code);
    }
  }

  lemma CodesToken(s: Issuer, e: Event)
    requires Inv(s) && e.RequestToken?
    ensures Sat(TheCodes, Step(s, e))
  {
    if s.poisoned {
      assert Sat(TheCodes, s);
    } else {
      var s' := Step(s, e);
      assert s'.offered == s.offered;
      forall c: string
        ensures c in s'.codes.entries ==> CodeOk(s', c)
        ensures c !in s'.offered || Burned(s', c) ==> Unsold(s', c)
        ensures Times(s', WrongTxCode(c)) <= MAX_TX_CODE_ATTEMPTS
        ensures c !in s'.offered ==> Times(s', WrongTxCode(c)) == 0
      {
        TokenGuesses(s, e, c);
        if c in s'.codes.entries {
          TokenCode(s, e, c);
        }
        if c !in s'.offered || Burned(s', c) {
          TokenUnsold(s, e, c);
        }
      }
    }
  }

  lemma CodesKeep(s: Issuer, e: Event)
    requires Inv(s) && Enabled(s, e)
    ensures Sat(TheCodes, Step(s, e))
  {
    match e
    case CreateCode(supported, ids, txCode, code, now) => CodesCreate(s, supported, ids, txCode, code, now);
    case RequestToken(_, _, _, _) => CodesToken(s, e);
    case _ => CodesUntouched(s, e);
  }

  // ---- Tokens ----

  lemma SoldToken(s: Issuer, i: nat, token: string, now: nat)
    requires Inv(s) && token !in s.soldAs
    ensures Sat(TheSold, SendTokenStep(s, i, token, now))
  {
    assert Sat(TheSold, s) && Sat(TheTasks, s);
    if i < |s.tasks| && s.tasks[i].Granting? {
      assert TaskOk(s, s.tasks[i]);
      PutEntries(s.tokens, token, now + ACCESS_TOKEN_TTL_SECS, s.tasks[i].ids);
    }
  }

  lemma SoldGrant(s: Issuer, e: Event)
    requires Inv(s) && e.RequestToken?
    ensures Sat(TheSold, Step(s, e))
  {
    assert Sat(TheSold, s);
    StepAdvances(s, e);
    TokensShrink(s, e);
    if Advancing(s, e).Some? {
      assert Unsold(s, e.code) by {
        assert Sat(TheCodes, s);
        assert CodeOk(s, e.code);
      }
      SoldOneMore(s, Step(s, e), Advancing(s, e).value.1);
    } else {
      GrantsStay(s, Step(s, e), None);
      SoldStay(s, Step(s, e));
    }
  }

  lemma SoldOneMore(s: Issuer, s': Issuer, t: Task)
    requires SoldOk(s) && t.Granting? && Unsold(s, t.code)
    requires s'.tasks == s.tasks + [t] && s'.soldAs == s.soldAs && s'.offered == s.offered && s'.tokens == s.tokens
    ensures SoldOk(s')
  {
  }

  /** Grants keep their place, tokens only go. */
  ghost predicate SoldFramed(s: Issuer, s': Issuer) {
    && s'.soldAs == s.soldAs
    && (forall c :: c in s.offered ==> c in s'.offered && s'.offered[c] == s.offered[c])
    && (forall t :: t in s'.tokens.entries ==> t in s.tokens.entries && s'.tokens.entries[t] == s.tokens.entries[t])
    && (forall i :: 0 <= i < |s'.tasks| && s'.tasks[i].Granting? ==> i < |s.tasks| && s'.tasks[i] == s.tasks[i])
  }

  lemma SoldFrame(s: Issuer, e: Event)
    requires Enabled(s, e) && !e.SendToken? && !e.RequestToken?
    ensures SoldFramed(s, Step(s, e))
  {
    StepExtends(s, e);
    StepAdvances(s, e);
    NothingGranted(s, e);
    TokensShrink(s, e);
    GrantsStay(s, Step(s, e), Advancing(s, e));
  }

  lemma NothingGranted(s: Issuer, e: Event)
    requires !e.RequestToken?
    ensures Advancing(s, e).Some? ==> !Advancing(s, e).value.1.Granting?
  {
  }

  lemma TokensShrink(s: Issuer, e: Event)
    requires !e.SendToken?
    ensures Step(s, e).soldAs == s.soldAs
    ensures forall t :: t in Step(s, e).tokens.entries ==>
      t in s.tokens.entries && Step(s, e).tokens.entries[t] == s.tokens.entries[t]
  {
    if !e.Authorize? {
      TokensFrame(s, e);
    }
  }

  lemma GrantsStay(s: Issuer, s': Issuer, to: Option<(nat, Task)>)
    requires Advances(s, s', to) && (to.Some? ==> !to.value.1.Granting?)
    ensures forall i :: 0 <= i < |s'.tasks| && s'.tasks[i].Granting? ==> i < |s.tasks| && s'.tasks[i] == s.tasks[i]
  {
  }

  lemma SoldStay(s: Issuer, s': Issuer)
    requires SoldOk(s) && SoldFramed(s, s')
    ensures SoldOk(s')
  {
  }

  lemma SoldKeep(s: Issuer, e: Event)
    requires Inv(s) && Enabled(s, e)
    ensures Sat(TheSold, Step(s, e))
  {
    match e
    case SendToken(i, token, now) => SoldToken(s, i, token, now);
    case RequestToken(_, _, _, _) => SoldGrant(s, e);
    case _ =>
      assert Sat(TheSold, s);
      SoldFrame(s, e);
      SoldStay(s, Step(s, e));
  }

  // ---- Tasks and answers ----

  ghost predicate Extends(s: Issuer, s': Issuer) {
    && (forall c :: c in s.offered ==> c in s'.offered && s'.offered[c] == s.offered[c])
    && (forall t :: t in s.soldAs ==> t in s'.soldAs && s'.soldAs[t] == s.soldAs[t])
  }

  lemma StepExtends(s: Issuer, e: Event)
    requires Enabled(s, e)
    ensures Extends(s, Step(s, e))
  {
    match e
    case CreateCode(_, _, _, _, _) =>
    case PublishOffer(_, _, _) =>
    case FetchOffer(_, _) =>
    case RequestToken(_, _, _, _) =>
    case SendToken(_, _, _) =>
    case RequestNonce(_, _) =>
    case Authorize(_, _) =>
    case Prove(_, _, _, _, _, _) =>
    case SendCredential(_, _) =>
  }

  lemma NewTaskOk(s: Issuer, e: Event)
    requires Inv(s) && Enabled(s, e) && Advancing(s, e).Some?
    ensures TaskOk(Step(s, e), Advancing(s, e).value.1)
  {
    match e
    case RequestToken(code, _, _, _) =>
      assert Sat(TheCodes, s);
      assert CodeOk(s, code);
    case Authorize(token, _) =>
      assert Sat(TheSold, s);
    case Prove(j, _, _, _, _, _) =>
      assert Sat(TheTasks, s);
      assert TaskOk(s, s.tasks[j]);
    case _ =>
  }

  lemma TaskStays(s: Issuer, s': Issuer, t: Task)
    requires TaskOk(s, t) && Extends(s, s')
    ensures TaskOk(s', t)
  {
  }

  lemma TasksKeep(s: Issuer, e: Event)
    requires Inv(s) && Enabled(s, e)
    ensures Sat(TheTasks, Step(s, e))
  {
    assert Sat(TheTasks, s);
    StepExtends(s, e);
    StepAdvances(s, e);
    if Advancing(s, e).Some? {
      NewTaskOk(s, e);
    }
    TasksStay(s, Step(s, e), Advancing(s, e));
  }

  lemma TasksStay(s: Issuer, s': Issuer, to: Option<(nat, Task)>)
    requires TasksOk(s) && Extends(s, s') && Advances(s, s', to)
    requires to.Some? ==> TaskOk(s', to.value.1)
    ensures TasksOk(s')
  {
    forall i | 0 <= i < |s'.tasks|
      ensures TaskOk(s', s'.tasks[i])
    {
      if i < |s.tasks| {
        TaskStays(s, s', s.tasks[i]);
      }
    }
  }

  lemma AnswersKeep(s: Issuer, e: Event)
    requires Inv(s) && Enabled(s, e)
    ensures Sat(TheAnswers, Step(s, e))
  {
    var s', said := Step(s, e), Answering(s, e);
    assert Sat(TheAnswers, s);
    StepExtends(s, e);
    StepLogs(s, e);
    forall a | a in s'.answers
      ensures AnswerOk(s', a)
    {
      TimesAfter(s, s', said, a);
      if a in s.answers {
        assert AnswerOk(s, a);
        assert said == Some(a) ==> !a.TokenSent?;
      } else {
        assert said == Some(a) && Times(s, a) == 0;
        NewAnswerOk(s, e, a);
      }
    }
  }

  lemma NewAnswerOk(s: Issuer, e: Event, a: Answer)
    requires Inv(s) && Enabled(s, e) && Answering(s, e) == Some(a)
    requires Times(Step(s, e), a) == 1
    ensures AnswerOk(Step(s, e), a)
  {
    if e.SendCredential? {
      assert Sat(TheTasks, s);
      assert TaskOk(s, s.tasks[e.i]);
    }
  }

  // ---- Offers and nonces ----

  lemma OffersKeep(s: Issuer, e: Event)
    requires Inv(s) && Enabled(s, e)
    ensures Sat(TheOffers, Step(s, e))
  {
    assert Sat(TheOffers, s);
    StepLogs(s, e);
    OfferEntries(s, e);
    OffersUsed(s, e);
    StepExtends(s, e);
    OffersStay(s, Step(s, e), Answering(s, e));
  }

  predicate Serves(said: Option<Answer>, id: string) {
    said.Some? && said.value.OfferServed? && said.value.offerId == id
  }

  lemma OffersUsed(s: Issuer, e: Event)
    requires OffersOk(s)
    ensures s.usedOffers <= Step(s, e).usedOffers
    ensures forall id :: Serves(Answering(s, e), id) ==>
      id in s.usedOffers && Unserved(s, id) && OfferDocOk(s, Answering(s, e).value.doc)
  {
  }

  lemma OffersStay(s: Issuer, s': Issuer, said: Option<Answer>)
    requires OffersOk(s) && Logs(s, s', said) && Extends(s, s') && s.usedOffers <= s'.usedOffers
    requires forall id :: Serves(said, id) ==> id in s.usedOffers && Unserved(s, id) && OfferDocOk(s, said.value.doc)
    requires OffersFollow(s, s', said)
    ensures OffersOk(s')
  {
    forall id | Unserved(s, id) && !Serves(said, id)
      ensures Unserved(s', id)
    {
    }
    if said.Some? && said.value.OfferServed? {
      assert Serves(said, said.value.offerId);
    }
  }

  /** What the offers table may hold after a step. */
  ghost predicate OffersFollow(s: Issuer, s': Issuer, said: Option<Answer>) {
    forall id :: id in s'.offers.entries ==>
      && id in s'.usedOffers && OfferDocOk(s', s'.offers.entries[id].value)
      && (id in s.offers.entries || id !in s.usedOffers)
      && !Serves(said, id)
  }

  lemma OfferEntries(s: Issuer, e: Event)
    requires Inv(s) && Enabled(s, e)
    ensures OffersFollow(s, Step(s, e), Answering(s, e))
  {
    assert Sat(TheOffers, s);
    match e
    case PublishOffer(i, offerId, now) =>
      if i < |s.tasks| && s.tasks[i].Offering? {
        PublishedOffer(s, i, offerId, now);
      }
    case FetchOffer(offerId, now) =>
      assert offerId !in Step(s, e).offers.entries;
    case _ =>
      OffersFrame(s, e);
      StepExtends(s, e);
      OffersSame(s, Step(s, e), Answering(s, e));
  }

  lemma OffersSame(s: Issuer, s': Issuer, said: Option<Answer>)
    requires OffersOk(s) && Extends(s, s') && s'.offers == s.offers && s'.usedOffers == s.usedOffers
    requires said.Some? ==> !said.value.OfferServed?
    ensures OffersFollow(s, s', said)
  {
  }

  lemma PublishedOffer(s: Issuer, i: nat, offerId: string, now: nat)
    requires Inv(s) && offerId !in s.usedOffers && i < |s.tasks| && s.tasks[i].Offering?
    ensures OffersFollow(s, PublishOfferStep(s, i, offerId, now), None)
  {
    assert Sat(TheOffers, s) && Sat(TheTasks, s);
    var Offering(code, ids, txCode) := s.tasks[i];
    assert TaskOk(s, s.tasks[i]);
    PutEntries(s.offers, offerId, now + OFFER_TTL_SECS, OfferDoc(code, ids, txCode.Some?));
  }

  /** A nonce that nothing came of, and that this step does not accept, stays so. */
  lemma UnspentStays(s: Issuer, s': Issuer, said: Option<Answer>, to: Option<(nat, Task)>, n: string)
    requires Unspent(s, n) && Logs(s, s', said) && Advances(s, s', to)
    requires said != Some(NonceAccepted(n))
    requires to.Some? && to.value.1.Proven? ==> said == Some(NonceAccepted(to.value.1.nonce))
    requires said.Some? && said.value.CredentialSent? ==> said.value.nonce != n
    ensures Unspent(s', n)
  {
    TimesAfter(s, s', said, NonceAccepted(n));
  }

  lemma ProvenIsAccepted(s: Issuer, e: Event)
    ensures var to := Advancing(s, e);
      to.Some? && to.value.1.Proven? ==> Answering(s, e) == Some(NonceAccepted(to.value.1.nonce))
    ensures var said := Answering(s, e);
      said.Some? && said.value.CredentialSent? ==>
        exists i :: 0 <= i < |s.tasks| && s.tasks[i].Proven? && s.tasks[i].nonce == said.value.nonce
             && Advancing(s, e) == Some((i, Done))
  {
  }

  lemma UnspentKeeps(s: Issuer, e: Event, n: string)
    requires Unspent(s, n) && Answering(s, e) != Some(NonceAccepted(n))
    ensures Unspent(Step(s, e), n)
  {
    StepLogs(s, e);
    StepAdvances(s, e);
    ProvenIsAccepted(s, e);
    UnspentStays(s, Step(s, e), Answering(s, e), Advancing(s, e), n);
  }

  lemma NoncesKeep(s: Issuer, e: Event)
    requires Inv(s) && Enabled(s, e)
    ensures Sat(TheNonces, Step(s, e))
  {
    assert Sat(TheNonces, s);
    StepLogs(s, e);
    NonceEntries(s, e);
    AcceptedWasUnspent(s, e);
    forall n: string
      ensures Unspent(s, n) && Answering(s, e) != Some(NonceAccepted(n)) ==> Unspent(Step(s, e), n)
    {
      if Unspent(s, n) && Answering(s, e) != Some(NonceAccepted(n)) {
        UnspentKeeps(s, e, n);
      }
    }
    NoncesStay(s, Step(s, e), Answering(s, e));
  }

  lemma NoncesStay(s: Issuer, s': Issuer, said: Option<Answer>)
    requires NoncesOk(s) && Logs(s, s', said)
    requires forall n :: said == Some(NonceAccepted(n)) ==> Unspent(s, n)
    requires forall n :: n in s'.nonces.entries ==> n in s'.usedNonces
    requires forall n :: n in s'.nonces.entries || n !in s'.usedNonces ==>
      Unspent(s, n) && said != Some(NonceAccepted(n))
    requires forall n: string :: Unspent(s, n) && said != Some(NonceAccepted(n)) ==> Unspent(s', n)
    ensures NoncesOk(s')
  {
    forall n: string
      ensures Times(s', NonceAccepted(n)) <= 1
    {
      TimesAfter(s, s', said, NonceAccepted(n));
    }
  }

  lemma AcceptedWasUnspent(s: Issuer, e: Event)
    requires Inv(s)
    ensures forall n :: Answering(s, e) == Some(NonceAccepted(n)) ==>
      n in s.usedNonces && n in s.nonces.entries && Unspent(s, n)
  {
    assert Sat(TheNonces, s);
  }

  lemma NonceEntries(s: Issuer, e: Event)
    requires Inv(s) && Enabled(s, e)
    ensures var s' := Step(s, e);
      && (forall n :: n in s'.nonces.entries ==> n in s'.usedNonces)
      && (forall n :: n in s'.nonces.entries || n !in s'.usedNonces ==>
           Unspent(s, n) && Answering(s, e) != Some(NonceAccepted(n)))
  {
    assert Sat(TheNonces, s);
    if e.RequestNonce? {
      PutEntries(s.nonces, e.nonce, e.now + NONCE_TTL_SECS, ());
    } else {
      NoncesShrink(s, e);
      AcceptedWasUnspent(s, e);
    }
  }

  /** But for the nonce endpoint, no step adds a nonce, and an accepted one is gone. */
  lemma NoncesShrink(s: Issuer, e: Event)
    requires !e.RequestNonce?
    ensures Step(s, e).usedNonces == s.usedNonces
    ensures forall n :: n in Step(s, e).nonces.entries ==>
      n in s.nonces.entries && Answering(s, e) != Some(NonceAccepted(n))
  {
    match e
    case CreateCode(_, _, _, _, _) =>
    case PublishOffer(_, _, _) =>
    case FetchOffer(_, _) =>
    case RequestToken(_, _, _, _) =>
    case SendToken(_, _, _) =>
    case Authorize(_, _) =>
    case Prove(_, _, _, _, _, _) =>
    case SendCredential(_, _) =>
  }

  lemma CredentialsKeep(s: Issuer, e: Event)
    requires Inv(s) && Enabled(s, e)
    ensures Sat(TheCredentials, Step(s, e))
  {
    assert Sat(TheCredentials, s);
    AcceptedWasUnspent(s, e);
    StepLogs(s, e);
    StepAdvances(s, e);
    ProvenIsAccepted(s, e);
    CredentialsStay(s, Step(s, e), Answering(s, e), Advancing(s, e));
  }

  lemma CredentialsStay(s: Issuer, s': Issuer, said: Option<Answer>, to: Option<(nat, Task)>)
    requires CredentialsOk(s) && Logs(s, s', said) && Advances(s, s', to)
    requires forall n :: said == Some(NonceAccepted(n)) ==> Unspent(s, n)
    requires to.Some? && to.value.1.Proven? ==> said == Some(NonceAccepted(to.value.1.nonce))
    requires said.Some? && said.value.CredentialSent? ==>
      exists i :: 0 <= i < |s.tasks| && s.tasks[i].Proven? && s.tasks[i].nonce == said.value.nonce
                  && to == Some((i, Done))
    ensures CredentialsOk(s')
  {
  }

  lemma StepKeeps(s: Issuer, e: Event)
    requires Inv(s) && Enabled(s, e)
    ensures Inv(Step(s, e))
  {
    TablesKeep(s, e);
    CodesKeep(s, e);
    SoldKeep(s, e);
    TasksKeep(s, e);
    AnswersKeep(s, e);
    OffersKeep(s, e);
    NoncesKeep(s, e);
    CredentialsKeep(s, e);
    forall c: Clause
      ensures Sat(c, Step(s, e))
    {
      match c
      case TheTables =>
      case TheCodes =>
      case TheSold =>
      case TheTasks =>
      case TheAnswers =>
      case TheOffers =>
      case TheNonces =>
      case TheCredentials =>
    }
  }

  lemma StartHolds()
    ensures Inv(Start())
  {
    forall c: Clause
      ensures Sat(c, Start())
    {
      match c
      case TheTables =>
      case TheCodes =>
      case TheSold =>
      case TheTasks =>
      case TheAnswers =>
      case TheOffers =>
      case TheNonces =>
      case TheCredentials =>
    }
  }

  lemma {:induction false} RunKeeps(s: Issuer, es: seq<Event>)
    requires Inv(s) && ValidRun(s, es)
    ensures Inv(Run(s, es))
    decreases |es|
  {
    if es != [] {
      StepKeeps(s, es[0]);
      RunKeeps(Step(s, es[0]), es[1..]);
    }
  }

  // ---- Over every run ----

  ghost predicate Reachable(s: Issuer) {
    exists es :: ValidRun(Start(), es) && s == Run(Start(), es)
  }

  lemma ReachableInv(s: Issuer)
    requires Reachable(s)
    ensures Inv(s)
  {
    var es :| ValidRun(Start(), es) && s == Run(Start(), es);
    StartHolds();
    RunKeeps(Start(), es);
  }

  lemma TwiceCounts<T>(s: seq<T>, i: nat, j: nat)
    requires i < j < |s| && s[i] == s[j]
    ensures multiset(s)[s[i]] >= 2
  {
    assert s == s[..j] + s[j..];
    assert s[..j][i] in multiset(s[..j]);
    assert s[j..][0] in multiset(s[j..]);
  }

  /** Each code yields at most one access token. */
  lemma OneTokenPerCode(s: Issuer, i: nat, j: nat)
    requires Reachable(s) && i < j < |s.answers|
    requires s.answers[i].TokenSent? && s.answers[j].TokenSent?
    ensures s.answers[i].code != s.answers[j].code && s.answers[i].token != s.answers[j].token
  {
    ReachableInv(s);
    assert Sat(TheAnswers, s) && Sat(TheSold, s);
    var a, b := s.answers[i], s.answers[j];
    assert a in s.answers && b in s.answers;
    assert AnswerOk(s, a) && AnswerOk(s, b);
    if a == b {
      TwiceCounts(s.answers, i, j);
      assert false;
    }
  }

  /** Every token sent was asked for with exactly the Transaction Code the operator set for its code, if any. */
  lemma TokenNeedsTxCode(s: Issuer, k: nat)
    requires Reachable(s) && k < |s.answers| && s.answers[k].TokenSent?
    ensures var TokenSent(token, code, given) := s.answers[k];
      code in s.offered && given == s.offered[code].txCode && token in s.soldAs && s.soldAs[token] == code
  {
    ReachableInv(s);
    assert Sat(TheAnswers, s);
    assert s.answers[k] in s.answers;
    assert AnswerOk(s, s.answers[k]);
  }

  /** Each nonce passes at most once, and no two credentials share one. */
  lemma OneUsePerNonce(s: Issuer, nonce: string)
    requires Reachable(s)
    ensures Times(s, NonceAccepted(nonce)) <= 1
    ensures forall i, j :: 0 <= i < j < |s.answers| && s.answers[i].CredentialSent? && s.answers[j].CredentialSent? ==>
      s.answers[i].nonce != s.answers[j].nonce
  {
    ReachableInv(s);
    assert Sat(TheNonces, s) && Sat(TheCredentials, s);
  }

  /**
   Each offer is served by reference at most once, and what was served is what the operator offered under its code.
   */
  lemma OfferServedOnce(s: Issuer, i: nat, j: nat)
    requires Reachable(s) && i < |s.answers| && s.answers[i].OfferServed?
    ensures j < |s.answers| && s.answers[j].OfferServed? && s.answers[j].offerId == s.answers[i].offerId ==> j == i
    ensures s.answers[i].offerId !in s.offers.entries
    ensures OfferDocOk(s, s.answers[i].doc)
  {
    ReachableInv(s);
    assert Sat(TheOffers, s);
  }

  /** A code draws at most three "wrong tx_code" answers; after the third it is gone. */
  lemma ThreeGuesses(s: Issuer, code: string)
    requires Reachable(s)
    ensures Times(s, WrongTxCode(code)) <= 3
    ensures Times(s, WrongTxCode(code)) == 3 ==> code !in s.codes.entries
  {
    ReachableInv(s);
    assert Sat(TheCodes, s);
    if code in s.codes.entries {
      assert CodeOk(s, code);
    }
  }

  /** And no token ever comes of it, however the run goes on. */
  lemma {:induction false} BurnedForever(s: Issuer, es: seq<Event>, code: string)
    requires Inv(s) && ValidRun(s, es) && Burned(s, code)
    ensures Burned(Run(s, es), code)
    ensures forall token :: token in Run(s, es).soldAs ==> Run(s, es).soldAs[token] != code
    decreases |es|
  {
    if es == [] {
      assert Sat(TheCodes, s);
      assert Unsold(s, code);
    } else {
      StepKeeps(s, es[0]);
      StepLogs(s, es[0]);
      TimesAfter(s, Step(s, es[0]), Answering(s, es[0]), WrongTxCode(code));
      assert Times(Step(s, es[0]), WrongTxCode(code)) <= MAX_TX_CODE_ATTEMPTS by {
        assert Sat(TheCodes, Step(s, es[0]));
      }
      BurnedForever(Step(s, es[0]), es[1..], code);
    }
  }

  /** Every credential is for a configuration that the operator listed in the offer its token came from. */
  lemma IssuedWasOffered(s: Issuer, k: nat)
    requires Reachable(s) && k < |s.answers| && s.answers[k].CredentialSent?
    ensures var CredentialSent(configId, token, _) := s.answers[k];
      && token in s.soldAs && s.soldAs[token] in s.offered && configId in s.offered[s.soldAs[token]].ids
  {
    ReachableInv(s);
    assert Sat(TheAnswers, s);
    assert s.answers[k] in s.answers;
    assert AnswerOk(s, s.answers[k]);
  }

  /** What an operator offered under a code, and which code a token came from, never change. */
  lemma {:induction false} HistoryStands(s: Issuer, es: seq<Event>)
    requires ValidRun(s, es)
    ensures Extends(s, Run(s, es))
    decreases |es|
  {
    if es != [] {
      StepExtends(s, es[0]);
      HistoryStands(Step(s, es[0]), es[1..]);
    }
  }

  /** The tables never hold more than their capacity. */
  lemma TablesAreBounded(s: Issuer)
    requires Reachable(s)
    ensures |s.offers.entries| <= MAX_OID4VCI_ENTRIES && |s.codes.entries| <= MAX_OID4VCI_ENTRIES
    ensures |s.tokens.entries| <= MAX_OID4VCI_ENTRIES && |s.nonces.entries| <= MAX_OID4VCI_ENTRIES
  {
    ReachableInv(s);
    assert Sat(TheTables, s);
  }

  /** After a panic the lock stays poisoned: no code is created or redeemed again. */
  lemma {:induction false} PoisonedForever(s: Issuer, es: seq<Event>)
    requires s.poisoned
    ensures Run(s, es).poisoned && Run(s, es).codes == s.codes && Run(s, es).offered == s.offered
    decreases |es|
  {
    if es != [] {
      PoisonedForever(Step(s, es[0]), es[1..]);
    }
  }

  /** If every token request saw one time only, the lock is never poisoned. */
  lemma {:induction false} OneReadingNeverPoisons(s: Issuer, es: seq<Event>)
    requires !s.poisoned
    requires forall k :: 0 <= k < |es| && es[k].RequestToken? ==> es[k].later == es[k].now
    ensures !Run(s, es).poisoned
    decreases |es|
  {
    if es != [] {
      assert forall k :: 0 <= k < |es[1..]| ==> es[1..][k] == es[k + 1];
      OneReadingNeverPoisons(Step(s, es[0]), es[1..]);
    }
  }
}
