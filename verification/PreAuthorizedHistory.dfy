/**
 What callers of the pre-authorized code flow were told, traced back to the requests that led to it. A run
 is followed event by event: `At(es, n)` is the state after the first `n` of its events.
 */
module PreAuthorizedHistory {
  import opened Prelude
  import opened ExpiringTables
  import opened PreAuthorizedCode
  import opened PreAuthorizedProofs

  function At(es: seq<Event>, n: nat): Issuer
    requires n <= |es|
  {
    if n == 0 then Start() else Step(At(es, n - 1), es[n - 1])
  }

  ghost predicate EnabledAt(es: seq<Event>, k: nat)
    requires k < |es|
  {
    Enabled(At(es, k), es[k])
  }

  /** Nothing is ever minted twice along the run. */
  ghost predicate IsRun(es: seq<Event>) {
    forall k: nat :: k < |es| ==> EnabledAt(es, k)
  }

  lemma SuffixNext<T>(s: seq<T>, n: nat)
    requires n < |s|
    ensures s[n..][1..] == s[n + 1..] && s[n..][0] == s[n]
  {
  }

  /** Following a run event by event is running it. */
  lemma {:induction false} AtIsRun(es: seq<Event>, n: nat)
    requires n <= |es|
    ensures Run(At(es, n), es[n..]) == At(es, |es|)
    ensures IsRun(es) ==> ValidRun(At(es, n), es[n..])
    decreases |es| - n
  {
    if n < |es| {
      AtIsRun(es, n + 1);
      SuffixNext(es, n);
      assert IsRun(es) ==> EnabledAt(es, n);
    }
  }

  lemma {:induction false} AtInv(es: seq<Event>, n: nat)
    requires IsRun(es) && n <= |es|
    ensures Inv(At(es, n))
    decreases n
  {
    if n == 0 {
      StartHolds();
    } else {
      AtInv(es, n - 1);
      assert EnabledAt(es, n - 1);
      StepKeeps(At(es, n - 1), es[n - 1]);
    }
  }

  // ---- What happened among the first events ----

  /** The operator offered these terms, of configurations this issuer supports; the code expires 600 seconds later. */
  ghost predicate CodeMade(es: seq<Event>, n: nat, code: string, terms: Terms, exp: nat)
    requires n <= |es|
  {
    exists k :: 0 <= k < n && es[k].CreateCode? && es[k].code == code && terms == Terms(es[k].ids, es[k].txCode)
                && es[k].ids != [] && (forall id :: id in es[k].ids ==> id in es[k].supported)
                && exp == es[k].now + 600
  }

  ghost predicate OfferMade(es: seq<Event>, n: nat, offerId: string, exp: nat)
    requires n <= |es|
  {
    exists k :: 0 <= k < n && es[k].PublishOffer? && es[k].offerId == offerId && exp == es[k].now + 600
  }

  ghost predicate TokenMade(es: seq<Event>, n: nat, token: string, exp: nat)
    requires n <= |es|
  {
    exists k :: 0 <= k < n && es[k].SendToken? && es[k].token == token && exp == es[k].now + 300
  }

  ghost predicate NonceMade(es: seq<Event>, n: nat, nonce: string, exp: nat)
    requires n <= |es|
  {
    exists k :: 0 <= k < n && es[k].RequestNonce? && es[k].nonce == nonce && exp == es[k].now + 300
  }

  /** A token request gave what the operator set for the code, and the code was live throughout. */
  ghost predicate Redeemed(es: seq<Event>, n: nat, code: string, ids: seq<string>, given: Option<string>)
    requires n <= |es|
  {
    exists k, exp :: 0 <= k < n && es[k].RequestToken? && es[k].code == code && es[k].given == given
                     && CodeMade(es, k, code, Terms(ids, given), exp) && es[k].now < exp && es[k].later < exp
  }

  ghost predicate Served(es: seq<Event>, n: nat, offerId: string)
    requires n <= |es|
  {
    exists k, exp :: 0 <= k < n && es[k].FetchOffer? && es[k].offerId == offerId
                     && OfferMade(es, k, offerId, exp) && es[k].now < exp
  }

  /** The token was presented while it was live. */
  ghost predicate Presented(es: seq<Event>, n: nat, token: string)
    requires n <= |es|
  {
    exists k, exp :: 0 <= k < n && es[k].Authorize? && es[k].token == token
                     && TokenMade(es, k, token, exp) && es[k].now < exp
  }

  /** A valid proof with this nonce came while the nonce was live, for a supported configuration, under the token. */
  ghost predicate ProvedWith(es: seq<Event>, n: nat, token: string, configId: string, nonce: string)
    requires n <= |es|
  {
    exists k, exp :: 0 <= k < n && es[k].Prove? && es[k].configId == configId && configId in es[k].supported
                     && es[k].proofOk && es[k].proofNonce == Some(nonce)
                     && Presented(es, k, token) && NonceMade(es, k, nonce, exp) && es[k].now < exp
  }

  // ---- What one request is answered ----

  /** The table has this value under the key, and it has not expired. */
  ghost predicate Holds<V(!new)>(t: Table<V>, key: string, v: V, now: nat) {
    exists exp: nat :: now < exp && key in t.entries && t.entries[key] == Timed(exp, v)
  }

  lemma HoldsWhen<V(!new)>(t: Table<V>, key: string, now: nat)
    ensures LiveAt(t, key, now) <==> exists v :: Holds(t, key, v, now)
    ensures forall v :: Holds(t, key, v, now) ==> key in t.entries && v == t.entries[key].value
  {
    if key in t.entries && now < t.entries[key].exp {
      var exp := t.entries[key].exp;
      assert now < exp && t.entries[key] == Timed(exp, t.entries[key].value);
      assert Holds(t, key, t.entries[key].value, now);
    }
  }

  /** An offer is served exactly while it is live, and fetching it takes it out either way. */
  lemma FetchOutcome(s: Issuer, offerId: string, now: nat)
    ensures var s' := Step(s, FetchOffer(offerId, now));
      && s'.offers == s.offers.(entries := s.offers.entries - {offerId})
      && (forall doc :: Holds(s.offers, offerId, doc, now) ==> s'.answers == s.answers + [OfferServed(offerId, doc)])
      && ((forall doc :: !Holds(s.offers, offerId, doc, now)) ==> s'.answers == s.answers)
  {
    HoldsWhen(s.offers, offerId, now);
  }

  /** An access token is accepted, for the configurations it stands for, exactly while it is live. */
  lemma AuthorizeOutcome(s: Issuer, token: string, now: nat)
    ensures var s' := Step(s, Authorize(token, now));
      && (forall ids :: Holds(s.tokens, token, ids, now) ==> s'.tasks == s.tasks + [Authorized(token, ids)])
      && ((forall ids :: !Holds(s.tokens, token, ids, now)) ==> s'.tasks == s.tasks)
  {
    HoldsWhen(s.tokens, token, now);
  }

  /** What the credential endpoint asks of a request before it looks at the nonce. */
  ghost predicate WellAsked(ids: seq<string>, configId: string, supported: set<string>, proofOk: bool,
                            nonce: Option<string>)
  {
    configId in supported && configId in ids && proofOk && nonce.Some?
  }

  /**
   A proof passes exactly when the configuration is supported and covered by the token, the proof is valid and
   its nonce live. A request that gets as far as the nonce uses it up, and one that does not leaves it.
   */
  lemma ProveOutcome(s: Issuer, i: nat, configId: string, supported: set<string>, proofOk: bool, nonce: Option<string>,
                     now: nat)
    requires i < |s.tasks| && s.tasks[i].Authorized?
    ensures var s', Authorized(token, ids) := Step(s, Prove(i, configId, supported, proofOk, nonce, now)), s.tasks[i];
      var asked := WellAsked(ids, configId, supported, proofOk, nonce);
      && i < |s'.tasks|
      && (s'.tasks[i].Proven? <==> asked && Holds(s.nonces, nonce.value, (), now))
      && (s'.tasks[i].Proven? ==> s'.tasks[i] == Proven(token, configId, nonce.value))
      && s'.nonces == if asked then s.nonces.(entries := s.nonces.entries - {nonce.value}) else s.nonces
  {
    if nonce.Some? {
      HoldsWhen(s.nonces, nonce.value, now);
      if LiveAt(s.nonces, nonce.value, now) {
        var v :| Holds(s.nonces, nonce.value, v, now);
        assert v == ();
      }
    }
  }

  /** A proven request is answered with its credential exactly when it is not denied after all. */
  lemma SendOutcome(s: Issuer, i: nat, denied: bool)
    requires i < |s.tasks| && s.tasks[i].Proven?
    ensures var s', Proven(token, configId, nonce) := Step(s, SendCredential(i, denied)), s.tasks[i];
      s'.answers == s.answers + if denied then [] else [CredentialSent(configId, token, nonce)]
  {
  }

  lemma NewCode(s: Issuer, code: string, exp: nat, grant: Grant)
    requires Inv(s) && code !in s.offered
    ensures code in Put(s.codes, code, exp, grant).entries
    ensures Put(s.codes, code, exp, grant).entries[code] == Timed(exp, grant)
  {
    assert Sat(TheTables, s);
    assert code !in s.codes.order;
    PutRefinesList(s.codes, code, exp, grant);
    PutEntries(s.codes, code, exp, grant);
  }

  /** A code is made exactly for a nonempty list of supported configurations, unless the table is poisoned. */
  lemma CreateOutcome(s: Issuer, supported: set<string>, ids: seq<string>, txCode: Option<string>, code: string,
                      now: nat)
    requires Inv(s) && code !in s.offered
    ensures var s' := Step(s, CreateCode(supported, ids, txCode, code, now));
      if s.poisoned || ids == [] || exists id :: id in ids && id !in supported then s' == s
      else
        && code in s'.codes.entries && s'.codes.entries[code] == Timed(now + 600, Grant(ids, txCode, 0))
        && s'.tasks == s.tasks + [Offering(code, ids, txCode)]
  {
    if id :| id in ids && id !in supported {
      assert ids[Position(ids, id)] !in supported;
    } else {
      NewCode(s, code, now + 600, Grant(ids, txCode, 0));
    }
  }

  // ---- Every entry has its date ----

  ghost predicate CodesDated(es: seq<Event>, n: nat, s: Issuer)
    requires n <= |es|
  {
    forall code :: code in s.codes.entries ==>
      var Timed(exp, grant) := s.codes.entries[code];
      CodeMade(es, n, code, Terms(grant.ids, grant.txCode), exp)
  }

  ghost predicate OffersDated(es: seq<Event>, n: nat, s: Issuer)
    requires n <= |es|
  {
    forall id :: id in s.offers.entries ==> OfferMade(es, n, id, s.offers.entries[id].exp)
  }

  ghost predicate TokensDated(es: seq<Event>, n: nat, s: Issuer)
    requires n <= |es|
  {
    forall token :: token in s.tokens.entries ==> TokenMade(es, n, token, s.tokens.entries[token].exp)
  }

  ghost predicate NoncesDated(es: seq<Event>, n: nat, s: Issuer)
    requires n <= |es|
  {
    forall nonce :: nonce in s.nonces.entries ==> NonceMade(es, n, nonce, s.nonces.entries[nonce].exp)
  }

  /** After a step an entry is one there was before, with its terms and its expiry, or the one the step made. */
  lemma CodesChange(s: Issuer, e: Event, code: string)
    requires code in Step(s, e).codes.entries
    ensures var Timed(exp, grant) := Step(s, e).codes.entries[code];
      || (&& code in s.codes.entries && s.codes.entries[code].exp == exp
          && s.codes.entries[code].value.ids == grant.ids && s.codes.entries[code].value.txCode == grant.txCode)
      || (&& e.CreateCode? && e.code == code && grant.ids == e.ids && grant.txCode == e.txCode && exp == e.now + 600
          && e.ids != [] && forall k :: 0 <= k < |e.ids| ==> e.ids[k] in e.supported)
  {
    match e
    case CreateCode(_, ids, txCode, c, now) => PutEntries(s.codes, c, now + OFFER_TTL_SECS, Grant(ids, txCode, 0));
    case RequestToken(c, given, now, later) => SectionEffect(s.codes, c, given, now, later);
    case _ => CodesFrame(s, e);
  }

  lemma OffersChange(s: Issuer, e: Event, id: string)
    requires id in Step(s, e).offers.entries
    ensures var exp := Step(s, e).offers.entries[id].exp;
      || (id in s.offers.entries && s.offers.entries[id].exp == exp)
      || (e.PublishOffer? && e.offerId == id && exp == e.now + 600)
  {
    match e
    case PublishOffer(i, offerId, now) =>
      if i < |s.tasks| && s.tasks[i].Offering? {
        var Offering(code, ids, txCode) := s.tasks[i];
        PutEntries(s.offers, offerId, now + OFFER_TTL_SECS, OfferDoc(code, ids, txCode.Some?));
      }
    case FetchOffer(_, _) =>
    case _ => OffersFrame(s, e);
  }

  lemma TokensChange(s: Issuer, e: Event, token: string)
    requires token in Step(s, e).tokens.entries
    ensures var exp := Step(s, e).tokens.entries[token].exp;
      || (token in s.tokens.entries && s.tokens.entries[token].exp == exp)
      || (e.SendToken? && e.token == token && exp == e.now + 300)
  {
    match e
    case SendToken(i, t, now) =>
      if i < |s.tasks| && s.tasks[i].Granting? {
        PutEntries(s.tokens, t, now + ACCESS_TOKEN_TTL_SECS, s.tasks[i].ids);
      }
    case _ => TokensShrink(s, e);
  }

  lemma NoncesChange(s: Issuer, e: Event, nonce: string)
    requires nonce in Step(s, e).nonces.entries
    ensures var exp := Step(s, e).nonces.entries[nonce].exp;
      || (nonce in s.nonces.entries && s.nonces.entries[nonce].exp == exp)
      || (e.RequestNonce? && e.nonce == nonce && exp == e.now + 300)
  {
    match e
    case RequestNonce(n, now) => PutEntries(s.nonces, n, now + NONCE_TTL_SECS, ());
    case Prove(_, _, _, _, _, _) =>
    case _ => NoncesFrame(s, e);
  }

  lemma CodesNext(es: seq<Event>, n: nat, s: Issuer)
    requires n < |es| && CodesDated(es, n, s)
    ensures CodesDated(es, n + 1, Step(s, es[n]))
  {
    var s' := Step(s, es[n]);
    forall code | code in s'.codes.entries
      ensures CodeMade(es, n + 1, code, Terms(s'.codes.entries[code].value.ids, s'.codes.entries[code].value.txCode),
                       s'.codes.entries[code].exp)
    {
      CodesChange(s, es[n], code);
    }
  }

  lemma OffersNext(es: seq<Event>, n: nat, s: Issuer)
    requires n < |es| && OffersDated(es, n, s)
    ensures OffersDated(es, n + 1, Step(s, es[n]))
  {
    var s' := Step(s, es[n]);
    forall id | id in s'.offers.entries
      ensures OfferMade(es, n + 1, id, s'.offers.entries[id].exp)
    {
      OffersChange(s, es[n], id);
    }
  }

  lemma TokensNext(es: seq<Event>, n: nat, s: Issuer)
    requires n < |es| && TokensDated(es, n, s)
    ensures TokensDated(es, n + 1, Step(s, es[n]))
  {
    var s' := Step(s, es[n]);
    forall token | token in s'.tokens.entries
      ensures TokenMade(es, n + 1, token, s'.tokens.entries[token].exp)
    {
      TokensChange(s, es[n], token);
    }
  }

  lemma NoncesNext(es: seq<Event>, n: nat, s: Issuer)
    requires n < |es| && NoncesDated(es, n, s)
    ensures NoncesDated(es, n + 1, Step(s, es[n]))
  {
    var s' := Step(s, es[n]);
    forall nonce | nonce in s'.nonces.entries
      ensures NonceMade(es, n + 1, nonce, s'.nonces.entries[nonce].exp)
    {
      NoncesChange(s, es[n], nonce);
    }
  }

  // ---- Every task and every answer has its cause ----

  ghost predicate TaskCaused(es: seq<Event>, n: nat, t: Task)
    requires n <= |es|
  {
    match t
    case Granting(code, ids, given) => Redeemed(es, n, code, ids, given)
    case Authorized(token, _) => Presented(es, n, token)
    case Proven(token, configId, nonce) => ProvedWith(es, n, token, configId, nonce)
    case _ => true
  }

  ghost predicate AnswerCaused(es: seq<Event>, n: nat, a: Answer)
    requires n <= |es|
  {
    match a
    case TokenSent(_, code, given) => exists ids :: Redeemed(es, n, code, ids, given)
    case CredentialSent(configId, token, nonce) => ProvedWith(es, n, token, configId, nonce)
    case OfferServed(offerId, _) => Served(es, n, offerId)
    case _ => true
  }

  ghost predicate AllCaused(es: seq<Event>, n: nat, s: Issuer)
    requires n <= |es|
  {
    && (forall i :: 0 <= i < |s.tasks| ==> TaskCaused(es, n, s.tasks[i]))
    && (forall k :: 0 <= k < |s.answers| ==> AnswerCaused(es, n, s.answers[k]))
  }

  lemma TaskStaysCaused(es: seq<Event>, n: nat, t: Task)
    requires n < |es| && TaskCaused(es, n, t)
    ensures TaskCaused(es, n + 1, t)
  {
  }

  lemma AnswerStaysCaused(es: seq<Event>, n: nat, a: Answer)
    requires n < |es| && AnswerCaused(es, n, a)
    ensures AnswerCaused(es, n + 1, a)
  {
    if a.TokenSent? {
      var ids :| Redeemed(es, n, a.code, ids, a.given);
      assert Redeemed(es, n + 1, a.code, ids, a.given);
    }
  }

  datatype Aspect = CodeDates | OfferDates | TokenDates | NonceDates | Causes

  ghost predicate Fact(f: Aspect, es: seq<Event>, n: nat, s: Issuer)
    requires n <= |es|
  {
    match f
    case CodeDates => CodesDated(es, n, s)
    case OfferDates => OffersDated(es, n, s)
    case TokenDates => TokensDated(es, n, s)
    case NonceDates => NoncesDated(es, n, s)
    case Causes => AllCaused(es, n, s)
  }

  /** Everything known about the state before event `n`. */
  ghost predicate Traced(es: seq<Event>, n: nat, s: Issuer)
    requires n <= |es|
  {
    forall f: Aspect :: Fact(f, es, n, s)
  }

  lemma TracedMeans(es: seq<Event>, n: nat, s: Issuer)
    requires n <= |es|
    ensures Traced(es, n, s) <==>
      && CodesDated(es, n, s) && OffersDated(es, n, s) && TokensDated(es, n, s) && NoncesDated(es, n, s)
      && AllCaused(es, n, s)
  {
    if Traced(es, n, s) {
      assert Fact(CodeDates, es, n, s) && Fact(OfferDates, es, n, s) && Fact(TokenDates, es, n, s);
      assert Fact(NonceDates, es, n, s) && Fact(Causes, es, n, s);
    }
  }

  lemma TaskIsCaused(es: seq<Event>, n: nat, s: Issuer)
    requires n < |es| && Traced(es, n, s) && Advancing(s, es[n]).Some?
    ensures TaskCaused(es, n + 1, Advancing(s, es[n]).value.1)
  {
    TracedMeans(es, n, s);
    match es[n]
    case RequestToken(_, _, _, _) => GrantIsRedeemed(es, n, s);
    case Authorize(_, _) => AuthorizedIsPresented(es, n, s);
    case Prove(_, _, _, _, _, _) => ProvenIsProved(es, n, s);
    case _ =>
  }

  lemma GrantIsRedeemed(es: seq<Event>, n: nat, s: Issuer)
    requires n < |es| && CodesDated(es, n, s) && es[n].RequestToken? && Advancing(s, es[n]).Some?
    ensures TaskCaused(es, n + 1, Advancing(s, es[n]).value.1)
  {
    var RequestToken(code, given, now, later) := es[n];
    var Timed(exp, grant) := s.codes.entries[code];
    assert CodeMade(es, n, code, Terms(grant.ids, grant.txCode), exp);
    RepliesExactly(s.codes, code, given, now, later);
    assert HoldsAt(s.codes, code, grant, exp, now);
    assert Redeemed(es, n + 1, code, grant.ids, given);
  }

  lemma AuthorizedIsPresented(es: seq<Event>, n: nat, s: Issuer)
    requires n < |es| && TokensDated(es, n, s) && es[n].Authorize? && Advancing(s, es[n]).Some?
    ensures TaskCaused(es, n + 1, Advancing(s, es[n]).value.1)
  {
    var Authorize(token, now) := es[n];
    assert TokenMade(es, n, token, s.tokens.entries[token].exp);
    assert Presented(es, n + 1, token);
  }

  lemma ProvenIsProved(es: seq<Event>, n: nat, s: Issuer)
    requires n < |es| && NoncesDated(es, n, s) && AllCaused(es, n, s) && es[n].Prove? && Advancing(s, es[n]).Some?
    ensures TaskCaused(es, n + 1, Advancing(s, es[n]).value.1)
  {
    var Prove(i, configId, supported, proofOk, nonce, now) := es[n];
    assert TaskCaused(es, n, s.tasks[i]);
    if Answering(s, es[n]).Some? {
      assert NonceMade(es, n, nonce.value, s.nonces.entries[nonce.value].exp);
      assert ProvedWith(es, n + 1, s.tasks[i].token, configId, nonce.value);
    }
  }

  lemma AnswerIsCaused(es: seq<Event>, n: nat, s: Issuer)
    requires n < |es| && Traced(es, n, s) && Answering(s, es[n]).Some?
    ensures AnswerCaused(es, n + 1, Answering(s, es[n]).value)
  {
    TracedMeans(es, n, s);
    match es[n]
    case FetchOffer(_, _) => ServedIsPublished(es, n, s);
    case SendToken(i, _, _) => SentIsCaused(es, n, s.tasks[i]);
    case SendCredential(i, _) => SentIsCaused(es, n, s.tasks[i]);
    case _ =>
  }

  lemma ServedIsPublished(es: seq<Event>, n: nat, s: Issuer)
    requires n < |es| && OffersDated(es, n, s) && es[n].FetchOffer? && Answering(s, es[n]).Some?
    ensures AnswerCaused(es, n + 1, Answering(s, es[n]).value)
  {
    var FetchOffer(offerId, now) := es[n];
    assert OfferMade(es, n, offerId, s.offers.entries[offerId].exp);
    assert Served(es, n + 1, offerId);
  }

  lemma SentIsCaused(es: seq<Event>, n: nat, t: Task)
    requires n < |es| && TaskCaused(es, n, t)
    ensures t.Granting? ==> Redeemed(es, n + 1, t.code, t.ids, t.given)
    ensures t.Proven? ==> ProvedWith(es, n + 1, t.token, t.configId, t.nonce)
  {
    TaskStaysCaused(es, n, t);
  }

  lemma CausedNext(es: seq<Event>, n: nat, s: Issuer)
    requires n < |es| && Traced(es, n, s)
    ensures AllCaused(es, n + 1, Step(s, es[n]))
  {
    var to, said := Advancing(s, es[n]), Answering(s, es[n]);
    StepAdvances(s, es[n]);
    StepLogs(s, es[n]);
    if to.Some? {
      TaskIsCaused(es, n, s);
    }
    if said.Some? {
      AnswerIsCaused(es, n, s);
    }
    assert Fact(Causes, es, n, s);
    AllStaysCaused(es, n, s);
    StepCaused(es, n + 1, s, Step(s, es[n]), to, said);
  }

  lemma AllStaysCaused(es: seq<Event>, n: nat, s: Issuer)
    requires n < |es| && AllCaused(es, n, s)
    ensures AllCaused(es, n + 1, s)
  {
    forall i | 0 <= i < |s.tasks|
      ensures TaskCaused(es, n + 1, s.tasks[i])
    {
      TaskStaysCaused(es, n, s.tasks[i]);
    }
    forall k | 0 <= k < |s.answers|
      ensures AnswerCaused(es, n + 1, s.answers[k])
    {
      AnswerStaysCaused(es, n, s.answers[k]);
    }
  }

  lemma StepCaused(es: seq<Event>, n: nat, s: Issuer, s': Issuer, to: Option<(nat, Task)>, said: Option<Answer>)
    requires n <= |es| && Advances(s, s', to) && Logs(s, s', said) && AllCaused(es, n, s)
    requires to.Some? ==> TaskCaused(es, n, to.value.1)
    requires said.Some? ==> AnswerCaused(es, n, said.value)
    ensures AllCaused(es, n, s')
  {
  }

  lemma TracedNext(es: seq<Event>, n: nat, s: Issuer)
    requires n < |es| && Traced(es, n, s)
    ensures Traced(es, n + 1, Step(s, es[n]))
  {
    CausedNext(es, n, s);
    TracedMeans(es, n, s);
    CodesNext(es, n, s);
    OffersNext(es, n, s);
    TokensNext(es, n, s);
    NoncesNext(es, n, s);
    TracedMeans(es, n + 1, Step(s, es[n]));
  }

  lemma StartIsTraced(es: seq<Event>)
    ensures Traced(es, 0, Start())
  {
    TracedMeans(es, 0, Start());
  }

  lemma {:induction false} EverythingIsTraced(es: seq<Event>, n: nat)
    requires n <= |es|
    ensures Traced(es, n, At(es, n))
    decreases n
  {
    if n == 0 {
      StartIsTraced(es);
    } else {
      EverythingIsTraced(es, n - 1);
      TracedNext(es, n - 1, At(es, n - 1));
    }
  }

  lemma AnswersAreCaused(es: seq<Event>, k: nat)
    requires k < |At(es, |es|).answers|
    ensures AnswerCaused(es, |es|, At(es, |es|).answers[k])
  {
    EverythingIsTraced(es, |es|);
    assert Fact(Causes, es, |es|, At(es, |es|));
  }

  // ---- For callers ----

  /**
   Every access token sent was asked for, with exactly the Transaction Code the operator set or none where
   none was set, under a code the operator had created less than 600 seconds before, for a nonempty list of
   supported configurations.
   */
  lemma TokenHistory(es: seq<Event>, k: nat)
    requires IsRun(es) && k < |At(es, |es|).answers| && At(es, |es|).answers[k].TokenSent?
    ensures var TokenSent(token, code, given) := At(es, |es|).answers[k];
      exists ids :: Redeemed(es, |es|, code, ids, given)
  {
    AnswersAreCaused(es, k);
  }

  /**
   Every credential sent was asked for with a valid proof over a nonce handed out less than 300 seconds
   before, for a configuration supported at that moment, by a caller that had presented the access token
   less than 300 seconds after it was sent.
   */
  lemma CredentialHistory(es: seq<Event>, k: nat)
    requires IsRun(es) && k < |At(es, |es|).answers| && At(es, |es|).answers[k].CredentialSent?
    ensures var CredentialSent(configId, token, nonce) := At(es, |es|).answers[k];
      ProvedWith(es, |es|, token, configId, nonce)
  {
    AnswersAreCaused(es, k);
  }

  /** Every offer served by reference was published less than 600 seconds before. */
  lemma OfferHistory(es: seq<Event>, k: nat)
    requires IsRun(es) && k < |At(es, |es|).answers| && At(es, |es|).answers[k].OfferServed?
    ensures Served(es, |es|, At(es, |es|).answers[k].offerId)
  {
    AnswersAreCaused(es, k);
  }
}
