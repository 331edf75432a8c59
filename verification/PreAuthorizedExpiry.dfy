/** Expiry over whole runs of the pre-authorized code flow: each table always evicts what expires first. */
module PreAuthorizedExpiry {
  import opened Prelude
  import opened ExpiringTables
  import opened PreAuthorizedCode
  import opened PreAuthorizedProofs

  /** The first and the last clock reading of a step, given the reading before it. */
  function FirstReading(e: Event, clock: nat): nat {
    if e.SendCredential? then clock else e.now
  }

  function LastReading(e: Event, clock: nat): nat {
    if e.SendCredential? then clock else if e.RequestToken? then e.later else e.now
  }

  /** The clock never goes back along these events. */
  predicate Clocked(es: seq<Event>, clock: nat)
    decreases |es|
  {
    es == []
    || (&& clock <= FirstReading(es[0], clock) <= LastReading(es[0], clock)
        && Clocked(es[1..], LastReading(es[0], clock)))
  }

  function EndClock(es: seq<Event>, clock: nat): nat
    decreases |es|
  {
    if es == [] then clock else EndClock(es[1..], LastReading(es[0], clock))
  }

  ghost predicate AllTidy(s: Issuer, clock: nat) {
    && Tidy(s.offers, MAX_OID4VCI_ENTRIES, clock + OFFER_TTL_SECS)
    && Tidy(s.codes, MAX_OID4VCI_ENTRIES, clock + OFFER_TTL_SECS)
    && Tidy(s.tokens, MAX_OID4VCI_ENTRIES, clock + ACCESS_TOKEN_TTL_SECS)
    && Tidy(s.nonces, MAX_OID4VCI_ENTRIES, clock + NONCE_TTL_SECS)
  }

  lemma WaitTidy<V>(t: Table<V>, clock: nat, later: nat, ttl: nat)
    requires Tidy(t, MAX_OID4VCI_ENTRIES, clock + ttl) && clock <= later
    ensures Tidy(t, MAX_OID4VCI_ENTRIES, later + ttl)
  {
    TidyMeans(t, MAX_OID4VCI_ENTRIES, clock + ttl);
    TidyMeans(t, MAX_OID4VCI_ENTRIES, later + ttl);
  }

  lemma AllWait(s: Issuer, clock: nat, later: nat)
    requires AllTidy(s, clock) && clock <= later
    ensures AllTidy(s, later)
  {
    WaitTidy(s.offers, clock, later, OFFER_TTL_SECS);
    WaitTidy(s.codes, clock, later, OFFER_TTL_SECS);
    WaitTidy(s.tokens, clock, later, ACCESS_TOKEN_TTL_SECS);
    WaitTidy(s.nonces, clock, later, NONCE_TTL_SECS);
  }

  /** A key about to be inserted is in no order yet. */
  lemma FreshKeys(s: Issuer, e: Event)
    requires Inv(s) && Enabled(s, e)
    ensures e.CreateCode? ==> e.code !in s.codes.order
    ensures e.PublishOffer? ==> e.offerId !in s.offers.order
    ensures e.SendToken? ==> e.token !in s.tokens.order
    ensures e.RequestNonce? ==> e.nonce !in s.nonces.order
  {
    assert Sat(TheTables, s);
  }

  lemma CodesTidy(s: Issuer, e: Event, clock: nat)
    requires Inv(s) && Enabled(s, e) && AllTidy(s, clock) && FirstReading(e, clock) == clock
    ensures Tidy(Step(s, e).codes, MAX_OID4VCI_ENTRIES, clock + OFFER_TTL_SECS)
  {
    FreshKeys(s, e);
    match e
    case CreateCode(_, ids, txCode, code, now) =>
      PutTidy(s.codes, MAX_OID4VCI_ENTRIES, code, now + OFFER_TTL_SECS, Grant(ids, txCode, 0));
    case RequestToken(code, given, now, later) =>
      TokenSectionTidy(s.codes, code, given, now, later, clock + OFFER_TTL_SECS);
    case _ => CodesFrame(s, e);
  }

  lemma TokenSectionTidy(codes: Table<Grant>, code: string, given: Option<string>, now: nat, later: nat, latest: nat)
    requires Tidy(codes, MAX_OID4VCI_ENTRIES, latest)
    ensures Tidy(TokenSection(codes, code, given, now, later).0, MAX_OID4VCI_ENTRIES, latest)
  {
    TakenTidy(codes, MAX_OID4VCI_ENTRIES, code, now, latest);
    if code in codes.entries {
      var grant := codes.entries[code].value;
      WrittenTidy(codes, MAX_OID4VCI_ENTRIES, code, grant.(failed := grant.failed + 1), latest);
    }
  }

  lemma OffersTidy(s: Issuer, e: Event, clock: nat)
    requires Inv(s) && Enabled(s, e) && AllTidy(s, clock) && FirstReading(e, clock) == clock
    ensures Tidy(Step(s, e).offers, MAX_OID4VCI_ENTRIES, clock + OFFER_TTL_SECS)
  {
    FreshKeys(s, e);
    match e
    case PublishOffer(i, offerId, now) =>
      if i < |s.tasks| && s.tasks[i].Offering? {
        var Offering(code, ids, txCode) := s.tasks[i];
        PutTidy(s.offers, MAX_OID4VCI_ENTRIES, offerId, now + OFFER_TTL_SECS, OfferDoc(code, ids, txCode.Some?));
      }
    case FetchOffer(offerId, now) => TakenTidy(s.offers, MAX_OID4VCI_ENTRIES, offerId, now, clock + OFFER_TTL_SECS);
    case _ => OffersFrame(s, e);
  }

  lemma TokensTidy(s: Issuer, e: Event, clock: nat)
    requires Inv(s) && Enabled(s, e) && AllTidy(s, clock) && FirstReading(e, clock) == clock
    ensures Tidy(Step(s, e).tokens, MAX_OID4VCI_ENTRIES, clock + ACCESS_TOKEN_TTL_SECS)
  {
    FreshKeys(s, e);
    match e
    case SendToken(i, token, now) =>
      if i < |s.tasks| && s.tasks[i].Granting? {
        PutTidy(s.tokens, MAX_OID4VCI_ENTRIES, token, now + ACCESS_TOKEN_TTL_SECS, s.tasks[i].ids);
      }
    case Authorize(token, now) => TakenTidy(s.tokens, MAX_OID4VCI_ENTRIES, token, now, clock + ACCESS_TOKEN_TTL_SECS);
    case _ => TokensFrame(s, e);
  }

  lemma NoncesTidy(s: Issuer, e: Event, clock: nat)
    requires Inv(s) && Enabled(s, e) && AllTidy(s, clock) && FirstReading(e, clock) == clock
    ensures Tidy(Step(s, e).nonces, MAX_OID4VCI_ENTRIES, clock + NONCE_TTL_SECS)
  {
    FreshKeys(s, e);
    match e
    case RequestNonce(nonce, now) => PutTidy(s.nonces, MAX_OID4VCI_ENTRIES, nonce, now + NONCE_TTL_SECS, ());
    case Prove(_, _, _, _, _, _) => ProveTidy(s, e, clock);
    case _ => NoncesFrame(s, e);
  }

  lemma ProveTidy(s: Issuer, e: Event, clock: nat)
    requires AllTidy(s, clock) && e.Prove?
    ensures Tidy(Step(s, e).nonces, MAX_OID4VCI_ENTRIES, clock + NONCE_TTL_SECS)
  {
    if e.proofNonce.Some? {
      TakenTidy(s.nonces, MAX_OID4VCI_ENTRIES, e.proofNonce.value, e.now, clock + NONCE_TTL_SECS);
    }
    assert Step(s, e).nonces == s.nonces
      || (e.proofNonce.Some? && Step(s, e).nonces == Taken(s.nonces, e.proofNonce.value));
  }

  lemma StepTidy(s: Issuer, e: Event, clock: nat)
    requires Inv(s) && Enabled(s, e) && AllTidy(s, clock)
    requires clock <= FirstReading(e, clock) <= LastReading(e, clock)
    ensures AllTidy(Step(s, e), LastReading(e, clock))
  {
    var now := FirstReading(e, clock);
    AllWait(s, clock, now);
    CodesTidy(s, e, now);
    OffersTidy(s, e, now);
    TokensTidy(s, e, now);
    NoncesTidy(s, e, now);
    AllWait(Step(s, e), now, LastReading(e, clock));
  }

  lemma StartTidy()
    ensures AllTidy(Start(), 0)
  {
    TidyMeans(Start().offers, MAX_OID4VCI_ENTRIES, OFFER_TTL_SECS);
    TidyMeans(Start().codes, MAX_OID4VCI_ENTRIES, OFFER_TTL_SECS);
    TidyMeans(Start().tokens, MAX_OID4VCI_ENTRIES, ACCESS_TOKEN_TTL_SECS);
    TidyMeans(Start().nonces, MAX_OID4VCI_ENTRIES, NONCE_TTL_SECS);
  }

  lemma {:induction false} RunTidy(s: Issuer, es: seq<Event>, clock: nat)
    requires Inv(s) && ValidRun(s, es) && AllTidy(s, clock) && Clocked(es, clock)
    ensures Inv(Run(s, es)) && AllTidy(Run(s, es), EndClock(es, clock))
    decreases |es|
  {
    if es != [] {
      StepKeeps(s, es[0]);
      StepTidy(s, es[0], clock);
      RunTidy(Step(s, es[0]), es[1..], LastReading(es[0], clock));
    }
  }

  /** A state some run reaches whose clock never went back, with its last reading. */
  ghost predicate ReachableAt(s: Issuer, clock: nat) {
    exists es :: ValidRun(Start(), es) && Clocked(es, 0) && s == Run(Start(), es) && clock == EndClock(es, 0)
  }

  lemma ReachableIsTidy(s: Issuer, clock: nat)
    requires ReachableAt(s, clock)
    ensures Inv(s) && AllTidy(s, clock)
  {
    var es :| ValidRun(Start(), es) && Clocked(es, 0) && s == Run(Start(), es) && clock == EndClock(es, 0);
    StartHolds();
    StartTidy();
    RunTidy(Start(), es, 0);
  }

  lemma CodesEvict(s: Issuer, e: Event, clock: nat)
    requires Inv(s) && Enabled(s, e) && AllTidy(s, clock) && FirstReading(e, clock) == clock && e.CreateCode?
    ensures FirstToExpireWent(s.codes, Step(s, e).codes)
  {
    FreshKeys(s, e);
    InsertionEvicts(s.codes, MAX_OID4VCI_ENTRIES, e.code, e.now + OFFER_TTL_SECS, Grant(e.ids, e.txCode, 0));
  }

  lemma OffersEvict(s: Issuer, e: Event, clock: nat)
    requires Inv(s) && Enabled(s, e) && AllTidy(s, clock) && FirstReading(e, clock) == clock && e.PublishOffer?
    ensures FirstToExpireWent(s.offers, Step(s, e).offers)
  {
    FreshKeys(s, e);
    if e.i < |s.tasks| && s.tasks[e.i].Offering? {
      var Offering(code, ids, txCode) := s.tasks[e.i];
      var doc := OfferDoc(code, ids, txCode.Some?);
      InsertionEvicts(s.offers, MAX_OID4VCI_ENTRIES, e.offerId, e.now + OFFER_TTL_SECS, doc);
    }
  }

  lemma TokensEvict(s: Issuer, e: Event, clock: nat)
    requires Inv(s) && Enabled(s, e) && AllTidy(s, clock) && FirstReading(e, clock) == clock && e.SendToken?
    ensures FirstToExpireWent(s.tokens, Step(s, e).tokens)
  {
    FreshKeys(s, e);
    if e.i < |s.tasks| && s.tasks[e.i].Granting? {
      InsertionEvicts(s.tokens, MAX_OID4VCI_ENTRIES, e.token, e.now + ACCESS_TOKEN_TTL_SECS, s.tasks[e.i].ids);
    }
  }

  lemma NoncesEvict(s: Issuer, e: Event, clock: nat)
    requires Inv(s) && Enabled(s, e) && AllTidy(s, clock) && FirstReading(e, clock) == clock && e.RequestNonce?
    ensures FirstToExpireWent(s.nonces, Step(s, e).nonces) && e.nonce in Step(s, e).nonces.entries
  {
    FreshKeys(s, e);
    InsertionEvicts(s.nonces, MAX_OID4VCI_ENTRIES, e.nonce, e.now + NONCE_TTL_SECS, ());
  }

  /** Whenever any of the four tables takes a new entry, what it evicts is what would have expired first. */
  lemma EvictionsTakeFirstToExpire(s: Issuer, clock: nat, e: Event)
    requires ReachableAt(s, clock) && Enabled(s, e) && clock <= FirstReading(e, clock)
    ensures e.CreateCode? ==> FirstToExpireWent(s.codes, Step(s, e).codes)
    ensures e.PublishOffer? ==> FirstToExpireWent(s.offers, Step(s, e).offers)
    ensures e.SendToken? ==> FirstToExpireWent(s.tokens, Step(s, e).tokens)
    ensures e.RequestNonce? ==> FirstToExpireWent(s.nonces, Step(s, e).nonces) && e.nonce in Step(s, e).nonces.entries
  {
    ReachableIsTidy(s, clock);
    AllWait(s, clock, FirstReading(e, clock));
    if e.CreateCode? {
      CodesEvict(s, e, e.now);
    } else if e.PublishOffer? {
      OffersEvict(s, e, e.now);
    } else if e.SendToken? {
      TokensEvict(s, e, e.now);
    } else if e.RequestNonce? {
      NoncesEvict(s, e, e.now);
    }
  }
}
