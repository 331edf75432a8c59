/**
 The embedded Secure Token Service and the verifier of the access tokens it nests. A signature is the
 key that made it; a token that cannot be decoded has none.
 */
module Sts {
  import opened Prelude
  import opened Scopes

  const TOKEN_TTL_SECS: nat := 300

  type Key = nat

  datatype Identity = Identity(did: string, keyId: string, key: Key)

  datatype AccessClaims = AccessClaims(iss: Option<string>, aud: string, exp: nat, scope: Option<string>)

  datatype Token = Unreadable | Signed(kid: Option<string>, key: Key, claims: AccessClaims)

  /** The envelope: a Self-Issued ID Token, with an access token inside if a scope was asked for. */
  datatype Envelope = Envelope(kid: string, key: Key, iss: string, sub: string, aud: string, iat: nat, exp: nat,
                               token: Option<Token>)

  datatype Client = Client(id: seq<bv8>, secret: seq<bv8>)

  datatype Request = Request(grantType: string, client: Client, audience: string, scope: Option<string>,
                             ownServiceDid: string)

  datatype StsError = UnsupportedGrantType | InvalidClient | InvalidRequest

  // ---- Comparing secrets ----

  /** Every byte is compared, and the differences are gathered in one byte. */
  method ConstantTimeEq(a: seq<bv8>, b: seq<bv8>) returns (r: bool)
    ensures r <==> a == b
  {
    if |a| != |b| {
      return false;
    }
    var acc: bv8 := 0;
    for i := 0 to |a|
      invariant acc == 0 <==> forall k :: 0 <= k < i ==> a[k] == b[k]
    {
      OrIsZero(acc, a[i], b[i]);
      acc := acc | (a[i] ^ b[i]);
    }
    return acc == 0;
  }

  lemma OrIsZero(acc: bv8, x: bv8, y: bv8)
    ensures acc | (x ^ y) == 0 <==> acc == 0 && x == y
  {
  }

  // ---- Issuing ----

  /** Who will present the nested token: this party itself, when the envelope comes straight back. */
  function Presenter(signer: Identity, req: Request): string {
    if req.audience == req.ownServiceDid then signer.did else req.audience
  }

  function Issue(config: Client, signer: Identity, req: Request, now: nat): Result<Envelope, StsError> {
    if req.grantType != "client_credentials" then
      Err(UnsupportedGrantType)
    else if req.client != config then
      Err(InvalidClient)
    else if Words(req.audience) == [] then
      Err(InvalidRequest)
    else
      var nested := match req.scope
        case None => None
        case Some(scope) =>
          Some(Signed(Some(signer.keyId), signer.key,
                      AccessClaims(Some(signer.did), Presenter(signer, req), now + TOKEN_TTL_SECS, Some(scope))));
      Ok(Envelope(signer.keyId, signer.key, signer.did, signer.did, req.audience, now, now + TOKEN_TTL_SECS, nested))
  }

  /**
   Issuing succeeds exactly for client credentials that are both the configured ones and an audience that
   is not blank. What is issued is by the service about itself, for the audience asked for, for 300
   seconds, with a nested token exactly if a scope was asked for.
   */
  lemma IssuedExactly(config: Client, signer: Identity, req: Request, now: nat)
    ensures Issue(config, signer, req, now).Ok? <==>
      && req.grantType == "client_credentials"
      && req.client.id == config.id && req.client.secret == config.secret
      && exists i :: 0 <= i < |req.audience| && !IsSpace(req.audience[i])
    ensures Issue(config, signer, req, now).Ok? ==>
      var e := Issue(config, signer, req, now).value;
      && e.kid == signer.keyId && e.key == signer.key && e.iss == e.sub == signer.did
      && e.aud == req.audience && e.iat == now && e.exp == now + 300
      && (e.token.Some? <==> req.scope.Some?)
  {
    BlankHasNoWords(req.audience);
  }

  /** Which refusal it is: the grant type is looked at first, then the client, then the audience. */
  lemma RefusedExactly(config: Client, signer: Identity, req: Request, now: nat)
    ensures var r := Issue(config, signer, req, now);
      && (r == Err(UnsupportedGrantType) <==> req.grantType != "client_credentials")
      && (r == Err(InvalidClient) <==>
           req.grantType == "client_credentials" && (req.client.id != config.id || req.client.secret != config.secret))
  {
  }

  /** The envelope itself is a token signed by the same key, and may be presented as if it were nested. */
  function AsToken(e: Envelope): Token {
    Signed(Some(e.kid), e.key, AccessClaims(Some(e.iss), e.aud, e.exp, None))
  }

  method IssueToken(config: Client, signer: Identity, req: Request, now: nat) returns (r: Result<Envelope, StsError>)
    ensures r == Issue(config, signer, req, now)
    ensures r.Ok? <==>
      && req.grantType == "client_credentials"
      && req.client.id == config.id && req.client.secret == config.secret
      && exists i :: 0 <= i < |req.audience| && !IsSpace(req.audience[i])
  {
    IssuedExactly(config, signer, req, now);
    if req.grantType != "client_credentials" {
      return Err(UnsupportedGrantType);
    }
    var idOk := ConstantTimeEq(req.client.id, config.id);
    var secretOk := ConstantTimeEq(req.client.secret, config.secret);
    if !(idOk && secretOk) {
      return Err(InvalidClient);
    }
    if Words(req.audience) == [] {
      return Err(InvalidRequest);
    }
    var payload := Envelope(
      signer.keyId, signer.key, signer.did, signer.did, req.audience, now, now + TOKEN_TTL_SECS, None);
    if req.scope.Some? {
      var aud := if req.audience == req.ownServiceDid then signer.did else req.audience;
      payload := payload.(token := Some(Signed(Some(signer.keyId), signer.key,
        AccessClaims(Some(signer.did), aud, now + TOKEN_TTL_SECS, req.scope))));
    }
    return Ok(payload);
  }

  // ---- Verifying ----

  datatype AuthError = InvalidNestedToken | NotAuthoritative | NestedExpired | NotBoundToCaller

  function VerifyNested(token: Token, caller: string, authority: Identity, now: nat): Result<AccessClaims, AuthError> {
    match token
    case Unreadable => Err(InvalidNestedToken)
    case Signed(kid, key, claims) =>
      if claims.iss.None? || kid.None? then Err(InvalidNestedToken)
      else if claims.iss.value != authority.did then Err(NotAuthoritative)
      else if kid.value != authority.keyId then Err(InvalidNestedToken)
      else if key != authority.key then Err(InvalidNestedToken)
      else if claims.exp <= now then Err(NestedExpired)
      else if claims.aud != caller then Err(NotBoundToCaller)
      else Ok(claims)
  }

  /**
   A nested token is accepted exactly when it is the authority's own, by issuer, key id and signature,
   it has not expired, and it is bound to the caller.
   */
  lemma AcceptedExactly(token: Token, caller: string, authority: Identity, now: nat)
    ensures VerifyNested(token, caller, authority, now).Ok? <==>
      && token.Signed? && token.key == authority.key && token.kid == Some(authority.keyId)
      && token.claims.iss == Some(authority.did) && now < token.claims.exp && token.claims.aud == caller
    ensures VerifyNested(token, caller, authority, now).Ok? ==>
      VerifyNested(token, caller, authority, now).value == token.claims
  {
  }

  /** Without a token, or with one that carries no scope, nothing is granted; a token that is refused is an error. */
  lemma NothingWithoutScope(matcher: Matcher, token: Option<Token>, caller: string, authority: Identity, now: nat)
    ensures token.None? ==> Granted(matcher, token, caller, authority, now) == Ok([])
    ensures token.Some? ==>
      var verified := VerifyNested(token.value, caller, authority, now);
      var granted := Granted(matcher, token, caller, authority, now);
      && (granted.Ok? <==> verified.Ok?)
      && (granted.Err? ==> granted.error == verified.error)
      && (granted.Ok? && verified.value.scope.None? ==> granted.value == [])
  {
    assert Words("") == [];
  }

  /** The types a caller was granted: none without a token, none without a scope. */
  function Granted(matcher: Matcher, token: Option<Token>, caller: string, authority: Identity, now: nat)
    : Result<seq<string>, AuthError>
  {
    match token
    case None => Ok([])
    case Some(t) =>
      match VerifyNested(t, caller, authority, now)
      case Err(e) => Err(e)
      case Ok(claims) =>
        var scope := if claims.scope.Some? then claims.scope.value else "";
        Ok(Deduped(TypesNamed(matcher, Words(scope))))
  }

  /**
   The two sides agree: a nested token issued at `t` is accepted at `t'` from a caller exactly when
   less than its lifetime has passed and the caller is the one it was issued to; and then it grants
   the types its scope names, and no other.
   */
  lemma IssuedTokenVerifies(config: Client, signer: Identity, req: Request, t: nat, caller: string, t': nat,
                            matcher: Matcher)
    requires Issue(config, signer, req, t).Ok? && req.scope.Some?
    ensures var token := Issue(config, signer, req, t).value.token;
      && token.Some?
      && (Granted(matcher, token, caller, signer, t').Ok? <==>
           && t' < t + 300
           && caller == if req.audience == req.ownServiceDid then signer.did else req.audience)
      && (Granted(matcher, token, caller, signer, t').Ok? ==>
           forall x :: x in Granted(matcher, token, caller, signer, t').value <==>
             Names(matcher, Words(req.scope.value), x))
  {
    forall x: string
      ensures x in Deduped(TypesNamed(matcher, Words(req.scope.value))) <==> Names(matcher, Words(req.scope.value), x)
    {
      TypesNamedAre(matcher, Words(req.scope.value), x);
    }
  }

  /** Scopes joined with spaces come out of the token one by one. */
  lemma GrantsWhatWasAsked(config: Client, signer: Identity, req: Request, t: nat, scopes: seq<string>, t': nat,
                           matcher: Matcher)
    requires forall k :: 0 <= k < |scopes| ==> IsWord(scopes[k])
    requires req.scope == Some(Joined(scopes)) && Issue(config, signer, req, t).Ok? && t' < t + TOKEN_TTL_SECS
    ensures var r := Granted(matcher, Issue(config, signer, req, t).value.token, Presenter(signer, req), signer, t');
      r.Ok? && forall x :: x in r.value <==> Names(matcher, scopes, x)
  {
    SplitUndoesJoin(scopes);
    IssuedTokenVerifies(config, signer, req, t, Presenter(signer, req), t', matcher);
  }

  /** One issuance by the service. */
  datatype Issuance = Issuance(req: Request, at: nat)

  /** What the service has signed: envelopes, and the tokens nested in them. */
  ghost predicate SignedBySts(config: Client, signer: Identity, log: seq<Issuance>, token: Token) {
    exists k :: 0 <= k < |log| && Emitted(config, signer, log[k], token)
  }

  predicate Emitted(config: Client, signer: Identity, issuance: Issuance, token: Token) {
    match Issue(config, signer, issuance.req, issuance.at)
    case Err(_) => false
    case Ok(e) => AsToken(e) == token || e.token == Some(token)
  }

  /** The issuance that justifies a grant: to this caller, not yet expired, and naming the type. */
  ghost predicate Justifies(config: Client, signer: Identity, issuance: Issuance, matcher: Matcher, caller: string,
                            now: nat, x: string) {
    && Issue(config, signer, issuance.req, issuance.at).Ok?
    && issuance.req.grantType == "client_credentials"
    && issuance.req.client.id == config.id && issuance.req.client.secret == config.secret
    && issuance.req.scope.Some?
    && caller == (if issuance.req.audience == issuance.req.ownServiceDid then signer.did else issuance.req.audience)
    && now < issuance.at + 300
    && Names(matcher, Words(issuance.req.scope.value), x)
  }

  /**
   If the service's key signs nothing but what the service issues, every type ever granted was asked
   for by an authenticated client, for this caller, within the token's lifetime. An envelope
   presented in place of the token inside it is accepted too, but grants nothing.
   */
  lemma EveryGrantWasIssued(config: Client, signer: Identity, log: seq<Issuance>, matcher: Matcher,
                            token: Token, caller: string, now: nat, x: string)
    requires token.Signed? && token.key == signer.key ==> SignedBySts(config, signer, log, token)
    requires Granted(matcher, Some(token), caller, signer, now).Ok?
    requires x in Granted(matcher, Some(token), caller, signer, now).value
    ensures exists k :: 0 <= k < |log| && Justifies(config, signer, log[k], matcher, caller, now, x)
  {
    var k :| 0 <= k < |log| && Emitted(config, signer, log[k], token);
    var scope := if token.claims.scope.Some? then token.claims.scope.value else "";
    TypesNamedAre(matcher, Words(scope), x);
    assert Names(matcher, Words(scope), x);
    assert token.claims.scope.Some? by {
      assert scope == "" ==> Words(scope) == [];
    }
    assert Justifies(config, signer, log[k], matcher, caller, now, x);
  }
}
