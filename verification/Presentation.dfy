/** What a presentation query returns. */
module Presentation {
  import opened Prelude
  import opened Scopes
  import opened Sts
  import opened GraphModel
  import opened GraphTrimming
  import opened CredentialGraphStore

  const CLOCK_SKEW_SECS: nat := 60

  datatype Window = Window(nbf: Option<nat>, exp: Option<nat>)

  /** The validity bounds in a payload, or none when it is no JWS that can be decoded. */
  type Reader = string -> Option<Window>

  predicate IsWithinValidity(w: Window, now: nat) {
    (w.nbf.Some? ==> w.nbf.value <= now + CLOCK_SKEW_SECS) && (w.exp.Some? ==> now < w.exp.value)
  }

  /** From 60 seconds before `nbf`, when there is one, until just before `exp`, when there is one. */
  ghost predicate InWindow(w: Window, now: nat) {
    (forall n :: w.nbf == Some(n) ==> n <= now + 60) && (forall e :: w.exp == Some(e) ==> now < e)
  }

  lemma WindowMeaning(w: Window, now: nat)
    ensures IsWithinValidity(w, now) <==> InWindow(w, now)
  {
    assert w.nbf.Some? ==> w.nbf == Some(w.nbf.value);
    assert w.exp.Some? ==> w.exp == Some(w.exp.value);
  }

  /** What cannot be decoded is shown; the rest, within its window. */
  ghost predicate Showable(read: Reader, payload: string, now: nat) {
    forall w :: read(payload) == Some(w) ==> InWindow(w, now)
  }

  lemma ShowableWhen(read: Reader, payload: string, now: nat)
    ensures Showable(read, payload, now) <==> read(payload).None? || IsWithinValidity(read(payload).value, now)
  {
    if read(payload).Some? {
      assert read(payload) == Some(read(payload).value);
      WindowMeaning(read(payload).value, now);
    }
  }

  ghost predicate Carries(creds: seq<Entry>, payload: string) {
    exists k :: 0 <= k < |creds| && creds[k].payload == payload
  }

  /** Every payload of `from` that may be shown, once, and nothing else. */
  ghost predicate ShownOnce(read: Reader, now: nat, from: seq<Entry>, shown: seq<Entry>) {
    && (forall i, j :: 0 <= i < j < |shown| ==> shown[i].payload != shown[j].payload)
    && (forall i :: 0 <= i < |shown| ==> shown[i] in from && Showable(read, shown[i].payload, now))
    && (forall k :: 0 <= k < |from| && Showable(read, from[k].payload, now) ==> Carries(shown, from[k].payload))
  }

  lemma CarriesMore(creds: seq<Entry>, c: Entry, payload: string)
    ensures Carries(creds + [c], payload) <==> Carries(creds, payload) || c.payload == payload
  {
    var more := creds + [c];
    assert more[|creds|] == c;
    if Carries(creds, payload) {
      var k :| 0 <= k < |creds| && creds[k].payload == payload;
      assert more[k].payload == payload;
    }
  }

  /** Leaves out what a verifier must refuse anyway: a repeat, and a credential outside its window. */
  method Presentable(read: Reader, creds: seq<Entry>, now: nat) returns (shown: seq<Entry>)
    ensures ShownOnce(read, now, creds, shown)
  {
    shown := [];
    var seen: set<string> := {};
    for k := 0 to |creds|
      invariant forall p :: p in seen <==> Carries(creds[..k], p)
      invariant ShownOnce(read, now, creds[..k], shown)
    {
      var c := creds[k];
      assert creds[..k + 1] == creds[..k] + [c];
      forall p: string
        ensures Carries(creds[..k + 1], p) <==> Carries(creds[..k], p) || c.payload == p
      {
        CarriesMore(creds[..k], c, p);
      }
      var isNew := c.payload !in seen;
      seen := seen + {c.payload};
      ShowableWhen(read, c.payload, now);
      if isNew && (read(c.payload).None? || IsWithinValidity(read(c.payload).value, now)) {
        ShowNext(read, now, creds[..k], shown, c);
        shown := shown + [c];
      } else {
        SkipNext(read, now, creds[..k], shown, c);
      }
    }
    assert creds[..|creds|] == creds;
  }

  lemma ShowNext(read: Reader, now: nat, from: seq<Entry>, shown: seq<Entry>, c: Entry)
    requires ShownOnce(read, now, from, shown) && !Carries(from, c.payload) && Showable(read, c.payload, now)
    ensures ShownOnce(read, now, from + [c], shown + [c])
  {
    forall i | 0 <= i < |shown|
      ensures shown[i].payload != c.payload
    {
      var k := Position(from, shown[i]);
      assert from[k].payload == shown[i].payload;
    }
    forall k | 0 <= k < |from + [c]| && Showable(read, (from + [c])[k].payload, now)
      ensures Carries(shown + [c], (from + [c])[k].payload)
    {
      CarriesMore(shown, c, (from + [c])[k].payload);
    }
  }

  lemma SkipNext(read: Reader, now: nat, from: seq<Entry>, shown: seq<Entry>, c: Entry)
    requires ShownOnce(read, now, from, shown) && (Carries(from, c.payload) || !Showable(read, c.payload, now))
    ensures ShownOnce(read, now, from + [c], shown)
  {
    if Carries(from, c.payload) {
      var k :| 0 <= k < |from| && from[k].payload == c.payload;
    }
  }

  // ---- From the store to the presentation ----

  /** A stored credential the query is entitled to. */
  ghost predicate Entitled(items: seq<Item>, types: seq<string>, i: nat, j: nat) {
    && i < |items| && items[i].head.BatchHead? && items[i].head.status == ISSUED
    && j < |items[i].children| && items[i].children[j].Credential?
    && items[i].children[j].credentialType in types
  }

  lemma {:induction false} OfTypesAre(children: seq<Child>, types: seq<string>, c: Child)
    ensures c in OfTypes(children, types) <==> c in children && c.Credential? && c.credentialType in types
    decreases |children|
  {
    if children != [] {
      var front, last := children[..|children| - 1], children[|children| - 1];
      OfTypesAre(front, types, c);
      assert children == front + [last];
    }
  }

  lemma {:induction false} WantedIsEntitled(items: seq<Item>, types: seq<string>, c: Child) returns (i: nat, j: nat)
    requires c in Wanted(items, types)
    ensures Entitled(items, types, i, j) && items[i].children[j] == c
    decreases |items|
  {
    var front, last := items[..|items| - 1], items[|items| - 1];
    if c in Wanted(front, types) {
      i, j := WantedIsEntitled(front, types, c);
      assert front[i] == items[i];
    } else {
      OfTypesAre(last.children, types, c);
      i := |items| - 1;
      j := Position(last.children, c);
    }
  }

  lemma {:induction false} EntitledIsWanted(items: seq<Item>, types: seq<string>, i: nat, j: nat)
    requires Entitled(items, types, i, j)
    ensures items[i].children[j] in Wanted(items, types)
    decreases |items|
  {
    var front, last := items[..|items| - 1], items[|items| - 1];
    if i < |front| {
      assert front[i] == items[i];
      EntitledIsWanted(front, types, i, j);
    } else {
      OfTypesAre(last.children, types, last.children[j]);
    }
  }

  /** Requested and granted. */
  method EffectiveTypes(requested: seq<string>, granted: seq<string>) returns (types: seq<string>)
    ensures forall t :: t in types <==> t in requested && t in granted
  {
    types := [];
    for k := 0 to |requested|
      invariant forall t :: t in types <==> t in requested[..k] && t in granted
    {
      assert requested[..k + 1] == requested[..k] + [requested[k]];
      if requested[k] in granted {
        types := types + [requested[k]];
      }
    }
    assert requested[..|requested|] == requested;
  }

  /** The credentials a stored batch list, two lists of scopes and a clock entitle a caller to see. */
  ghost predicate IsEntitled(matcher: Matcher, items: seq<Item>, requested: seq<string>, granted: seq<string>, i: nat,
                             j: nat) {
    && i < |items| && items[i].head.BatchHead? && items[i].head.status == ISSUED
    && j < |items[i].children| && items[i].children[j].Credential?
    && Names(matcher, requested, items[i].children[j].credentialType)
    && items[i].children[j].credentialType in granted
  }

  /**
   The whole query, for a caller whose envelope has been verified. Refused exactly when the nested
   token is; otherwise each distinct payload of an entitled, showable credential is presented once,
   and nothing else is. The clock is read when the token is checked and again for the validity windows.
   */
  method PresentationQuery(graph: CredentialGraph, hits: seq<Hit>, matcher: Matcher, read: Reader,
                           requestedScopes: seq<string>, token: Option<Token>, caller: string, authority: Identity,
                           checkedAt: nat, now: nat)
      returns (r: Result<seq<Entry>, AuthError>)
    requires graph.Valid() && HitAnswer(graph.quads, hits)
    ensures var grant := Granted(matcher, token, caller, authority, checkedAt);
      match r
      case Err(e) => grant == Err(e)
      case Ok(shown) =>
        && grant.Ok?
        && (forall a, b :: 0 <= a < b < |shown| ==> shown[a].payload != shown[b].payload)
        && var items := Last(graph.allBatches, MAX_CREDENTIAL_BATCHES);
           && Complete(matcher, read, items, requestedScopes, grant.value, now, shown)
           && Sound(matcher, read, items, requestedScopes, grant.value, now, shown)
  {
    var requested := CredentialTypes(matcher, requestedScopes);
    var grant := Granted(matcher, token, caller, authority, checkedAt);
    match grant
    case Err(e) => return Err(e);
    case Ok(granted) =>
      var types := EffectiveTypes(requested, granted);
      var found := graph.CredentialsOfTypes(hits, types);
      ghost var items := Last(graph.allBatches, MAX_CREDENTIAL_BATCHES);
      FoundAreEntries(items, types, found);
      var shown := Presentable(read, found, now);
      ShownIsSound(matcher, read, items, requestedScopes, granted, types, found, now, shown);
      ShownIsComplete(matcher, read, items, requestedScopes, granted, types, found, now, shown);
      return Ok(shown);
  }

  ghost predicate Complete(matcher: Matcher, read: Reader, items: seq<Item>, requested: seq<string>,
                           granted: seq<string>, now: nat, shown: seq<Entry>)
  {
    forall i: nat, j: nat ::
      IsEntitled(matcher, items, requested, granted, i, j) && Showable(read, items[i].children[j].payload, now) ==>
      Carries(shown, items[i].children[j].payload)
  }

  ghost predicate Sound(matcher: Matcher, read: Reader, items: seq<Item>, requested: seq<string>, granted: seq<string>,
                        now: nat, shown: seq<Entry>)
  {
    forall k :: 0 <= k < |shown| ==>
      Showable(read, shown[k].payload, now) && Backed(matcher, items, requested, granted, shown[k])
  }

  /** The credential is in the store, and the caller is entitled to it. */
  ghost predicate Backed(matcher: Matcher, items: seq<Item>, requested: seq<string>, granted: seq<string>, c: Entry) {
    exists i: nat, j: nat :: IsEntitled(matcher, items, requested, granted, i, j) && items[i].children[j] == c
  }

  lemma FoundAreEntries(items: seq<Item>, types: seq<string>, found: seq<Child>)
    requires multiset(found) == multiset(Wanted(items, types))
    ensures forall k :: 0 <= k < |found| ==> found[k].Credential?
    ensures forall c :: c in found <==> c in Wanted(items, types)
  {
    SameBag(found, Wanted(items, types));
    forall c | c in found
      ensures c.Credential?
    {
      var _, _ := WantedIsEntitled(items, types, c);
    }
  }

  lemma ShownIsSound(matcher: Matcher, read: Reader, items: seq<Item>, requested: seq<string>, granted: seq<string>,
                     types: seq<string>, found: seq<Entry>, now: nat, shown: seq<Entry>)
    requires forall c :: c in found <==> c in Wanted(items, types)
    requires forall t :: t in types <==> Names(matcher, requested, t) && t in granted
    requires ShownOnce(read, now, found, shown)
    ensures Sound(matcher, read, items, requested, granted, now, shown)
  {
    forall k | 0 <= k < |shown|
      ensures Showable(read, shown[k].payload, now) && Backed(matcher, items, requested, granted, shown[k])
    {
      assert shown[k] in found;
      var i, j := WantedIsEntitled(items, types, shown[k]);
      assert IsEntitled(matcher, items, requested, granted, i, j);
    }
  }

  lemma ShownIsComplete(matcher: Matcher, read: Reader, items: seq<Item>, requested: seq<string>, granted: seq<string>,
                        types: seq<string>, found: seq<Entry>, now: nat, shown: seq<Entry>)
    requires forall c :: c in found <==> c in Wanted(items, types)
    requires forall t :: t in types <==> Names(matcher, requested, t) && t in granted
    requires ShownOnce(read, now, found, shown)
    ensures Complete(matcher, read, items, requested, granted, now, shown)
  {
    forall i: nat, j: nat | IsEntitled(matcher, items, requested, granted, i, j)
                            && Showable(read, items[i].children[j].payload, now)
      ensures Carries(shown, items[i].children[j].payload)
    {
      EntitledIsWanted(items, types, i, j);
      var k := Position(found, items[i].children[j]);
      assert found[k].payload == items[i].children[j].payload;
    }
  }
}
