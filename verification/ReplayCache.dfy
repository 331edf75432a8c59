/** Replay protection: the bounded cache of `jti` values and the claim checks that come before it. */
module ReplayCache {
  import opened Prelude

  const NBF_LEEWAY_SECS: nat := 30

  /** A window moves on by one: the new value enters, and the oldest leaves a full window. */
  lemma LastAppend<T>(s: seq<T>, n: nat, x: T)
    ensures Last(s + [x], n)
      == if |Last(s, n)| < n then Last(s, n) + [x] else (Last(s, n) + [x])[1..]
  {
    var t := s + [x];
    if |s| >= n {
      assert t[|t| - n..] == (s[|s| - n..] + [x])[1..];
    }
  }

  datatype Claims = Claims(
    iss: string, sub: string, aud: string, exp: nat, nbf: Option<nat>, iat: Option<nat>, jti: Option<string>)

  datatype Verdict = Accepted | SubjectMismatch | WrongAudience | Expired | NotYetValid | IssuedInFuture | Replayed

  class SeenJtiCache {
    var seen: set<string>
    var order: seq<string>
    const capacity: nat

    /** Every value ever accepted, oldest first. */
    ghost var accepted: seq<string>

    ghost predicate Valid()
      reads this
    {
      NoDup(order) && seen == Elems(order) && order == Last(accepted, capacity) && Accepts(accepted, capacity)
    }

    constructor (capacity: nat)
      ensures Valid() && accepted == [] && this.capacity == capacity
    {
      this.capacity := capacity;
      seen := {};
      order := [];
      accepted := [];
    }

    /** True exactly when the value is not among the last `capacity` accepted; it is then the newest of them. */
    method Insert(jti: string) returns (isNew: bool)
      requires Valid()
      modifies this
      ensures Valid()
      ensures isNew <==> jti !in Last(old(accepted), capacity)
      ensures accepted == if isNew then old(accepted) + [jti] else old(accepted)
      ensures isNew && capacity >= 1 ==> jti in seen
    {
      if jti in seen {
        return false;
      }
      LastAppend(accepted, capacity, jti);
      AcceptsMore(accepted, capacity, jti);
      AppendNew(order, jti);
      NoDupCardinality(order);
      seen := seen + {jti};
      order := order + [jti];
      accepted := accepted + [jti];
      NoDupCardinality(order);
      while |seen| > capacity
        invariant NoDup(order) && seen == Elems(order) && |seen| == |order|
        invariant Last(accepted, capacity) == if |order| <= capacity then order else order[1..]
        invariant |order| <= capacity + 1 && accepted == old(accepted) + [jti]
        decreases |order|
      {
        var oldest := order[0];
        TailElems(order);
        seen := seen - {oldest};
        order := order[1..];
        NoDupCardinality(order);
      }
      if capacity >= 1 {
        InLast(accepted, capacity, |accepted| - 1);
      }
      return true;
    }

    /**
     The checks on a verified envelope, in order, with the clock read by each of the three that need
     it. The `jti` is recorded last, so a token refused for another reason does not use it up.
     */
    method Check(c: Claims, audience: string, t1: nat, t2: nat, t3: nat) returns (v: Verdict)
      requires Valid()
      modifies this
      ensures Valid()
      ensures v.Accepted? <==>
        Passes(c, audience, t1, t2, t3) && (c.jti.Some? ==> c.jti.value !in Last(old(accepted), capacity))
      ensures v.Replayed? <==>
        Passes(c, audience, t1, t2, t3) && c.jti.Some? && c.jti.value in Last(old(accepted), capacity)
      // The first check that fails names the error.
      ensures v.SubjectMismatch? <==> c.sub != c.iss
      ensures v.WrongAudience? <==> c.sub == c.iss && c.aud != audience
      ensures v.Expired? <==> c.sub == c.iss && c.aud == audience && t1 >= c.exp
      ensures v.NotYetValid? <==>
        c.sub == c.iss && c.aud == audience && t1 < c.exp && c.nbf.Some? && c.nbf.value > t2 + 30
      ensures v.IssuedInFuture? <==>
        && c.sub == c.iss && c.aud == audience && t1 < c.exp && (c.nbf.Some? ==> c.nbf.value <= t2 + 30)
        && c.iat.Some? && c.iat.value > t3 + 30
      ensures accepted == if v.Accepted? && c.jti.Some? then old(accepted) + [c.jti.value] else old(accepted)
    {
      if c.sub != c.iss {
        return SubjectMismatch;
      }
      if c.aud != audience {
        return WrongAudience;
      }
      if c.exp <= t1 {
        return Expired;
      }
      if c.nbf.Some? && c.nbf.value > t2 + NBF_LEEWAY_SECS {
        return NotYetValid;
      }
      if c.iat.Some? && c.iat.value > t3 + NBF_LEEWAY_SECS {
        return IssuedInFuture;
      }
      if c.jti.Some? {
        var isNew := Insert(c.jti.value);
        if !isNew {
          return Replayed;
        }
      }
      return Accepted;
    }
  }

  /** A self-issued token for this audience, within its own time bounds. */
  predicate Passes(c: Claims, audience: string, t1: nat, t2: nat, t3: nat) {
    && c.iss == c.sub && c.aud == audience && t1 < c.exp
    && (c.nbf.Some? ==> c.nbf.value <= t2 + NBF_LEEWAY_SECS)
    && (c.iat.Some? ==> c.iat.value <= t3 + NBF_LEEWAY_SECS)
  }

  lemma TailElems<T(!new)>(s: seq<T>)
    requires NoDup(s) && s != []
    ensures NoDup(s[1..]) && Elems(s[1..]) == Elems(s) - {s[0]}
  {
    assert s == [s[0]] + s[1..];
  }

  /** Any history the cache accepted: whether each value was new to the window before it. */
  ghost predicate Accepts(history: seq<string>, capacity: nat) {
    forall k :: 0 <= k < |history| ==> history[k] !in Last(history[..k], capacity)
  }

  lemma AcceptsMore(history: seq<string>, capacity: nat, jti: string)
    requires Accepts(history, capacity) && jti !in Last(history, capacity)
    ensures Accepts(history + [jti], capacity)
  {
    var more := history + [jti];
    forall k | 0 <= k < |more|
      ensures more[k] !in Last(more[..k], capacity)
    {
      assert more[..k] == history[..k];
    }
    assert history[..|history|] == history;
  }

  /** So two uses of one value have at least `capacity` other accepted values between them. */
  lemma ReuseIsFarApart(history: seq<string>, capacity: nat, i: nat, j: nat)
    requires Accepts(history, capacity) && i < j < |history| && history[i] == history[j]
    ensures j - i > capacity
  {
    assert history[j] !in Last(history[..j], capacity);
    if j - i <= capacity {
      InLast(history[..j], capacity, i);
    }
  }

  lemma InLast<T>(s: seq<T>, n: nat, i: nat)
    requires |s| - n <= i < |s|
    ensures s[i] in Last(s, n)
  {
    if |s| > n {
      assert Last(s, n)[i - (|s| - n)] == s[i];
    }
  }
}
