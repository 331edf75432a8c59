/** The trusted issuers registry: when a cached snapshot is served, refetched or refused. */
module RegistryTrust {
  import opened Prelude

  const MAX_U64: nat := 0xffff_ffff_ffff_ffff
  const REFRESH_MARGIN_SECS: nat := 30

  type u64 = x: nat | x <= MAX_U64

  function SaturatingAdd(a: u64, b: u64): u64 {
    if a + b > MAX_U64 then MAX_U64 else a + b
  }

  function SaturatingSub(a: u64, b: u64): u64 {
    if a < b then 0 else a - b
  }

  predicate NeedsRefresh(fetchedAt: u64, iat: u64, exp: u64, now: u64) {
    || now >= SaturatingAdd(fetchedAt, SaturatingSub(exp, iat) / 4)
    || SaturatingAdd(now, REFRESH_MARGIN_SECS) >= exp
  }

  /**
   What the saturating test decides, in exact arithmetic: a snapshot is kept exactly while it is
   younger than a quarter of its lifetime and more than the margin from its end. Where the sums
   saturate, it is refetched.
   */
  lemma KeptWhileYoung(fetchedAt: u64, iat: u64, exp: u64, now: u64)
    ensures !NeedsRefresh(fetchedAt, iat, exp, now) <==>
      && now < 0xffff_ffff_ffff_ffff
      && now + 30 < exp
      && (if iat < exp then now < fetchedAt + (exp - iat) / 4 else now < fetchedAt)
  {
  }

  datatype Snapshot = Snapshot(iat: u64, exp: u64, body: string)

  datatype Cached = Cached(list: Snapshot, fetchedAt: u64)

  /** Younger than a quarter of its lifetime, and more than 30 seconds from its end. */
  ghost predicate Fresh(c: Cached, now: u64) {
    && now < 0xffff_ffff_ffff_ffff
    && now + 30 < c.list.exp
    && now < c.fetchedAt + if c.list.iat < c.list.exp then (c.list.exp - c.list.iat) / 4 else 0
  }

  class Registry {
    var cached: Option<Cached>

    /** The latest clock reading so far. */
    ghost var clock: u64

    ghost predicate Valid()
      reads this
    {
      cached.Some? ==> cached.value.fetchedAt <= clock
    }

    constructor ()
      ensures Valid() && cached == None && clock == 0
    {
      cached := None;
      clock := 0;
    }

    /**
     One request for the list. `fetched` is what the network gives, should it be asked; a snapshot
     that was fetched has been verified, so it is not expired at `now`.
     */
    method TrustList(now: u64, fetched: Result<Snapshot, string>) returns (r: Result<Snapshot, string>)
      requires Valid()
      requires fetched.Ok? ==> now < fetched.value.exp
      modifies this
      ensures Valid() && clock == if old(clock) < now then now else old(clock)
      // A fresh snapshot is served as it is; otherwise what is fetched replaces it, and a failed
      // refresh falls back on it while it has not expired.
      ensures old(cached).Some? && Fresh(old(cached).value, now) ==>
        r == Ok(old(cached).value.list) && cached == old(cached)
      ensures (old(cached).None? || !Fresh(old(cached).value, now)) && fetched.Ok? ==>
        r == fetched && cached == Some(Cached(fetched.value, now))
      ensures (old(cached).None? || !Fresh(old(cached).value, now)) && fetched.Err? ==>
        && cached == old(cached)
        && r == if old(cached).Some? && now < old(cached).value.list.exp then Ok(old(cached).value.list)
                else Err(fetched.error)
      // Never an expired list; and it is young, just fetched, or what is left after a failed refresh.
      ensures r.Ok? ==> now < r.value.exp
      ensures r.Ok? ==>
        || (r == fetched && cached == Some(Cached(r.value, now)))
        || (&& old(cached).Some? && cached == old(cached) && r.value == cached.value.list
            && (Young(cached.value, now) || fetched.Err?))
      // With a clock that has not gone back, a young list was fetched in the past.
      ensures old(clock) <= now && old(cached).Some? ==> old(cached).value.fetchedAt <= now
      // Refused only when nothing unexpired is left and the refresh failed.
      ensures r.Err? <==> fetched.Err? && (old(cached).None? || old(cached).value.list.exp <= now)
      ensures r.Err? ==> cached == old(cached)
    {
      clock := if clock < now then now else clock;
      if cached.Some? {
        var c := cached.value;
        KeptWhileYoung(c.fetchedAt, c.list.iat, c.list.exp, now);
        if !NeedsRefresh(c.fetchedAt, c.list.iat, c.list.exp, now) {
          return Ok(c.list);
        }
      }
      match fetched
      case Ok(list) =>
        cached := Some(Cached(list, now));
        return Ok(list);
      case Err(e) =>
        if cached.Some? && now < cached.value.list.exp {
          return Ok(cached.value.list);
        }
        return Err(e);
    }
  }

  /** Fetched less than a quarter of its lifetime before `now`, or, should the clock have gone back, after it. */
  predicate Young(c: Cached, now: u64) {
    4 * (now - c.fetchedAt) < SaturatingSub(c.list.exp, c.list.iat) || now < c.fetchedAt
  }
}
