/** The StatusList2021 revocation bitstring: bit `i` is bit `i % 8`, most significant first, of byte `i / 8`. */
module StatusListState {
  import opened Prelude
  import opened IssuerTables

  /** The mask of position `k` within a byte. */
  function Mask(k: nat): bv8
    requires k < 8
  {
    0x80 >> k
  }

  predicate BitOf(byte: bv8, k: nat)
    requires k < 8
  {
    byte & Mask(k) != 0
  }

  lemma MaskTable(k: nat)
    requires k < 8
    ensures Mask(k) == [0x80, 0x40, 0x20, 0x10, 0x08, 0x04, 0x02, 0x01][k]
  {
    match k
    case 0 =>
    case 1 =>
    case 2 =>
    case 3 =>
    case 4 =>
    case 5 =>
    case 6 =>
    case 7 =>
  }

  /** Setting one position of a byte sets that position and no other. */
  lemma SettingABit(byte: bv8, k: nat, j: nat)
    requires k < 8 && j < 8
    ensures BitOf(byte | Mask(k), j) <==> j == k || BitOf(byte, j)
  {
    MaskTable(k);
    MaskTable(j);
  }

  /** The indexes whose bit is set. */
  function Ones(bytes: seq<bv8>): set<nat> {
    set i: nat | i < 8 * |bytes| && BitOf(bytes[i / 8], i % 8)
  }

  /** In the whole string, setting bit `i` adds `i` to the set and changes nothing else. */
  lemma SettingAnIndex(bytes: seq<bv8>, i: nat)
    requires i < 8 * |bytes|
    ensures Ones(bytes[i / 8 := bytes[i / 8] | Mask(i % 8)]) == Ones(bytes) + {i}
  {
    var after := bytes[i / 8 := bytes[i / 8] | Mask(i % 8)];
    forall j: nat
      ensures j in Ones(after) <==> j in Ones(bytes) || j == i
    {
      if j < 8 * |bytes| && j / 8 == i / 8 {
        SettingABit(bytes[i / 8], i % 8, j % 8);
      }
    }
  }

  lemma OneAt(bytes: seq<bv8>, i: nat)
    requires i < 8 * |bytes|
    ensures i in Ones(bytes) <==> bytes[i / 8] & Mask(i % 8) != 0
  {
  }

  lemma {:induction false} NoOnes(bytes: seq<bv8>)
    requires forall k :: 0 <= k < |bytes| ==> bytes[k] == 0
    ensures Ones(bytes) == {}
  {
    assert forall i: nat :: i < 8 * |bytes| ==> bytes[i / 8] == 0;
  }

  class StatusList {
    var bits: array<bv8>
    var nextIndex: nat
    var free: set<nat>
    var cachedJwt: Option<StatusJwt>

    ghost predicate Valid()
      reads this, bits
    {
      && 8 * bits.Length == STATUS_LIST_BITS
      && nextIndex <= STATUS_LIST_BITS
    }

    ghost function View(): StatusBits
      reads this, bits
    {
      StatusBits(nextIndex, free, Ones(bits[..]), cachedJwt)
    }

    constructor ()
      ensures Valid() && fresh(bits)
      ensures View() == StatusBits(0, {}, {}, None)
    {
      bits := new bv8[16384](_ => 0);
      nextIndex := 0;
      free := {};
      cachedJwt := None;
      new;
      NoOnes(bits[..]);
    }

    /** The lowest free index, else the next unused one, else none. */
    method Allocate() returns (index: Option<nat>)
      requires Valid()
      modifies this`free, this`nextIndex
      ensures Valid()
      ensures (View(), index) == IssuerTables.Allocate(old(View()))
    {
      if free != {} {
        LeastExists(free);
        assert exists m :: m in free && IsLeast(m, free);
        var lowest :| lowest in free && forall x :: x in free ==> lowest <= x;
        free := free - {lowest};
        return Some(lowest);
      }
      if nextIndex < STATUS_LIST_BITS {
        nextIndex := nextIndex + 1;
        return Some(nextIndex - 1);
      }
      return None;
    }

    method Release(index: nat)
      requires Valid()
      modifies this`free
      ensures Valid()
      ensures View() == IssuerTables.Release(old(View()), index)
    {
      if index < nextIndex {
        var taken := IsSet(index);
        if !taken {
          free := free + {index};
        }
      }
    }

    method Set(index: nat)
      requires Valid() && index < STATUS_LIST_BITS
      modifies this`cachedJwt, bits
      ensures Valid() && bits == old(bits)
      ensures View() == SetBit(old(View()), index)
      // Only a bit that changes costs the cached JWT.
      ensures cachedJwt == if index in old(View()).revoked then old(cachedJwt) else None
    {
      var at, mask := index / 8, Mask(index % 8);
      ghost var before := bits[..];
      OneAt(before, index);
      SettingAnIndex(before, index);
      if bits[at] & mask == 0 {
        bits[at] := bits[at] | mask;
        assert bits[..] == before[at := before[at] | mask];
        cachedJwt := None;
      }
    }

    method IsSet(index: nat) returns (r: bool)
      requires Valid() && index < STATUS_LIST_BITS
      ensures r <==> index in View().revoked
    {
      r := bits[index / 8] & Mask(index % 8) != 0;
    }

    /** The public endpoint: signs once, then serves the cached JWT until a bit changes. */
    method Serve(now: nat) returns (jwt: StatusJwt)
      requires Valid()
      modifies this`cachedJwt
      ensures Valid()
      ensures (View(), jwt) == ServeList(old(View()), now)
      ensures cachedJwt == Some(jwt)
      ensures jwt == if old(cachedJwt).Some? then old(cachedJwt).value else StatusJwt(View().revoked, now)
    {
      match cachedJwt
      case Some(cached) => jwt := cached;
      case None =>
        jwt := StatusJwt(Ones(bits[..]), now);
        cachedJwt := Some(jwt);
    }
  }
}
