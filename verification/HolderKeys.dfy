/**
 The spelling a holder's DID is indexed by. For `did:web` the host is lowercased and the hex digits
 of every `%xx` escape are uppercased; nothing else is touched, and other DID methods are kept as
 they are. Text is modelled as characters: the only bytes the code inspects are ASCII, and a byte
 slice that would cut a wider character is never a pair of hex digits.
 */
module HolderKeys {
  predicate IsUpper(c: char) { 'A' <= c <= 'Z' }

  predicate IsLower(c: char) { 'a' <= c <= 'z' }

  predicate IsDigit(c: char) { '0' <= c <= '9' }

  predicate IsHex(c: char) { IsDigit(c) || 'a' <= c <= 'f' || 'A' <= c <= 'F' }

  predicate IsHostChar(c: char) { IsUpper(c) || IsLower(c) || IsDigit(c) || c == '.' || c == '-' }

  function Upper(c: char): char { if IsLower(c) then (c as int - 32) as char else c }

  function Lower(c: char): char { if IsUpper(c) then (c as int + 32) as char else c }

  function LowerAll(s: string): string {
    seq(|s|, i requires 0 <= i < |s| => Lower(s[i]))
  }

  predicate HostSpelling(host: string) {
    forall i :: 0 <= i < |host| ==> IsHostChar(host[i])
  }

  /** The first position of `c`, or the length of `s` when there is none. */
  function Find(s: string, c: char): (r: nat)
    ensures r <= |s|
    ensures r < |s| ==> s[r] == c
    ensures forall i :: 0 <= i < r ==> s[i] != c
  {
    if s == [] || s[0] == c then 0 else 1 + Find(s[1..], c)
  }

  /** Whether a `%xx` escape starts at position `at`. */
  predicate EscapeAt(s: string, at: nat) {
    at + 2 < |s| && s[at] == '%' && IsHex(s[at + 1]) && IsHex(s[at + 2])
  }

  function UppercaseEscapes(s: string): string
    decreases |s|
  {
    var at := Find(s, '%');
    if at == |s| then
      s
    else if EscapeAt(s, at) then
      s[..at] + ['%', Upper(s[at + 1]), Upper(s[at + 2])] + UppercaseEscapes(s[at + 3..])
    else
      s[..at] + ['%'] + UppercaseEscapes(s[at + 1..])
  }

  function Split(s: string): (parts: seq<string>)
    ensures |parts| >= 1
    decreases |s|
  {
    var at := Find(s, ':');
    if at == |s| then [s] else [s[..at]] + Split(s[at + 1..])
  }

  function Join(parts: seq<string>): string
    requires |parts| >= 1
  {
    if |parts| == 1 then parts[0] else parts[0] + [':'] + Join(parts[1..])
  }

  function FoldSegment(first: bool, segment: string): string {
    var at := Find(segment, '%');
    var host, tail := segment[..at], segment[at..];
    if first && HostSpelling(host) then
      UppercaseEscapes(LowerAll(host) + tail)
    else
      UppercaseEscapes(segment)
  }

  function FoldSegments(first: bool, parts: seq<string>): (folded: seq<string>)
    ensures |folded| == |parts|
  {
    if parts == [] then [] else [FoldSegment(first, parts[0])] + FoldSegments(false, parts[1..])
  }

  const WEB_PREFIX: string := "did:web:"

  function HolderKey(did: string): string {
    if WEB_PREFIX <= did then
      WEB_PREFIX + Join(FoldSegments(true, Split(did[|WEB_PREFIX|..])))
    else
      did
  }

  /** The loop of `uppercase_escapes`: copy up to a `%`, then the escape or the lone sign, and go on. */
  method UppercaseEscapesLoop(s: string) returns (out: string)
    ensures out == UppercaseEscapes(s)
  {
    out := [];
    var rest := s;
    var at := Find(rest, '%');
    while at < |rest|
      invariant at == Find(rest, '%')
      invariant out + UppercaseEscapes(rest) == UppercaseEscapes(s)
      decreases |rest|
    {
      if EscapeAt(rest, at) {
        var piece := rest[..at] + ['%', Upper(rest[at + 1]), Upper(rest[at + 2])];
        assert UppercaseEscapes(rest) == piece + UppercaseEscapes(rest[at + 3..]);
        Regroup(out, piece, UppercaseEscapes(rest[at + 3..]));
        out := out + piece;
        rest := rest[at + 3..];
      } else {
        var piece := rest[..at] + ['%'];
        assert UppercaseEscapes(rest) == piece + UppercaseEscapes(rest[at + 1..]);
        Regroup(out, piece, UppercaseEscapes(rest[at + 1..]));
        out := out + piece;
        rest := rest[at + 1..];
      }
      at := Find(rest, '%');
    }
    out := out + rest;
  }

  lemma Regroup(a: string, b: string, c: string)
    ensures a + (b + c) == (a + b) + c
  {
  }

  // ---- What the key is, position by position ----

  /** Position `i` is one of the two hex digits of a `%xx` escape. */
  predicate EscapeDigit(s: string, i: nat)
    requires i < |s|
  {
    (i >= 1 && EscapeAt(s, i - 1)) || (i >= 2 && EscapeAt(s, i - 2))
  }

  /** Where the host of the part after `did:web:` ends: at the first `:` or `%`. */
  function HostEnd(rest: string): (r: nat)
    ensures r <= |rest|
  {
    var colon, percent := Find(rest, ':'), Find(rest, '%');
    if colon < percent then colon else percent
  }

  predicate HostPosition(rest: string, i: nat)
    requires i < |rest|
  {
    i < HostEnd(rest) && HostSpelling(rest[..HostEnd(rest)])
  }

  /** The positions whose letter case the key forgets. */
  predicate CaseFree(did: string, i: nat)
    requires i < |did|
  {
    && WEB_PREFIX <= did
    && i >= |WEB_PREFIX|
    && var rest, j := did[|WEB_PREFIX|..], i - |WEB_PREFIX|;
       HostPosition(rest, j) || EscapeDigit(rest, j)
  }

  function Folded(rest: string, i: nat): char
    requires i < |rest|
  {
    if HostPosition(rest, i) then Lower(rest[i]) else EscapeFolded(rest, i)
  }

  /** Character `i` with escape digits in upper case. */
  function EscapeFolded(s: string, i: nat): char
    requires i < |s|
  {
    if EscapeDigit(s, i) then Upper(s[i]) else s[i]
  }

  /** `t` is `s` with its escape digits in upper case. */
  ghost predicate EscapesFolded(s: string, t: string) {
    |t| == |s| && forall i :: 0 <= i < |s| ==> t[i] == EscapeFolded(s, i)
  }

  /** What the loop emits for the text up to and including the first `%`, or its escape. */
  function Emitted(s: string, at: nat): string
    requires at < |s|
  {
    s[..at] + if EscapeAt(s, at) then ['%', Upper(s[at + 1]), Upper(s[at + 2])] else ['%']
  }

  lemma EmittedAt(s: string, i: nat)
    requires Find(s, '%') < |s| && i < |Emitted(s, Find(s, '%'))|
    ensures i < |s| && Emitted(s, Find(s, '%'))[i] == EscapeFolded(s, i)
  {
    var at := Find(s, '%');
    if i < at {
      assert !EscapeDigit(s, i);
    } else if i == at {
      assert !EscapeDigit(s, i);
    } else {
      assert EscapeDigit(s, i);
    }
  }

  /** The parser loop only looks at three neighbouring characters at a time. */
  lemma {:induction false} UppercaseEscapesAt(s: string)
    ensures EscapesFolded(s, UppercaseEscapes(s))
    decreases |s|
  {
    var at := Find(s, '%');
    if at < |s| {
      var head := Emitted(s, at);
      var n := |head|;
      UppercaseEscapesAt(s[n..]);
      var tail := UppercaseEscapes(s[n..]);
      assert UppercaseEscapes(s) == head + tail;
      PasteEmitted(s, tail);
    }
  }

  lemma PasteEmitted(s: string, tail: string)
    requires Find(s, '%') < |s|
    requires var n := |Emitted(s, Find(s, '%'))|; n <= |s| && EscapesFolded(s[n..], tail)
    ensures EscapesFolded(s, Emitted(s, Find(s, '%')) + tail)
  {
    var head := Emitted(s, Find(s, '%'));
    var n := |head|;
    forall i | 0 <= i < |s|
      ensures (head + tail)[i] == EscapeFolded(s, i)
    {
      if i < n {
        EmittedAt(s, i);
      } else {
        TailDigits(s, n, i);
        assert (head + tail)[i] == tail[i - n];
      }
    }
  }

  /** Past a character that starts no escape of its own, the digits of the tail are those of the whole. */
  lemma TailDigits(s: string, n: nat, i: nat)
    requires 1 <= n <= i < |s|
    requires !EscapeAt(s, n - 1)
    requires n >= 2 ==> !EscapeAt(s, n - 2)
    ensures EscapeDigit(s, i) <==> EscapeDigit(s[n..], i - n)
  {
    var t, j := s[n..], i - n;
    assert j >= 1 ==> (EscapeAt(t, j - 1) <==> EscapeAt(s, i - 1));
    assert j >= 2 ==> (EscapeAt(t, j - 2) <==> EscapeAt(s, i - 2));
  }

  /** No escape reaches across a `:`. */
  lemma ColonSeparates(s: string, at: nat, i: nat)
    requires at < |s| && s[at] == ':' && i < |s|
    ensures i < at ==> (EscapeDigit(s, i) <==> EscapeDigit(s[..at], i))
    ensures i == at ==> !EscapeDigit(s, i)
    ensures i > at ==> (EscapeDigit(s, i) <==> EscapeDigit(s[at + 1..], i - at - 1))
  {
    if i < at {
      assert i >= 1 ==> (EscapeAt(s, i - 1) <==> EscapeAt(s[..at], i - 1));
      assert i >= 2 ==> (EscapeAt(s, i - 2) <==> EscapeAt(s[..at], i - 2));
    } else if i > at {
      TailDigits(s, at + 1, i);
    }
  }

  /** Folding the two sides of a `:` folds the whole. */
  lemma PasteTail(s: string, at: nat, left: string, right: string)
    requires at < |s| && s[at] == ':'
    requires EscapesFolded(s[..at], left) && EscapesFolded(s[at + 1..], right)
    ensures EscapesFolded(s, left + [':'] + right)
  {
    var t := left + [':'] + right;
    forall i | 0 <= i < |s|
      ensures t[i] == EscapeFolded(s, i)
    {
      ColonSeparates(s, at, i);
      if i > at {
        assert t[i] == right[i - at - 1];
      }
    }
  }

  lemma {:induction false} FoldedTail(s: string)
    ensures EscapesFolded(s, Join(FoldSegments(false, Split(s))))
    decreases |s|
  {
    var at := Find(s, ':');
    if at == |s| {
      UppercaseEscapesAt(s);
      assert FoldSegments(false, [s]) == [FoldSegment(false, s)];
    } else {
      var segment, rest := s[..at], s[at + 1..];
      UppercaseEscapesAt(segment);
      FoldedTail(rest);
      JoinFirst(false, segment, Split(rest));
      PasteTail(s, at, FoldSegment(false, segment), Join(FoldSegments(false, Split(rest))));
    }
  }

  lemma JoinFirst(first: bool, segment: string, parts: seq<string>)
    requires |parts| >= 1
    ensures Join(FoldSegments(first, [segment] + parts))
      == FoldSegment(first, segment) + [':'] + Join(FoldSegments(false, parts))
  {
    assert ([segment] + parts)[1..] == parts;
    var folded := FoldSegments(first, [segment] + parts);
    assert folded[1..] == FoldSegments(false, parts);
  }

  /** The first segment: the host in lower case, then the escapes. */
  lemma FoldedFirst(segment: string)
    ensures var t := FoldSegment(true, segment);
      && |t| == |segment|
      && forall i :: 0 <= i < |segment| ==>
        t[i] == if i < Find(segment, '%') && HostSpelling(segment[..Find(segment, '%')]) then Lower(segment[i])
                else EscapeFolded(segment, i)
  {
    UppercaseEscapesAt(segment);
    var at := Find(segment, '%');
    if HostSpelling(segment[..at]) {
      var u := LowerAll(segment[..at]) + segment[at..];
      UppercaseEscapesAt(u);
      assert forall i :: at <= i < |segment| ==> u[i] == segment[i];
      assert forall i :: 0 <= i < at ==> u[i] == Lower(segment[i]) && u[i] != '%';
      forall k | 0 <= k < |segment|
        ensures EscapeAt(u, k) <==> EscapeAt(segment, k)
        ensures k < at ==> !EscapeAt(u, k)
      {
      }
    }
  }

  /** The host of the whole is the host of its first segment. */
  lemma {:induction false} FirstSegmentHost(rest: string)
    ensures var segment := rest[..Find(rest, ':')];
      Find(segment, '%') == HostEnd(rest) && segment[..HostEnd(rest)] == rest[..HostEnd(rest)]
  {
    var colon := Find(rest, ':');
    var segment := rest[..colon];
    var p, q := Find(segment, '%'), Find(rest, '%');
    assert p < |segment| ==> rest[p] == '%';
    assert q < colon ==> segment[q] == rest[q];
  }

  ghost predicate AllFolded(rest: string, t: string) {
    |t| == |rest| && forall i :: 0 <= i < |rest| ==> t[i] == Folded(rest, i)
  }

  lemma PasteFirst(rest: string, at: nat, left: string, right: string)
    requires at == Find(rest, ':') < |rest|
    requires |left| == at && forall i :: 0 <= i < at ==> left[i] == Folded(rest, i)
    requires EscapesFolded(rest[at + 1..], right)
    ensures AllFolded(rest, left + [':'] + right)
  {
    var t := left + [':'] + right;
    forall i | at <= i < |rest|
      ensures t[i] == Folded(rest, i)
    {
      ColonSeparates(rest, at, i);
      assert HostEnd(rest) <= at;
      assert i > at ==> t[i] == right[i - at - 1];
    }
  }

  lemma FoldedLeft(rest: string)
    requires Find(rest, ':') < |rest|
    ensures var left, at := FoldSegment(true, rest[..Find(rest, ':')]), Find(rest, ':');
      |left| == at && forall i :: 0 <= i < at ==> left[i] == Folded(rest, i)
  {
    var at := Find(rest, ':');
    FoldedFirst(rest[..at]);
    forall i | 0 <= i < at {
      FirstSegmentAt(rest, i);
    }
  }

  lemma FirstSegmentAt(rest: string, i: nat)
    requires i < Find(rest, ':') < |rest|
    ensures var segment := rest[..Find(rest, ':')]; var at := Find(segment, '%');
      Folded(rest, i)
        == if i < at && HostSpelling(segment[..at]) then Lower(segment[i]) else EscapeFolded(segment, i)
  {
    FirstSegmentHost(rest);
    ColonSeparates(rest, Find(rest, ':'), i);
  }

  lemma {:induction false} FoldedRest(rest: string)
    ensures AllFolded(rest, Join(FoldSegments(true, Split(rest))))
  {
    var at := Find(rest, ':');
    var segment := rest[..at];
    if at == |rest| {
      assert segment == rest;
      FoldedFirst(rest);
      FirstSegmentHost(rest);
      assert FoldSegments(true, [rest]) == [FoldSegment(true, rest)];
    } else {
      var tail := rest[at + 1..];
      FoldedTail(tail);
      JoinFirst(true, segment, Split(tail));
      FoldedLeft(rest);
      PasteFirst(rest, at, FoldSegment(true, segment), Join(FoldSegments(false, Split(tail))));
    }
  }

  /** The key has the length of the DID, and every character is folded on its own. */
  lemma KeyAt(did: string)
    ensures |HolderKey(did)| == |did|
    ensures WEB_PREFIX <= did ==>
      WEB_PREFIX <= HolderKey(did) && AllFolded(did[|WEB_PREFIX|..], HolderKey(did)[|WEB_PREFIX|..])
    ensures !(WEB_PREFIX <= did) ==> HolderKey(did) == did
  {
    if WEB_PREFIX <= did {
      FoldedRest(did[|WEB_PREFIX|..]);
    }
  }

  // ---- The two laws ----

  /** Same text up to letter case, at the positions where case carries no meaning. */
  ghost predicate SameSpelling(a: string, b: string) {
    && |a| == |b|
    && forall i :: 0 <= i < |a| ==> a[i] == b[i] || (CaseFree(a, i) && Lower(a[i]) == Lower(b[i]))
  }

  /** Texts that agree up to letter case and keep every `:` and `%` in place have the same foldable positions. */
  lemma SameLayout(a: string, b: string)
    requires |a| == |b|
    requires forall i :: 0 <= i < |a| ==> Lower(a[i]) == Lower(b[i])
    ensures HostEnd(a) == HostEnd(b)
    ensures forall i :: 0 <= i < |a| ==> (HostPosition(a, i) <==> HostPosition(b, i))
    ensures forall i :: 0 <= i < |a| ==> (EscapeDigit(a, i) <==> EscapeDigit(b, i))
  {
    assert forall i :: 0 <= i < |a| ==> (a[i] == ':' <==> b[i] == ':') && (a[i] == '%' <==> b[i] == '%');
    assert Find(a, ':') == Find(b, ':') && Find(a, '%') == Find(b, '%');
    var n := HostEnd(a);
    assert forall i :: 0 <= i < |a| ==> (IsHostChar(a[i]) <==> IsHostChar(b[i]));
    assert HostSpelling(a[..n]) <==> HostSpelling(b[..n]) by {
      assert forall i :: 0 <= i < n ==> a[..n][i] == a[i] && b[..n][i] == b[i];
    }
    assert forall i :: 0 <= i < |a| ==> (IsHex(a[i]) <==> IsHex(b[i]));
    forall k | 0 <= k < |a|
      ensures EscapeAt(a, k) <==> EscapeAt(b, k)
    {
    }
  }

  /** Folding never changes more than letter case. */
  lemma FoldingIsCase(rest: string, i: nat)
    requires i < |rest|
    ensures Lower(Folded(rest, i)) == Lower(rest[i])
  {
  }

  /** Two DIDs share a key exactly when they differ at most in the case of host letters and escape digits. */
  lemma KeysAgree(a: string, b: string)
    ensures HolderKey(a) == HolderKey(b) <==> SameSpelling(a, b)
  {
    KeyAt(a);
    KeyAt(b);
    if |a| == |b| {
      if WEB_PREFIX <= a && WEB_PREFIX <= b {
        KeysAgreeWeb(a, b);
      } else if WEB_PREFIX <= a {
        PrefixDecides(a, b);
      }
    }
  }

  lemma PrefixDecides(a: string, b: string)
    requires |a| == |b| && WEB_PREFIX <= a && !(WEB_PREFIX <= b)
    ensures !SameSpelling(a, b)
  {
    if b[..|WEB_PREFIX|] != WEB_PREFIX {
      var i :| 0 <= i < |WEB_PREFIX| && b[i] != WEB_PREFIX[i];
      assert a[i] == WEB_PREFIX[i];
    }
  }

  lemma KeysAgreeWeb(a: string, b: string)
    requires |a| == |b| && WEB_PREFIX <= a && WEB_PREFIX <= b
    ensures HolderKey(a) == HolderKey(b) <==> SameSpelling(a, b)
  {
    KeyAt(a);
    KeyAt(b);
    var n := |WEB_PREFIX|;
    var ra, rb := a[n..], b[n..];
    var ka, kb := HolderKey(a)[n..], HolderKey(b)[n..];
    assert HolderKey(a) == WEB_PREFIX + ka && HolderKey(b) == WEB_PREFIX + kb;
    if ka == kb {
      RestsAgree(ra, rb, ka);
    }
    if SameSpelling(a, b) {
      forall i | 0 <= i < |ra|
        ensures ra[i] == rb[i] || (Lower(ra[i]) == Lower(rb[i]) && (HostPosition(ra, i) || EscapeDigit(ra, i)))
      {
        assert a[i + n] == ra[i] && b[i + n] == rb[i];
      }
      SpellingsAgree(ra, rb, ka, kb);
    }
  }

  lemma RestsAgree(ra: string, rb: string, key: string)
    requires AllFolded(ra, key) && AllFolded(rb, key)
    ensures forall i :: 0 <= i < |ra| ==>
      ra[i] == rb[i] || (Lower(ra[i]) == Lower(rb[i]) && (HostPosition(ra, i) || EscapeDigit(ra, i)))
  {
    forall i | 0 <= i < |ra|
      ensures Lower(ra[i]) == Lower(rb[i])
    {
      FoldingIsCase(ra, i);
      FoldingIsCase(rb, i);
    }
    SameLayout(ra, rb);
    forall i | 0 <= i < |ra|
      ensures ra[i] == rb[i] || HostPosition(ra, i) || EscapeDigit(ra, i)
    {
      assert key[i] == Folded(ra, i) == Folded(rb, i);
    }
  }

  lemma SpellingsAgree(ra: string, rb: string, ka: string, kb: string)
    requires |ra| == |rb|
    requires forall i :: 0 <= i < |ra| ==>
      ra[i] == rb[i] || (Lower(ra[i]) == Lower(rb[i]) && (HostPosition(ra, i) || EscapeDigit(ra, i)))
    requires AllFolded(ra, ka) && AllFolded(rb, kb)
    ensures ka == kb
  {
    SameLayout(ra, rb);
    forall i | 0 <= i < |ra|
      ensures ka[i] == kb[i]
    {
      assert Folded(ra, i) == Folded(rb, i);
    }
  }

  /** Folding twice is folding once, and a key is itself a spelling of its DID. */
  lemma KeyIsCanonical(did: string)
    ensures HolderKey(HolderKey(did)) == HolderKey(did)
    ensures SameSpelling(HolderKey(did), did)
  {
    KeyAt(did);
    var key := HolderKey(did);
    if WEB_PREFIX <= did {
      var n := |WEB_PREFIX|;
      var r, k := did[n..], key[n..];
      FoldedSpelling(r, k);
      forall i | n <= i < |did|
        ensures key[i] == did[i] || (CaseFree(key, i) && Lower(key[i]) == Lower(did[i]))
      {
        assert k[i - n] == key[i] && r[i - n] == did[i];
      }
    }
    KeysAgree(key, did);
  }

  lemma FoldedSpelling(r: string, k: string)
    requires AllFolded(r, k)
    ensures forall i :: 0 <= i < |r| ==>
      k[i] == r[i] || (Lower(k[i]) == Lower(r[i]) && (HostPosition(k, i) || EscapeDigit(k, i)))
  {
    forall i | 0 <= i < |r|
      ensures Lower(k[i]) == Lower(r[i])
    {
      FoldingIsCase(r, i);
    }
    SameLayout(k, r);
    assert forall i :: 0 <= i < |r| ==> k[i] == Folded(r, i);
  }

  /** The path keeps its case: past the host, a letter that is no escape digit is copied unchanged. */
  lemma PathKeepsCase(did: string, i: nat)
    requires i < |did| && !CaseFree(did, i)
    ensures |HolderKey(did)| == |did| && HolderKey(did)[i] == did[i]
  {
    KeyAt(did);
    var n := |WEB_PREFIX|;
    if WEB_PREFIX <= did && i >= n {
      assert HolderKey(did)[i] == HolderKey(did)[n..][i - n];
    }
  }
}
