/** Scope strings and the credential types they name. */
module Scopes {
  import opened Prelude

  /** The Unicode White_Space characters. */
  predicate IsSpace(c: char) {
    || '\t' <= c <= '\r' || c == ' ' || c == '\U{85}' || c == '\U{A0}' || c == '\U{1680}'
    || '\U{2000}' <= c <= '\U{200A}' || c == '\U{2028}' || c == '\U{2029}' || c == '\U{202F}'
    || c == '\U{205F}' || c == '\U{3000}'
  }

  /** How far a word runs from the start of `s`. */
  function WordLength(s: string): (n: nat)
    ensures n <= |s|
    ensures forall i :: 0 <= i < n ==> !IsSpace(s[i])
    ensures n < |s| ==> IsSpace(s[n])
  {
    if s == "" || IsSpace(s[0]) then 0 else 1 + WordLength(s[1..])
  }

  /** The words of a string, split at whitespace. */
  function Words(s: string): seq<string>
    decreases |s|
  {
    if s == "" then []
    else if IsSpace(s[0]) then Words(s[1..])
    else [s[..WordLength(s)]] + Words(s[WordLength(s)..])
  }

  /** Only a text of whitespace has no words. */
  lemma {:induction false} BlankHasNoWords(s: string)
    ensures Words(s) != [] <==> exists i :: 0 <= i < |s| && !IsSpace(s[i])
    decreases |s|
  {
    if s != "" {
      if IsSpace(s[0]) {
        BlankHasNoWords(s[1..]);
        if i :| 0 <= i < |s| && !IsSpace(s[i]) {
          assert s[1..][i - 1] == s[i];
        }
        if i :| 0 <= i < |s[1..]| && !IsSpace(s[1..][i]) {
          assert s[i + 1] == s[1..][i];
        }
      } else {
        assert !IsSpace(s[0]);
      }
    }
  }

  predicate IsWord(w: string) {
    w != "" && forall i :: 0 <= i < |w| ==> !IsSpace(w[i])
  }

  /** Scopes joined the way a client sends them: one space between. */
  function Joined(words: seq<string>): string {
    if words == [] then ""
    else if |words| == 1 then words[0]
    else words[0] + " " + Joined(words[1..])
  }

  lemma WordLengthIs(w: string, rest: string)
    requires IsWord(w) && (rest == "" || IsSpace(rest[0]))
    ensures WordLength(w + rest) == |w|
  {
    var s := w + rest;
    assert forall i :: 0 <= i < |w| ==> !IsSpace(s[i]);
    assert |w| < |s| ==> IsSpace(s[|w|]);
  }

  /** Splitting what was joined gives the scopes back (section 3.3 of RFC 6749). */
  lemma {:induction false} SplitUndoesJoin(words: seq<string>)
    requires forall k :: 0 <= k < |words| ==> IsWord(words[k])
    ensures Words(Joined(words)) == words
    decreases |words|
  {
    if words != [] {
      var w, rest := words[0], words[1..];
      assert words == [w] + rest;
      var tail := if rest == [] then "" else " " + Joined(rest);
      assert Joined(words) == w + tail;
      WordLengthIs(w, tail);
      assert (w + tail)[..|w|] == w && (w + tail)[|w|..] == tail;
      if rest == [] {
        assert Words(tail) == [];
      } else {
        assert tail[1..] == Joined(rest);
        SplitUndoesJoin(rest);
      }
      assert (w + tail)[0] == w[0];
    }
  }

  /** Whatever is split, the parts are words. */
  lemma {:induction false} SplitGivesWords(s: string, k: nat)
    requires k < |Words(s)|
    ensures IsWord(Words(s)[k])
    decreases |s|
  {
    if IsSpace(s[0]) {
      SplitGivesWords(s[1..], k);
    } else if k > 0 {
      SplitGivesWords(s[WordLength(s)..], k - 1);
    }
  }

  // ---- The types scopes name ----

  /** A scope's type, if the configured pattern matches it. */
  type Matcher = string -> Option<string>

  ghost predicate Names(matcher: Matcher, scopes: seq<string>, t: string) {
    exists k :: 0 <= k < |scopes| && matcher(scopes[k]) == Some(t)
  }

  function TypesNamed(matcher: Matcher, scopes: seq<string>): seq<string> {
    if scopes == [] then
      []
    else
      TypesNamed(matcher, scopes[..|scopes| - 1])
      + match matcher(scopes[|scopes| - 1])
        case Some(t) => [t]
        case None => []
  }

  /** `Vec::dedup`: a value equal to the one kept before it is dropped. */
  function Deduped(s: seq<string>): (r: seq<string>)
    ensures s != [] ==> r != [] && r[|r| - 1] == s[|s| - 1]
    ensures forall x :: x in r <==> x in s
    ensures forall i :: 0 <= i < |r| - 1 ==> r[i] != r[i + 1]
  {
    if s == [] then
      []
    else
      var front, last := s[..|s| - 1], s[|s| - 1];
      assert s == front + [last];
      var r := Deduped(front);
      if r != [] && r[|r| - 1] == last then r else r + [last]
  }

  lemma {:induction false} TypesNamedAre(matcher: Matcher, scopes: seq<string>, t: string)
    ensures t in TypesNamed(matcher, scopes) <==> Names(matcher, scopes, t)
    decreases |scopes|
  {
    if scopes != [] {
      var front, last := scopes[..|scopes| - 1], scopes[|scopes| - 1];
      TypesNamedAre(matcher, front, t);
      assert forall k :: 0 <= k < |front| ==> front[k] == scopes[k];
      if Names(matcher, scopes, t) && matcher(last) != Some(t) {
        var k :| 0 <= k < |scopes| && matcher(scopes[k]) == Some(t);
        assert front[k] == scopes[k];
      }
    }
  }

  /** The distinct types, as a set, that the scopes name; only neighbouring repeats are dropped. */
  method CredentialTypes(matcher: Matcher, scopes: seq<string>) returns (types: seq<string>)
    ensures types == Deduped(TypesNamed(matcher, scopes))
    ensures forall t :: t in types <==> Names(matcher, scopes, t)
    ensures forall i :: 0 <= i < |types| - 1 ==> types[i] != types[i + 1]
  {
    var named: seq<string> := [];
    for k := 0 to |scopes|
      invariant named == TypesNamed(matcher, scopes[..k])
    {
      assert scopes[..k + 1][..k] == scopes[..k];
      var t := matcher(scopes[k]);
      if t.Some? {
        named := named + [t.value];
      }
    }
    assert scopes[..|scopes|] == scopes;
    types := [];
    for k := 0 to |named|
      invariant types == Deduped(named[..k])
    {
      assert named[..k + 1][..k] == named[..k];
      if types == [] || types[|types| - 1] != named[k] {
        types := types + [named[k]];
      }
    }
    assert named[..|named|] == named;
    forall t: string
      ensures t in types <==> Names(matcher, scopes, t)
    {
      TypesNamedAre(matcher, scopes, t);
    }
  }

  /** Equal values stand together. */
  ghost predicate Grouped(s: seq<string>) {
    forall i, j, k :: 0 <= i < j < k < |s| && s[i] == s[k] ==> s[j] == s[i]
  }

  /** The result lists each type once exactly when the scopes named equal types next to each other. */
  lemma {:induction false} DistinctWhenGrouped(s: seq<string>)
    ensures NoDup(Deduped(s)) <==> Grouped(s)
    decreases |s|
  {
    if s != [] {
      var front, last := s[..|s| - 1], s[|s| - 1];
      assert s == front + [last];
      DistinctWhenGrouped(front);
      GroupedGrows(front, last);
      DedupedGrows(s);
      NoDupGrows(Deduped(front), last);
    }
  }

  lemma DedupedGrows(s: seq<string>)
    requires s != []
    ensures Deduped(s)
      == var front, last := s[..|s| - 1], s[|s| - 1];
         if front != [] && front[|front| - 1] == last then Deduped(front) else Deduped(front) + [last]
  {
  }

  lemma GroupedGrows(front: seq<string>, last: string)
    ensures Grouped(front + [last]) <==>
      Grouped(front) && (front == [] || front[|front| - 1] == last || last !in front)
  {
    var s, n := front + [last], |front|;
    assert forall i :: 0 <= i < n ==> s[i] == front[i];
    if Grouped(s) && front != [] && last in front {
      var i :| 0 <= i < n && front[i] == last;
      assert s[i] == s[n];
      assert i < n - 1 ==> s[n - 1] == s[i];
    }
    if Grouped(front) && front != [] && front[n - 1] == last {
      forall i, j, k | 0 <= i < j < k < |s| && s[i] == s[k]
        ensures s[j] == s[i]
      {
        if k == n && j < n - 1 {
          assert front[i] == front[n - 1];
        }
      }
    }
  }

  /** A repeat that is not next to its first mention is kept. */
  lemma RepeatIsKept(a: string, b: string)
    requires a != b
    ensures Deduped([a, b, a]) == [a, b, a]
  {
    assert [a, b, a][..2] == [a, b];
    assert [a, b][..1] == [a];
    assert [a][..0] == [];
    assert Deduped([a]) == [a];
    assert Deduped([a, b]) == [a] + [b];
  }
}
