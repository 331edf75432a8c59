/**
 The bounded table with expiry behind offers, pre-authorized codes, access tokens and nonces. Removing
 an entry leaves its key in the order, so the order may name keys that are gone; the live entries are
 read along it.
 */
module ExpiringTables {
  import opened Prelude

  datatype Timed<V> = Timed(exp: nat, value: V)

  datatype Table<V> = Table(entries: map<string, Timed<V>>, order: seq<string>, capacity: nat)

  function Shrink<V>(t: Table<V>): Table<V>
    decreases |t.order|
  {
    if |t.entries| <= t.capacity || t.order == [] then t
    else Shrink(t.(entries := t.entries - {t.order[0]}, order := t.order[1..]))
  }

  function Put<V>(t: Table<V>, key: string, exp: nat, v: V): Table<V> {
    Shrink(t.(entries := t.entries[key := Timed(exp, v)],
              order := if key in t.entries then t.order else t.order + [key]))
  }

  predicate LiveAt<V>(t: Table<V>, key: string, now: nat) {
    key in t.entries && now < t.entries[key].exp
  }

  /** A lookup drops the entry it finds expired. */
  function Seen<V>(t: Table<V>, key: string, now: nat): Table<V> {
    if key in t.entries && t.entries[key].exp <= now then t.(entries := t.entries - {key}) else t
  }

  /** A removal drops the entry whether or not it was still live. */
  function Taken<V>(t: Table<V>, key: string): Table<V> {
    t.(entries := t.entries - {key})
  }

  /** A write through the reference a lookup returned. */
  function Written<V>(t: Table<V>, key: string, v: V): Table<V>
    requires key in t.entries
  {
    t.(entries := t.entries[key := Timed(t.entries[key].exp, v)])
  }

  /** With keys that are never used twice, every live key is in the order, once. */
  ghost predicate TableOk<V>(t: Table<V>) {
    && NoDup(t.order)
    && (forall key :: key in t.entries ==> key in t.order)
    && |t.entries| <= t.capacity
  }

  // ---- The insertion-ordered list ----

  datatype Slot<V> = Slot(key: string, exp: nat, value: V)

  /** The entries along the order, skipping keys that are gone. */
  function Slots<V>(entries: map<string, Timed<V>>, order: seq<string>): seq<Slot<V>> {
    if order == [] then
      []
    else
      var last := order[|order| - 1];
      Slots(entries, order[..|order| - 1])
      + if last in entries then [Slot(last, entries[last].exp, entries[last].value)] else []
  }

  function Listed<V>(t: Table<V>): seq<Slot<V>> {
    Slots(t.entries, t.order)
  }

  /** The list without the slot of one key. */
  function Except<V>(slots: seq<Slot<V>>, key: string): seq<Slot<V>> {
    if slots == [] then
      []
    else
      var last := slots[|slots| - 1];
      Except(slots[..|slots| - 1], key) + if last.key == key then [] else [last]
  }

  lemma {:induction false} SlotsSame<V>(a: map<string, Timed<V>>, b: map<string, Timed<V>>, order: seq<string>)
    requires forall k :: 0 <= k < |order| ==> (order[k] in a <==> order[k] in b)
    requires forall k :: 0 <= k < |order| && order[k] in a ==> a[order[k]] == b[order[k]]
    ensures Slots(a, order) == Slots(b, order)
    decreases |order|
  {
    if order != [] {
      SlotsSame(a, b, order[..|order| - 1]);
    }
  }

  lemma {:induction false} SlotsConcat<V>(entries: map<string, Timed<V>>, a: seq<string>, b: seq<string>)
    ensures Slots(entries, a + b) == Slots(entries, a) + Slots(entries, b)
    decreases |b|
  {
    if b == [] {
      assert a + b == a;
    } else {
      assert (a + b)[..|a + b| - 1] == a + b[..|b| - 1];
      SlotsConcat(entries, a, b[..|b| - 1]);
    }
  }

  lemma {:induction false} SlotsLength<V>(entries: map<string, Timed<V>>, order: seq<string>)
    requires NoDup(order) && forall key :: key in entries ==> key in order
    ensures |Slots(entries, order)| == |entries|
    decreases |order|
  {
    if order == [] {
      assert entries == map[];
    } else {
      var front, last := order[..|order| - 1], order[|order| - 1];
      assert order == front + [last];
      SlotsLength(entries - {last}, front);
      SlotsSame(entries, entries - {last}, front);
      RemoveSize(entries, last);
    }
  }

  /** Every slot is an entry, and every entry whose key is listed has its slot. */
  lemma {:induction false} SlotsAre<V>(entries: map<string, Timed<V>>, order: seq<string>, s: Slot<V>)
    ensures s in Slots(entries, order) <==>
      s.key in order && s.key in entries && entries[s.key] == Timed(s.exp, s.value)
    decreases |order|
  {
    if order != [] {
      var front, last := order[..|order| - 1], order[|order| - 1];
      SlotsAre(entries, front, s);
      assert order == front + [last];
    }
  }

  /** Eviction pops keys until one was still live: the oldest entry goes. */
  lemma {:induction false} ShrinkEvicts<V>(t: Table<V>)
    requires NoDup(t.order) && (forall key :: key in t.entries ==> key in t.order)
    requires |t.entries| == t.capacity + 1
    ensures TableOk(Shrink(t)) && |Shrink(t).entries| == t.capacity
    ensures Listed(t) != [] && Listed(Shrink(t)) == Listed(t)[1..]
    ensures Shrink(t).entries == t.entries - {Listed(t)[0].key}
    decreases |t.order|
  {
    assert t.order != [] by {
      assert t.order == [] ==> t.entries == map[];
    }
    var first := t.order[0];
    var t' := t.(entries := t.entries - {first}, order := t.order[1..]);
    SlotsHead(t.entries, t.order);
    RemoveSize(t.entries, first);
    RestOk(t.entries, t.order);
    if first in t.entries {
      assert Shrink(t) == t';
      assert Listed(t)[1..] == Listed(t');
    } else {
      assert t'.entries == t.entries;
      assert [] + Listed(t') == Listed(t');
      ShrinkEvicts(t');
      assert Shrink(t) == Shrink(t');
    }
  }

  lemma RestOk<V>(entries: map<string, Timed<V>>, order: seq<string>)
    requires order != [] && NoDup(order) && forall key :: key in entries ==> key in order
    ensures NoDup(order[1..]) && forall key :: key in entries - {order[0]} ==> key in order[1..]
  {
    assert order == [order[0]] + order[1..];
  }

  lemma SlotsHead<V>(entries: map<string, Timed<V>>, order: seq<string>)
    requires order != [] && NoDup(order)
    ensures var first := order[0];
      Slots(entries, order)
      == (if first in entries then [Slot(first, entries[first].exp, entries[first].value)] else [])
         + Slots(entries - {first}, order[1..])
  {
    var first, rest := order[0], order[1..];
    assert order == [first] + rest;
    SlotsConcat(entries, [first], rest);
    SlotsSame(entries, entries - {first}, rest);
    assert [first][..0] == [];
    assert Slots(entries, [first])
      == [] + if first in entries then [Slot(first, entries[first].exp, entries[first].value)] else [];
  }

  /**
   Inserting under a key never used before appends to the list; beyond the capacity the oldest entry,
   and only that one, goes. With a capacity of at least one it is not the entry just inserted.
   */
  lemma PutRefinesList<V>(t: Table<V>, key: string, exp: nat, v: V)
    requires TableOk(t) && key !in t.order
    ensures TableOk(Put(t, key, exp, v))
    ensures var longer := Listed(t) + [Slot(key, exp, v)];
      && Listed(Put(t, key, exp, v)) == (if |longer| <= t.capacity then longer else longer[1..])
      && (t.capacity >= 1 ==> key in Put(t, key, exp, v).entries)
  {
    assert key !in t.entries;
    var t1 := t.(entries := t.entries[key := Timed(exp, v)], order := t.order + [key]);
    assert t1.order[..|t.order|] == t.order;
    SlotsSame(t.entries, t1.entries, t.order);
    assert Listed(t1) == Listed(t) + [Slot(key, exp, v)];
    SlotsLength(t.entries, t.order);
    AddSize(t.entries, key, Timed(exp, v));
    if |t1.entries| > t.capacity {
      ShrinkEvicts(t1);
      if t.capacity >= 1 {
        var s := Listed(t1)[0];
        SlotsAre(t.entries, t.order, s);
      }
    }
  }

  /** A removal takes the key's slot out of the list and leaves the rest in place. */
  lemma {:induction false} TakenRefinesList<V>(entries: map<string, Timed<V>>, order: seq<string>, key: string)
    ensures Slots(entries - {key}, order) == Except(Slots(entries, order), key)
    decreases |order|
  {
    if order != [] {
      var front, last := order[..|order| - 1], order[|order| - 1];
      TakenRefinesList(entries, front, key);
      if last in entries {
        var s := Slot(last, entries[last].exp, entries[last].value);
        ExceptLast(Slots(entries, front), s, key);
      } else {
        assert Slots(entries, front) + [] == Slots(entries, front);
      }
    }
  }

  lemma ExceptLast<V>(front: seq<Slot<V>>, last: Slot<V>, key: string)
    ensures Except(front + [last], key) == Except(front, key) + if last.key == key then [] else [last]
  {
    assert (front + [last])[..|front|] == front;
  }

  lemma TakenOk<V>(t: Table<V>, key: string)
    requires TableOk(t)
    ensures TableOk(Taken(t, key)) && Listed(Taken(t, key)) == Except(Listed(t), key)
    ensures key in t.entries ==> |Taken(t, key).entries| == |t.entries| - 1
  {
    TakenRefinesList(t.entries, t.order, key);
    RemoveSize(t.entries, key);
  }

  /** A write changes one slot's value and keeps every key, every expiry and every place. */
  lemma {:induction false} WrittenRefinesList<V>(entries: map<string, Timed<V>>, order: seq<string>, key: string,
                                                 e: Timed<V>)
    requires key in entries
    ensures var before, after := Slots(entries, order), Slots(entries[key := e], order);
      && |after| == |before|
      && (forall i :: 0 <= i < |before| ==>
           after[i] == if before[i].key == key then Slot(key, e.exp, e.value) else before[i])
    decreases |order|
  {
    if order != [] {
      WrittenRefinesList(entries, order[..|order| - 1], key, e);
    }
  }

  // ---- When an insertion is oldest-first ----

  /** What inserting means on the list: the key moves to the end, and beyond capacity the oldest goes. */
  function Appended<V>(slots: seq<Slot<V>>, capacity: nat, s: Slot<V>): seq<Slot<V>> {
    var longer := Except(slots, s.key) + [s];
    if |longer| <= capacity then longer else longer[1..]
  }

  ghost predicate PutsOldestFirst<V>(t: Table<V>, key: string, exp: nat, v: V) {
    var t' := Put(t, key, exp, v);
    TableOk(t') && Listed(t') == Appended(Listed(t), t.capacity, Slot(key, exp, v))
  }

  /** A key the caller may use: never seen by the order, or the newest live entry's own. */
  predicate FreshOrNewest<V>(t: Table<V>, key: string) {
    || key !in t.order
    || (key in t.entries && Listed(t) != [] && Listed(t)[|Listed(t)| - 1].key == key)
  }

  /**
   Eviction is oldest-first exactly for such keys. A key whose entry was taken but whose mention is
   still in the order breaks it, and so does a live key that is not the newest.
   */
  lemma OldestFirstExactly<V>(t: Table<V>, key: string, exp: nat, v: V)
    requires TableOk(t) && t.capacity >= 1
    ensures PutsOldestFirst(t, key, exp, v) <==> FreshOrNewest(t, key)
  {
    if key !in t.order {
      FreshPutsOldestFirst(t, key, exp, v);
    } else if key !in t.entries {
      StaleDoesNot(t, key, exp, v);
    } else {
      LivePuts(t, key, exp, v);
    }
  }

  lemma {:induction false} ExceptAbsent<V>(slots: seq<Slot<V>>, key: string)
    requires forall i :: 0 <= i < |slots| ==> slots[i].key != key
    ensures Except(slots, key) == slots
    decreases |slots|
  {
    if slots != [] {
      ExceptAbsent(slots[..|slots| - 1], key);
      assert slots == slots[..|slots| - 1] + [slots[|slots| - 1]];
    }
  }

  lemma FreshPutsOldestFirst<V>(t: Table<V>, key: string, exp: nat, v: V)
    requires TableOk(t) && key !in t.order
    ensures PutsOldestFirst(t, key, exp, v)
  {
    PutRefinesList(t, key, exp, v);
    NoSlotWithout(t.entries, t.order, key);
    ExceptAbsent(Listed(t), key);
  }

  lemma NoSlotWithout<V>(entries: map<string, Timed<V>>, order: seq<string>, key: string)
    requires key !in entries || key !in order
    ensures forall i :: 0 <= i < |Slots(entries, order)| ==> Slots(entries, order)[i].key != key
  {
    forall i | 0 <= i < |Slots(entries, order)|
      ensures Slots(entries, order)[i].key != key
    {
      SlotsAre(entries, order, Slots(entries, order)[i]);
    }
  }

  ghost predicate Twice(order: seq<string>, key: string, i: nat, j: nat) {
    i < j < |order| && order[i] == key && order[j] == key
  }

  /** Popping either leaves both mentions or takes the entry with the first. */
  lemma {:induction false} ShrinkWithTwo<V>(t: Table<V>, key: string, i: nat, j: nat)
    requires Twice(t.order, key, i, j)
    ensures key !in Shrink(t).entries || !NoDup(Shrink(t).order)
    decreases |t.order|
  {
    if |t.entries| > t.capacity {
      var t' := t.(entries := t.entries - {t.order[0]}, order := t.order[1..]);
      if i == 0 {
        ShrinkEntries(t');
      } else {
        ShrinkWithTwo(t', key, i - 1, j - 1);
      }
    } else {
      assert t.order[i] == t.order[j];
    }
  }

  lemma {:induction false} ShrinkEntries<V>(t: Table<V>)
    ensures forall k :: k in Shrink(t).entries ==> k in t.entries && Shrink(t).entries[k] == t.entries[k]
    ensures forall k :: k in Shrink(t).order ==> k in t.order
    ensures Shrink(t).capacity == t.capacity
    decreases |t.order|
  {
    if |t.entries| > t.capacity && t.order != [] {
      ShrinkEntries(t.(entries := t.entries - {t.order[0]}, order := t.order[1..]));
    }
  }

  lemma StaleDoesNot<V>(t: Table<V>, key: string, exp: nat, v: V)
    requires TableOk(t) && t.capacity >= 1 && key in t.order && key !in t.entries
    ensures !PutsOldestFirst(t, key, exp, v)
  {
    var t1 := t.(entries := t.entries[key := Timed(exp, v)], order := t.order + [key]);
    var i :| 0 <= i < |t.order| && t.order[i] == key;
    ShrinkWithTwo(t1, key, i, |t.order|);
    EndsWithNew(Listed(t), t.capacity, Slot(key, exp, v));
    if key !in Put(t, key, exp, v).entries {
      NoSlotWithout(Put(t, key, exp, v).entries, Put(t, key, exp, v).order, key);
    }
  }

  lemma EndsWithNew<V>(slots: seq<Slot<V>>, capacity: nat, s: Slot<V>)
    requires capacity >= 1
    ensures var r := Appended(slots, capacity, s); r != [] && r[|r| - 1] == s
  {
  }

  /** A live key is overwritten where it stands. */
  lemma LivePuts<V>(t: Table<V>, key: string, exp: nat, v: V)
    requires TableOk(t) && t.capacity >= 1 && key in t.entries
    ensures PutsOldestFirst(t, key, exp, v) <==> Listed(t) != [] && Listed(t)[|Listed(t)| - 1].key == key
  {
    var t' := Put(t, key, exp, v);
    AddSize(t.entries, key, Timed(exp, v));
    assert t' == t.(entries := t.entries[key := Timed(exp, v)]);
    WrittenRefinesList(t.entries, t.order, key, Timed(exp, v));
    LiveIsListed(t, key);
    EndsWithNew(Listed(t), t.capacity, Slot(key, exp, v));
    if Listed(t)[|Listed(t)| - 1].key == key {
      NewestIsLast(t, key);
      KeysDiffer(t.entries, t.order);
      assert Listed(t') == Listed(t)[..|Listed(t)| - 1] + [Slot(key, exp, v)];
      SlotsLength(t.entries, t.order);
    }
  }

  lemma LiveIsListed<V>(t: Table<V>, key: string)
    requires TableOk(t) && key in t.entries
    ensures Slot(key, t.entries[key].exp, t.entries[key].value) in Listed(t) && Listed(t) != []
  {
    SlotsAre(t.entries, t.order, Slot(key, t.entries[key].exp, t.entries[key].value));
  }

  /** Taking the newest entry out leaves the list before it. */
  lemma NewestIsLast<V>(t: Table<V>, key: string)
    requires TableOk(t) && Listed(t) != [] && Listed(t)[|Listed(t)| - 1].key == key
    ensures Except(Listed(t), key) == Listed(t)[..|Listed(t)| - 1]
  {
    var slots := Listed(t);
    var front, last := slots[..|slots| - 1], slots[|slots| - 1];
    KeysDiffer(t.entries, t.order);
    ExceptAbsent(front, key);
    assert slots == front + [last];
    ExceptLast(front, last, key);
  }

  ghost predicate DistinctKeys<V>(slots: seq<Slot<V>>) {
    forall i, j :: 0 <= i < j < |slots| ==> slots[i].key != slots[j].key
  }

  lemma {:induction false} KeysDiffer<V>(entries: map<string, Timed<V>>, order: seq<string>)
    requires NoDup(order)
    ensures DistinctKeys(Slots(entries, order))
    decreases |order|
  {
    if order != [] {
      var front, last := order[..|order| - 1], order[|order| - 1];
      KeysDiffer(entries, front);
      assert last !in front;
      NoSlotWithout(entries, front, last);
      var slots := Slots(entries, front);
      if last in entries {
        assert DistinctKeys(slots + [Slot(last, entries[last].exp, entries[last].value)]);
      } else {
        assert slots + [] == slots;
      }
    }
  }

  // ---- One time to live, one clock ----

  /** Entries expire in the order they stand, none later than `latest`. */
  ghost predicate InOrder<V>(slots: seq<Slot<V>>, latest: nat) {
    && (forall i, j :: 0 <= i < j < |slots| ==> slots[i].exp <= slots[j].exp)
    && (forall i :: 0 <= i < |slots| ==> slots[i].exp <= latest)
  }

  /** Whatever is gone would have expired no later than anything that stayed. */
  ghost predicate FirstToExpireWent<V>(t: Table<V>, t': Table<V>) {
    forall gone, kept :: gone in t.entries && gone !in t'.entries && kept in t'.entries ==>
      t.entries[gone].exp <= t'.entries[kept].exp
  }

  /** An insertion that expires no earlier than any entry evicts the entry that expires first. */
  lemma EvictsFirstToExpire<V>(t: Table<V>, key: string, exp: nat, v: V)
    requires TableOk(t) && key !in t.order && InOrder(Listed(t), exp)
    ensures FirstToExpireWent(t, Put(t, key, exp, v))
  {
    PutRefinesList(t, key, exp, v);
    LongerInOrder(Listed(t), Slot(key, exp, v));
    OnlyFirstWent(t, Put(t, key, exp, v), Listed(t) + [Slot(key, exp, v)], exp);
  }

  lemma OnlyFirstWent<V>(t: Table<V>, t': Table<V>, longer: seq<Slot<V>>, latest: nat)
    requires TableOk(t) && TableOk(t') && InOrder(longer, latest)
    requires Listed(t) <= longer && Listed(t') == (if |longer| <= t.capacity then longer else longer[1..])
    ensures FirstToExpireWent(t, t')
  {
    forall gone, kept | gone in t.entries && gone !in t'.entries && kept in t'.entries
      ensures t.entries[gone].exp <= t'.entries[kept].exp
    {
      GoneIsFirst(t, t', longer, latest, gone, kept);
    }
  }

  lemma LongerInOrder<V>(slots: seq<Slot<V>>, s: Slot<V>)
    requires InOrder(slots, s.exp)
    ensures InOrder(slots + [s], s.exp) && InOrder((slots + [s])[1..], s.exp)
  {
    assert forall i :: 0 <= i < |slots| ==> (slots + [s])[1..][i] == (slots + [s])[i + 1];
  }

  lemma GoneIsFirst<V>(t: Table<V>, t': Table<V>, longer: seq<Slot<V>>, latest: nat, gone: string, kept: string)
    requires TableOk(t) && TableOk(t') && InOrder(longer, latest)
    requires Listed(t) <= longer && Listed(t') == (if |longer| <= t.capacity then longer else longer[1..])
    requires gone in t.entries && gone !in t'.entries && kept in t'.entries
    ensures t.entries[gone].exp <= t'.entries[kept].exp
  {
    var a := Slot(gone, t.entries[gone].exp, t.entries[gone].value);
    var b := Slot(kept, t'.entries[kept].exp, t'.entries[kept].value);
    SlotsAre(t.entries, t.order, a);
    SlotsAre(t'.entries, t'.order, a);
    SlotsAre(t'.entries, t'.order, b);
    OutOfTail(longer, t.capacity, Listed(t), Listed(t'), a, b);
    assert a == longer[0];
    var j :| 1 <= j < |longer| && longer[j] == b;
  }

  lemma OutOfTail<V>(longer: seq<Slot<V>>, capacity: nat, before: seq<Slot<V>>, after: seq<Slot<V>>, a: Slot<V>,
                     b: Slot<V>)
    requires before <= longer && after == (if |longer| <= capacity then longer else longer[1..])
    requires a in before && a !in after && b in after
    ensures a == longer[0] && exists j :: 1 <= j < |longer| && longer[j] == b
  {
    var i :| 0 <= i < |before| && before[i] == a;
    var j :| 0 <= j < |after| && after[j] == b;
    assert longer[i] == a;
    assert longer[i] in longer;
    assert forall m :: 1 <= m < |longer| ==> longer[m] == longer[1..][m - 1] && longer[m] in after;
    assert longer[j + 1] == b;
  }

  lemma {:induction false} ExceptKeeps<V>(slots: seq<Slot<V>>, key: string, latest: nat)
    requires InOrder(slots, latest)
    ensures InOrder(Except(slots, key), latest)
    ensures slots != [] ==> InOrder(Except(slots, key), slots[|slots| - 1].exp)
    decreases |slots|
  {
    if slots != [] {
      var front, last := slots[..|slots| - 1], slots[|slots| - 1];
      assert InOrder(front, last.exp);
      ExceptKeeps(front, key, last.exp);
    }
  }

  datatype Facet = Formed | Timely

  ghost predicate TidyFacet<V>(f: Facet, t: Table<V>, capacity: nat, latest: nat) {
    match f
    case Formed => TableOk(t) && t.capacity == capacity
    case Timely => InOrder(Listed(t), latest)
  }

  /** A well-formed table whose entries expire in the order they stand. */
  ghost predicate Tidy<V>(t: Table<V>, capacity: nat, latest: nat) {
    forall f: Facet :: TidyFacet(f, t, capacity, latest)
  }

  lemma TidyMeans<V>(t: Table<V>, capacity: nat, latest: nat)
    ensures Tidy(t, capacity, latest) <==> TableOk(t) && t.capacity == capacity && InOrder(Listed(t), latest)
  {
    if Tidy(t, capacity, latest) {
      assert TidyFacet(Formed, t, capacity, latest) && TidyFacet(Timely, t, capacity, latest);
    }
  }

  /** An insertion that expires no earlier than any entry keeps the table tidy. */
  lemma PutTidy<V>(t: Table<V>, capacity: nat, key: string, exp: nat, v: V)
    requires Tidy(t, capacity, exp) && key !in t.order
    ensures Tidy(Put(t, key, exp, v), capacity, exp)
  {
    TidyMeans(t, capacity, exp);
    TidyMeans(Put(t, key, exp, v), capacity, exp);
    PutRefinesList(t, key, exp, v);
    PutEntries(t, key, exp, v);
    LongerInOrder(Listed(t), Slot(key, exp, v));
  }

  /** So do lookups, removals and writes. */
  lemma TakenTidy<V>(t: Table<V>, capacity: nat, key: string, now: nat, latest: nat)
    requires Tidy(t, capacity, latest)
    ensures Tidy(Taken(t, key), capacity, latest) && Tidy(Seen(t, key, now), capacity, latest)
  {
    TidyMeans(t, capacity, latest);
    TidyMeans(Taken(t, key), capacity, latest);
    TakenOk(t, key);
    ExceptKeeps(Listed(t), key, latest);
  }

  lemma WrittenTidy<V>(t: Table<V>, capacity: nat, key: string, v: V, latest: nat)
    requires Tidy(t, capacity, latest) && key in t.entries
    ensures Tidy(Written(t, key, v), capacity, latest)
  {
    TidyMeans(t, capacity, latest);
    TidyMeans(Written(t, key, v), capacity, latest);
    var e := Timed(t.entries[key].exp, v);
    WrittenRefinesList(t.entries, t.order, key, e);
    AddSize(t.entries, key, e);
    forall i | 0 <= i < |Listed(t)|
      ensures Listed(Written(t, key, v))[i].exp == Listed(t)[i].exp
    {
      SlotsAre(t.entries, t.order, Listed(t)[i]);
    }
  }

  // ---- Whole lifetimes of a table ----

  datatype Op<V> =
    | Inserts(key: string, value: V)
    | Looks(key: string)
    | Writes(key: string, value: V)
    | Takes(key: string)

  /** One call, with the clock reading it takes. */
  datatype Call<V> = Call(op: Op<V>, now: nat)

  function Done<V>(t: Table<V>, ttl: nat, c: Call<V>): Table<V> {
    match c.op
    case Inserts(key, v) => Put(t, key, c.now + ttl, v)
    case Looks(key) => Seen(t, key, c.now)
    case Writes(key, v) => if key in t.entries then Written(t, key, v) else t
    case Takes(key) => Taken(t, key)
  }

  /** An empty table after the first `n` of these calls. */
  function After<V>(capacity: nat, ttl: nat, calls: seq<Call<V>>, n: nat): Table<V>
    requires n <= |calls|
  {
    if n == 0 then Table(map[], [], capacity) else Done(After(capacity, ttl, calls, n - 1), ttl, calls[n - 1])
  }

  /** The clock never goes back, and no key is inserted that the order still mentions. */
  ghost predicate Proper<V>(capacity: nat, ttl: nat, calls: seq<Call<V>>) {
    && (forall k: nat :: k < |calls| ==> NotBefore(calls, k))
    && (forall k: nat :: k < |calls| ==> KeyIsFresh(capacity, ttl, calls, k))
  }

  predicate NotBefore<V>(calls: seq<Call<V>>, k: nat)
    requires k < |calls|
  {
    k > 0 ==> calls[k - 1].now <= calls[k].now
  }

  ghost predicate KeyIsFresh<V>(capacity: nat, ttl: nat, calls: seq<Call<V>>, k: nat)
    requires k < |calls|
  {
    calls[k].op.Inserts? ==> calls[k].op.key !in After(capacity, ttl, calls, k).order
  }

  /** Over any such lifetime the table is tidy. */
  lemma {:induction false} AlwaysTidy<V>(capacity: nat, ttl: nat, calls: seq<Call<V>>, n: nat, now: nat)
    requires Proper(capacity, ttl, calls) && n <= |calls|
    requires n > 0 ==> calls[n - 1].now <= now
    ensures Tidy(After(capacity, ttl, calls, n), capacity, now + ttl)
    decreases n
  {
    if n == 0 {
      TidyMeans(After(capacity, ttl, calls, n), capacity, now + ttl);
    } else {
      assert NotBefore(calls, n - 1) && KeyIsFresh(capacity, ttl, calls, n - 1);
      AlwaysTidy(capacity, ttl, calls, n - 1, calls[n - 1].now);
      NextTidy(After(capacity, ttl, calls, n - 1), capacity, ttl, calls[n - 1], now);
    }
  }

  lemma NextTidy<V>(t: Table<V>, capacity: nat, ttl: nat, c: Call<V>, now: nat)
    requires Tidy(t, capacity, c.now + ttl) && c.now <= now
    requires c.op.Inserts? ==> c.op.key !in t.order
    ensures Tidy(Done(t, ttl, c), capacity, now + ttl)
  {
    CallTidy(t, capacity, ttl, c);
    TidyMeans(Done(t, ttl, c), capacity, c.now + ttl);
    TidyMeans(Done(t, ttl, c), capacity, now + ttl);
  }

  lemma CallTidy<V>(t: Table<V>, capacity: nat, ttl: nat, c: Call<V>)
    requires Tidy(t, capacity, c.now + ttl)
    requires c.op.Inserts? ==> c.op.key !in t.order
    ensures Tidy(Done(t, ttl, c), capacity, c.now + ttl)
  {
    match c.op
    case Inserts(key, v) => PutTidy(t, capacity, key, c.now + ttl, v);
    case Looks(key) => TakenTidy(t, capacity, key, c.now, c.now + ttl);
    case Writes(key, v) =>
      if key in t.entries {
        WrittenTidy(t, capacity, key, v, c.now + ttl);
      }
    case Takes(key) => TakenTidy(t, capacity, key, c.now, c.now + ttl);
  }

  /** What an insertion leaves of the entries: the new one, and some of the old. */
  lemma PutEntries<V>(t: Table<V>, key: string, exp: nat, v: V)
    ensures var t' := Put(t, key, exp, v);
      forall k :: k in t'.entries ==>
        if k == key then t'.entries[k] == Timed(exp, v) else k in t.entries && t'.entries[k] == t.entries[k]
    ensures forall k :: k in Put(t, key, exp, v).order ==> k in t.order || k == key
    ensures Put(t, key, exp, v).capacity == t.capacity
  {
    ShrinkEntries(t.(entries := t.entries[key := Timed(exp, v)],
                     order := if key in t.entries then t.order else t.order + [key]));
  }

  /** The new entry is in; what went, if anything did, would have expired first; and with room nothing went. */
  ghost predicate EvictsProperly<V>(t: Table<V>, t': Table<V>, capacity: nat, key: string) {
    && FirstToExpireWent(t, t')
    && (|t.entries| < capacity ==> forall x :: x in t.entries ==> x in t'.entries)
    && (capacity >= 1 ==> key in t'.entries)
  }

  /**
   With one time to live, a clock that never goes back and fresh keys, every insertion there ever is
   evicts the entry that would have expired first, and only when the table is full.
   */
  lemma AlwaysEvictsFirstToExpire<V>(capacity: nat, ttl: nat, calls: seq<Call<V>>, k: nat)
    requires Proper(capacity, ttl, calls) && k < |calls| && calls[k].op.Inserts?
    ensures EvictsProperly(After(capacity, ttl, calls, k), After(capacity, ttl, calls, k + 1), capacity,
                           calls[k].op.key)
  {
    var Call(op, now) := calls[k];
    TidyBefore(capacity, ttl, calls, k);
    InsertedAfter(capacity, ttl, calls, k);
    InsertionEvicts(After(capacity, ttl, calls, k), capacity, op.key, now + ttl, op.value);
  }

  lemma TidyBefore<V>(capacity: nat, ttl: nat, calls: seq<Call<V>>, k: nat)
    requires Proper(capacity, ttl, calls) && k < |calls| && calls[k].op.Inserts?
    ensures Tidy(After(capacity, ttl, calls, k), capacity, calls[k].now + ttl)
    ensures calls[k].op.key !in After(capacity, ttl, calls, k).order
  {
    assert NotBefore(calls, k) && KeyIsFresh(capacity, ttl, calls, k);
    AlwaysTidy(capacity, ttl, calls, k, calls[k].now);
  }

  lemma InsertedAfter<V>(capacity: nat, ttl: nat, calls: seq<Call<V>>, k: nat)
    requires k < |calls| && calls[k].op.Inserts?
    ensures var Call(op, now) := calls[k];
      After(capacity, ttl, calls, k + 1) == Put(After(capacity, ttl, calls, k), op.key, now + ttl, op.value)
  {
    DoneInserting(After(capacity, ttl, calls, k), ttl, calls[k]);
  }

  lemma DoneInserting<V>(t: Table<V>, ttl: nat, c: Call<V>)
    requires c.op.Inserts?
    ensures Done(t, ttl, c) == Put(t, c.op.key, c.now + ttl, c.op.value)
  {
  }

  lemma InsertionEvicts<V>(t: Table<V>, capacity: nat, key: string, exp: nat, v: V)
    requires Tidy(t, capacity, exp) && key !in t.order
    ensures EvictsProperly(t, Put(t, key, exp, v), capacity, key)
  {
    TidyMeans(t, capacity, exp);
    EvictsFirstToExpire(t, key, exp, v);
    PutRefinesList(t, key, exp, v);
    AddSize(t.entries, key, Timed(exp, v));
  }

  // ---- What the table does not bound ----

  /** The order grows with every insertion that finds room, and with no other. */
  lemma OrderGrows<V>(t: Table<V>, key: string, exp: nat, v: V)
    requires TableOk(t) && key !in t.order
    ensures |Put(t, key, exp, v).order| > |t.order| <==> |t.entries| < t.capacity
    ensures |t.entries| < t.capacity ==> |Put(t, key, exp, v).order| == |t.order| + 1
  {
    AddSize(t.entries, key, Timed(exp, v));
    ShrinkShortens(t.(entries := t.entries[key := Timed(exp, v)], order := t.order + [key]));
  }

  lemma {:induction false} ShrinkShortens<V>(t: Table<V>)
    ensures |Shrink(t).order| <= |t.order|
    ensures |t.entries| > t.capacity && t.order != [] ==> |Shrink(t).order| < |t.order|
    decreases |t.order|
  {
    if |t.entries| > t.capacity && t.order != [] {
      ShrinkShortens(t.(entries := t.entries - {t.order[0]}, order := t.order[1..]));
    }
  }

  /** An insertion keeps the order within the capacity exactly when the order has room or every entry is live. */
  lemma OrderStaysWithinCapacity<V>(t: Table<V>, key: string, exp: nat, v: V)
    requires TableOk(t) && key !in t.order && |t.order| <= t.capacity
    ensures |Put(t, key, exp, v).order| <= t.capacity <==> |t.order| < t.capacity || |t.entries| == t.capacity
  {
    OrderGrows(t, key, exp, v);
  }

  /** The order is within the capacity before call `n`. */
  ghost predicate OrderFits<V>(capacity: nat, ttl: nat, calls: seq<Call<V>>, n: nat)
    requires n <= |calls|
  {
    |After(capacity, ttl, calls, n).order| <= capacity
  }

  /** Call `k` is no insertion that finds the order full while the table has room. */
  ghost predicate FindsRoom<V>(capacity: nat, ttl: nat, calls: seq<Call<V>>, k: nat)
    requires k < |calls|
  {
    calls[k].op.Inserts? ==>
      var t := After(capacity, ttl, calls, k);
      |t.order| < capacity || |t.entries| == capacity
  }

  /** Over a whole lifetime: the order is always within the capacity exactly when every insertion finds room. */
  lemma OrderBoundedExactly<V>(capacity: nat, ttl: nat, calls: seq<Call<V>>)
    requires Proper(capacity, ttl, calls)
    ensures (forall n: nat :: n <= |calls| ==> OrderFits(capacity, ttl, calls, n))
      <==> (forall k: nat :: k < |calls| ==> FindsRoom(capacity, ttl, calls, k))
  {
    if forall n: nat :: n <= |calls| ==> OrderFits(capacity, ttl, calls, n) {
      forall k: nat | k < |calls|
        ensures FindsRoom(capacity, ttl, calls, k)
      {
        assert OrderFits(capacity, ttl, calls, k) && OrderFits(capacity, ttl, calls, k + 1);
        OrderAfterCall(capacity, ttl, calls, k);
      }
    }
    if forall k: nat :: k < |calls| ==> FindsRoom(capacity, ttl, calls, k) {
      forall n: nat | n <= |calls|
        ensures OrderFits(capacity, ttl, calls, n)
      {
        OrderBoundedUpTo(capacity, ttl, calls, n);
      }
    }
  }

  lemma {:induction false} OrderBoundedUpTo<V>(capacity: nat, ttl: nat, calls: seq<Call<V>>, n: nat)
    requires Proper(capacity, ttl, calls) && n <= |calls|
    requires forall k: nat :: k < |calls| ==> FindsRoom(capacity, ttl, calls, k)
    ensures OrderFits(capacity, ttl, calls, n)
    decreases n
  {
    if n == 0 {
      assert After(capacity, ttl, calls, n) == Table(map[], [], capacity);
    } else {
      OrderBoundedUpTo(capacity, ttl, calls, n - 1);
      assert FindsRoom(capacity, ttl, calls, n - 1);
      OrderAfterCall(capacity, ttl, calls, n - 1);
    }
  }

  lemma OrderAfterCall<V>(capacity: nat, ttl: nat, calls: seq<Call<V>>, k: nat)
    requires Proper(capacity, ttl, calls) && k < |calls| && OrderFits(capacity, ttl, calls, k)
    ensures OrderFits(capacity, ttl, calls, k + 1) <==> FindsRoom(capacity, ttl, calls, k)
  {
    assert NotBefore(calls, k) && KeyIsFresh(capacity, ttl, calls, k);
    AlwaysTidy(capacity, ttl, calls, k, calls[k].now);
    CallOrder(After(capacity, ttl, calls, k), capacity, ttl, calls[k]);
  }

  lemma CallOrder<V>(t: Table<V>, capacity: nat, ttl: nat, c: Call<V>)
    requires Tidy(t, capacity, c.now + ttl) && (c.op.Inserts? ==> c.op.key !in t.order)
    requires |t.order| <= capacity
    ensures |Done(t, ttl, c).order| <= capacity <==>
      (c.op.Inserts? ==> |t.order| < capacity || |t.entries| == capacity)
  {
    TidyMeans(t, capacity, c.now + ttl);
    if c.op.Inserts? {
      OrderStaysWithinCapacity(t, c.op.key, c.now + ttl, c.op.value);
    }
  }

  /** Each key inserted and taken again at once. */
  function Churn<V>(t: Table<V>, keys: seq<string>, exp: nat, v: V): Table<V> {
    if keys == [] then t
    else Taken(Put(Churn(t, keys[..|keys| - 1], exp, v), keys[|keys| - 1], exp, v), keys[|keys| - 1])
  }

  /** So the order is not bounded by the capacity: a table used once per key keeps every key it ever saw. */
  lemma {:induction false} OrderIsUnbounded<V>(capacity: nat, keys: seq<string>, exp: nat, v: V)
    requires capacity >= 1
    ensures Churn(Table(map[], [], capacity), keys, exp, v) == Table(map[], keys, capacity)
    decreases |keys|
  {
    if keys != [] {
      var front, last := keys[..|keys| - 1], keys[|keys| - 1];
      OrderIsUnbounded(capacity, front, exp, v);
      UsedOnce(front, last, capacity, exp, v);
      ChurnLast(Table(map[], [], capacity), front, last, exp, v);
      FrontLast(keys);
    }
  }

  lemma FrontLast<T>(s: seq<T>)
    requires s != []
    ensures s == s[..|s| - 1] + [s[|s| - 1]]
  {
  }

  lemma ChurnLast<V>(t: Table<V>, front: seq<string>, last: string, exp: nat, v: V)
    ensures Churn(t, front + [last], exp, v) == Taken(Put(Churn(t, front, exp, v), last, exp, v), last)
  {
    assert (front + [last])[..|front|] == front;
  }

  lemma UsedOnce<V>(order: seq<string>, key: string, capacity: nat, exp: nat, v: V)
    requires capacity >= 1
    ensures Taken(Put(Table(map[], order, capacity), key, exp, v), key) == Table(map[], order + [key], capacity)
  {
    var none: map<string, Timed<V>> := map[];
    AddSize(none, key, Timed(exp, v));
    assert none[key := Timed(exp, v)] - {key} == none;
  }

  /** A key used twice defeats oldest-first: the older mention in the order evicts the newer entry. */
  lemma ReusedKeyIsEvicted(v: nat)
    ensures var t0: Table<nat> := Table(map[], [], 2);
      var t := Put(Put(Taken(Put(t0, "a", 10, v), "a"), "b", 20, v), "a", 30, v);
      && t.order == ["a", "b", "a"]
      && "a" !in Put(t, "c", 40, v).entries && "b" in Put(t, "c", 40, v).entries
  {
    var t0: Table<nat> := Table(map[], [], 2);
    UsedOnce([], "a", 2, 10, v);
    var ta: Table<nat> := Table(map[], ["a"], 2);
    assert Taken(Put(t0, "a", 10, v), "a") == ta;
    AddSize(ta.entries, "b", Timed(20, v));
    var tb := Put(ta, "b", 20, v);
    assert tb == Table(ta.entries["b" := Timed(20, v)], ["a", "b"], 2);
    AddSize(tb.entries, "a", Timed(30, v));
    var tc := Put(tb, "a", 30, v);
    assert tc == Table(tb.entries["a" := Timed(30, v)], ["a", "b", "a"], 2);
    AddSize(tc.entries, "c", Timed(40, v));
    var full := Table(tc.entries["c" := Timed(40, v)], ["a", "b", "a", "c"], 2);
    RemoveSize(full.entries, "a");
    assert "a"[0] != "b"[0] && "c"[0] != "a"[0] && "c"[0] != "b"[0];
    assert tc.order + ["c"] == ["a", "b", "a", "c"];
    assert Put(tc, "c", 40, v) == Shrink(full);
    assert ["a", "b", "a", "c"][1..] == ["b", "a", "c"];
    assert Shrink(full) == Table(full.entries - {"a"}, ["b", "a", "c"], 2);
  }

  // ---- In place ----

  class ExpiringTable<V> {
    var entries: map<string, Timed<V>>
    var order: seq<string>
    const capacity: nat

    ghost function View(): Table<V>
      reads this
    {
      Table(entries, order, capacity)
    }

    constructor (capacity: nat)
      ensures View() == Table(map[], [], capacity) && TableOk(View())
    {
      this.capacity := capacity;
      entries := map[];
      order := [];
    }

    method Insert(key: string, now: nat, ttl: nat, value: V)
      modifies this
      ensures View() == Put(old(View()), key, now + ttl, value)
    {
      if key !in entries {
        order := order + [key];
      }
      entries := entries[key := Timed(now + ttl, value)];
      while |entries| > capacity
        invariant Shrink(View()) == Put(old(View()), key, now + ttl, value)
        decreases |order|
      {
        if order == [] {
          break;
        }
        entries := entries - {order[0]};
        order := order[1..];
      }
    }

    /** The live entry, left in the table. */
    method Get(key: string, now: nat) returns (r: Option<V>)
      modifies this`entries
      ensures View() == Seen(old(View()), key, now)
      ensures r == if LiveAt(old(View()), key, now) then Some(old(entries)[key].value) else None
      ensures r.Some? <==> key in old(entries) && now < old(entries)[key].exp
      ensures entries == if r.Some? then old(entries) else old(entries) - {key}
    {
      if key !in entries {
        assert entries - {key} == entries;
        return None;
      }
      if entries[key].exp <= now {
        entries := entries - {key};
        return None;
      }
      return Some(entries[key].value);
    }

    /** Writes through the reference a lookup returned. */
    method Write(key: string, value: V)
      requires key in entries
      modifies this`entries
      ensures View() == Written(old(View()), key, value)
    {
      entries := entries[key := Timed(entries[key].exp, value)];
    }

    method Take(key: string, now: nat) returns (r: Option<V>)
      modifies this`entries
      ensures View() == Taken(old(View()), key)
      ensures r == if LiveAt(old(View()), key, now) then Some(old(entries)[key].value) else None
      ensures r.Some? <==> key in old(entries) && now < old(entries)[key].exp
      ensures entries == old(entries) - {key}
    {
      if key !in entries {
        assert entries - {key} == entries;
        return None;
      }
      var e := entries[key];
      entries := entries - {key};
      return if now < e.exp then Some(e.value) else None;
    }
  }
}
