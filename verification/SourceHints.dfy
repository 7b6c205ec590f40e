/**
  The bounded cache of routing hints: a map of list elements over a recency list.

  `Hints` is the plain model, a sequence with the most recently used hint first. The class
  keeps the map and the list and is proved to be that sequence.
*/
module SourceHints {
  import opened Prelude

  datatype Key = Key(uid: int, name: string)

  datatype Hint = Hint(key: Key, node: string)

  type Hints = seq<Hint>

  predicate DistinctKeys(l: Hints) {
    forall i, j | 0 <= i < j < |l| :: l[i].key != l[j].key
  }

  function Drop(l: Hints, key: Key): Hints {
    if l == [] then []
    else if l[0].key == key then Drop(l[1..], key)
    else [l[0]] + Drop(l[1..], key)
  }

  function Lookup(l: Hints, key: Key): Option<string> {
    if l == [] then None else if l[0].key == key then Some(l[0].node) else Lookup(l[1..], key)
  }

  /** A hit moves the hint to the front. */
  function Touch(l: Hints, key: Key): Hints {
    match Lookup(l, key)
    case None => l
    case Some(node) => [Hint(key, node)] + Drop(l, key)
  }

  /** `putLocked`: an empty node is ignored, a full cache gives up its last hint. */
  function Put(l: Hints, capacity: nat, key: Key, node: string): Hints {
    if node == "" then l
    else if Lookup(l, key).Some? then [Hint(key, node)] + Drop(l, key)
    else if |l| == capacity && l != [] then [Hint(key, node)] + l[..|l| - 1]
    else [Hint(key, node)] + l
  }

  lemma {:induction false} LookupAt(l: Hints, key: Key, i: nat)
    requires DistinctKeys(l) && i < |l| && l[i].key == key
    ensures Lookup(l, key) == Some(l[i].node) && Drop(l, key) == l[..i] + l[i + 1..]
  {
    if i == 0 {
      DropAbsent(l[1..], key);
      assert l[..0] + l[1..] == l[1..];
    } else {
      LookupAt(l[1..], key, i - 1);
      assert l[..i] + l[i + 1..] == [l[0]] + (l[1..][..i - 1] + l[1..][i..]);
    }
  }

  lemma {:induction false} DropAbsent(l: Hints, key: Key)
    requires forall i | 0 <= i < |l| :: l[i].key != key
    ensures Drop(l, key) == l && Lookup(l, key) == None
  {
    if l != [] {
      DropAbsent(l[1..], key);
    }
  }

  /** Where a key is, if it is anywhere. */
  lemma Locate(l: Hints, key: Key) returns (i: Option<nat>)
    requires DistinctKeys(l)
    ensures i.Some? ==> i.value < |l| && l[i.value].key == key && Lookup(l, key) == Some(l[i.value].node)
    ensures i.Some? ==> Drop(l, key) == l[..i.value] + l[i.value + 1..]
    ensures i.None? ==> Lookup(l, key) == None && Drop(l, key) == l && forall j | 0 <= j < |l| :: l[j].key != key
  {
    if k: nat :| k < |l| && l[k].key == key {
      LookupAt(l, key, k);
      i := Some(k);
    } else {
      DropAbsent(l, key);
      i := None;
    }
  }

  /** Invalidating removes exactly one key. */
  lemma DropMeaning(l: Hints, key: Key, other: Key)
    requires DistinctKeys(l)
    ensures DistinctKeys(Drop(l, key)) && |Drop(l, key)| <= |l|
    ensures Lookup(Drop(l, key), other) == if other == key then None else Lookup(l, other)
  {
    var i := Locate(l, key);
    if i.Some? {
      var d := Drop(l, key);
      var j := Locate(l, other);
      var k := Locate(d, other);
      if j.Some? && other != key {
        var p := if j.value < i.value then j.value else j.value - 1;
        assert d[p] == l[j.value];
        LookupAt(d, other, p);
      }
      assert k.Some? ==> d[k.value] in l;
    }
  }

  lemma TouchMeaning(l: Hints, key: Key, other: Key)
    requires DistinctKeys(l)
    ensures DistinctKeys(Touch(l, key)) && |Touch(l, key)| == |l|
    ensures Lookup(Touch(l, key), other) == Lookup(l, other)
  {
    var i := Locate(l, key);
    if i.Some? {
      DropMeaning(l, key, other);
      var t := Touch(l, key);
      assert t[1..] == Drop(l, key);
    }
  }

  lemma {:induction false} LookupInit(l: Hints, key: Key)
    requires DistinctKeys(l) && l != []
    ensures Lookup(l[..|l| - 1], key) == if l[|l| - 1].key == key then None else Lookup(l, key)
  {
    var init := l[..|l| - 1];
    var i := Locate(l, key);
    if i.Some? && i.value < |init| {
      assert init[i.value] == l[i.value];
      LookupAt(init, key, i.value);
    } else {
      DropAbsent(init, key);
    }
  }

  /** A hint put in front of the others is the one found for its key. */
  lemma FrontMeaning(rest: Hints, key: Key, node: string, other: Key)
    requires DistinctKeys(rest) && Lookup(rest, key).None?
    ensures var l := [Hint(key, node)] + rest;
            DistinctKeys(l) && Lookup(l, other) == if other == key then Some(node) else Lookup(rest, other)
  {
    var l := [Hint(key, node)] + rest;
    assert l[1..] == rest;
    var i := Locate(rest, key);
    assert forall j | 0 < j < |l| :: l[j] == rest[j - 1];
  }

  /**
    Storing keeps the keys distinct and the size within the capacity; the stored key has the
    new node, and every other key keeps its node unless it was the last of a full cache.
  */
  lemma PutMeaning(l: Hints, capacity: nat, key: Key, node: string, other: Key)
    requires DistinctKeys(l) && |l| <= capacity && 0 < capacity && node != ""
    ensures var p := Put(l, capacity, key, node);
            && DistinctKeys(p) && |p| <= capacity && Lookup(p, key) == Some(node)
            && (other != key ==>
                  Lookup(p, other) ==
                  if |l| == capacity && Lookup(l, key).None? && l[|l| - 1].key == other then None else Lookup(l, other))
  {
    var rest := if Lookup(l, key).Some? then Drop(l, key) else if |l| == capacity then l[..|l| - 1] else l;
    assert DistinctKeys(rest) && Lookup(rest, key).None? by {
      DropMeaning(l, key, key);
      if |l| == capacity {
        LookupInit(l, key);
      }
    }
    FrontMeaning(rest, key, node, key);
    FrontMeaning(rest, key, node, other);
    DropMeaning(l, key, other);
    SizeAfterDrop(l, key);
    if |l| == capacity {
      LookupInit(l, other);
    }
  }

  lemma SizeAfterDrop(l: Hints, key: Key)
    requires DistinctKeys(l)
    ensures |Drop(l, key)| == if Lookup(l, key).Some? then |l| - 1 else |l|
  {
    var i := Locate(l, key);
  }

  // --- Recency ---

  datatype Op =
    | Load(key: Key)
    | StoreHint(key: Key, node: string)
    | Invalidate(key: Key)

  /** The cache with, for each key, the time of its last use. */
  datatype Timed = Timed(hints: Hints, lastUse: map<Key, nat>, clock: nat)

  function Uses(l: Hints, op: Op): bool {
    match op
    case Load(key) => Lookup(l, key).Some?
    case StoreHint(_, node) => node != ""
    case Invalidate(_) => false
  }

  function HintsAfter(l: Hints, capacity: nat, op: Op): Hints {
    match op
    case Load(key) => Touch(l, key)
    case StoreHint(key, node) => Put(l, capacity, key, node)
    case Invalidate(key) => Drop(l, key)
  }

  function TimedAfter(t: Timed, capacity: nat, op: Op): Timed {
    Timed(HintsAfter(t.hints, capacity, op),
          if Uses(t.hints, op) then t.lastUse[op.key := t.clock] else t.lastUse,
          t.clock + 1)
  }

  /** The sequence lists the keys by the time of their last use, latest first. */
  predicate ByRecency(t: Timed) {
    && (forall i | 0 <= i < |t.hints| :: t.hints[i].key in t.lastUse && t.lastUse[t.hints[i].key] < t.clock)
    && (forall i, j | 0 <= i < j < |t.hints| :: t.lastUse[t.hints[i].key] > t.lastUse[t.hints[j].key])
  }

  function Run(capacity: nat, ops: seq<Op>): Timed {
    if ops == [] then Timed([], map[], 0) else TimedAfter(Run(capacity, ops[..|ops| - 1]), capacity, ops[|ops| - 1])
  }

  lemma FrontIsRecent(t: Timed, key: Key, node: string, rest: Hints)
    requires ByRecency(t) && DistinctKeys([Hint(key, node)] + rest)
    requires ByRecency(Timed(rest, t.lastUse, t.clock))
    ensures ByRecency(Timed([Hint(key, node)] + rest, t.lastUse[key := t.clock], t.clock + 1))
  {
    var l := [Hint(key, node)] + rest;
    assert l[0].key == key;
    forall i | 0 < i < |l| ensures l[i] == rest[i - 1] && l[i].key != key {
      assert l[i].key != l[0].key;
    }
  }

  lemma RestIsRecent(t: Timed, i: nat)
    requires ByRecency(t) && i < |t.hints|
    ensures ByRecency(Timed(t.hints[..i] + t.hints[i + 1..], t.lastUse, t.clock))
  {
    var rest := t.hints[..i] + t.hints[i + 1..];
    assert forall j | 0 <= j < |rest| :: rest[j] == t.hints[if j < i then j else j + 1];
  }

  lemma LoadKeepsRecency(t: Timed, key: Key)
    requires ByRecency(t) && DistinctKeys(t.hints) && Lookup(t.hints, key).Some?
    ensures ByRecency(Timed(Touch(t.hints, key), t.lastUse[key := t.clock], t.clock + 1))
  {
    TouchMeaning(t.hints, key, key);
    var i := Locate(t.hints, key);
    RestIsRecent(t, i.value);
    FrontIsRecent(t, key, t.hints[i.value].node, Drop(t.hints, key));
  }

  lemma StoreKeepsRecency(t: Timed, capacity: nat, key: Key, node: string)
    requires ByRecency(t) && DistinctKeys(t.hints) && |t.hints| <= capacity && 0 < capacity && node != ""
    ensures ByRecency(Timed(Put(t.hints, capacity, key, node), t.lastUse[key := t.clock], t.clock + 1))
  {
    var l := t.hints;
    PutMeaning(l, capacity, key, node, key);
    var i := Locate(l, key);
    var rest := Put(l, capacity, key, node)[1..];
    if i.Some? {
      RestIsRecent(t, i.value);
      assert rest == Drop(l, key);
    } else if |l| == capacity {
      RestIsRecent(t, |l| - 1);
      assert rest == l[..|l| - 1] + l[|l|..];
    } else {
      assert rest == l;
    }
    assert Put(l, capacity, key, node) == [Hint(key, node)] + rest;
    FrontIsRecent(t, key, node, rest);
  }

  lemma RecencyKept(t: Timed, capacity: nat, op: Op)
    requires ByRecency(t) && DistinctKeys(t.hints) && |t.hints| <= capacity && 0 < capacity
    ensures ByRecency(TimedAfter(t, capacity, op))
    ensures DistinctKeys(TimedAfter(t, capacity, op).hints) && |TimedAfter(t, capacity, op).hints| <= capacity
  {
    match op
    case Load(key) =>
      TouchMeaning(t.hints, key, key);
      if Lookup(t.hints, key).Some? {
        LoadKeepsRecency(t, key);
      }
    case StoreHint(key, node) =>
      if node != "" {
        PutMeaning(t.hints, capacity, key, node, key);
        StoreKeepsRecency(t, capacity, key, node);
      }
    case Invalidate(key) =>
      DropMeaning(t.hints, key, key);
      var i := Locate(t.hints, key);
      if i.Some? {
        RestIsRecent(t, i.value);
      }
  }

  lemma {:induction false} RunKeeps(capacity: nat, ops: seq<Op>)
    requires 0 < capacity
    ensures var t := Run(capacity, ops);
            ByRecency(t) && DistinctKeys(t.hints) && |t.hints| <= capacity
  {
    if ops != [] {
      RunKeeps(capacity, ops[..|ops| - 1]);
      RecencyKept(Run(capacity, ops[..|ops| - 1]), capacity, ops[|ops| - 1]);
    }
  }

  lemma VictimIsOldest(t: Timed, capacity: nat, key: Key, node: string, victim: Key, kept: Key)
    requires ByRecency(t) && DistinctKeys(t.hints) && |t.hints| <= capacity && 0 < capacity
    requires node != "" && victim != key && kept != key
    requires Lookup(t.hints, victim).Some? && Lookup(Put(t.hints, capacity, key, node), victim).None?
    requires Lookup(Put(t.hints, capacity, key, node), kept).Some?
    ensures |t.hints| == capacity && Lookup(t.hints, key).None? && Lookup(t.hints, kept).Some?
    ensures victim in t.lastUse && kept in t.lastUse && t.lastUse[victim] < t.lastUse[kept]
  {
    PutMeaning(t.hints, capacity, key, node, victim);
    PutMeaning(t.hints, capacity, key, node, kept);
    var v := Locate(t.hints, victim);
    var k := Locate(t.hints, kept);
    assert v.value == |t.hints| - 1 && k.value < v.value;
  }

  /**
    In every run: a key that storing another one removes was used longer ago than every key
    that stays, and only a full cache that did not hold the stored key removes one.
  */
  lemma EvictsLeastRecent(capacity: nat, ops: seq<Op>, key: Key, node: string, victim: Key, kept: Key)
    requires 0 < capacity && node != "" && victim != key && kept != key
    requires var l := Run(capacity, ops).hints;
             && Lookup(l, victim).Some? && Lookup(Put(l, capacity, key, node), victim).None?
             && Lookup(Put(l, capacity, key, node), kept).Some?
    ensures var t := Run(capacity, ops);
            && |t.hints| == capacity && Lookup(t.hints, key).None? && Lookup(t.hints, kept).Some?
            && victim in t.lastUse && kept in t.lastUse && t.lastUse[victim] < t.lastUse[kept]
  {
    RunKeeps(capacity, ops);
    VictimIsOldest(Run(capacity, ops), capacity, key, node, victim, kept);
  }

  // --- The cache ---

  /** An element of the recency list; the map points at it too. */
  class Element {
    var value: Hint

    constructor (value: Hint)
      ensures this.value == value
    {
      this.value := value;
    }
  }

  function Without(order: seq<Element>, e: Element): (rest: seq<Element>)
    ensures forall x | x in rest :: x in order
  {
    if order == [] then [] else if order[0] == e then Without(order[1..], e) else [order[0]] + Without(order[1..], e)
  }

  predicate Distinct(order: seq<Element>) {
    forall i, j | 0 <= i < j < |order| :: order[i] != order[j]
  }

  lemma {:induction false} WithoutAt(order: seq<Element>, i: nat)
    requires i < |order| && Distinct(order)
    ensures Without(order, order[i]) == order[..i] + order[i + 1..]
  {
    if i == 0 {
      WithoutAbsent(order[1..], order[0]);
      assert order[..0] + order[1..] == order[1..];
    } else {
      WithoutAt(order[1..], i - 1);
      assert order[..i] + order[i + 1..] == [order[0]] + (order[1..][..i - 1] + order[1..][i..]);
    }
  }

  lemma {:induction false} WithoutAbsent(order: seq<Element>, e: Element)
    requires e !in order
    ensures Without(order, e) == order
  {
    if order != [] {
      WithoutAbsent(order[1..], e);
    }
  }

  /** Keys and list elements correspond one to one. */
  predicate Indexed(entries: map<Key, Element>, order: seq<Element>, hints: Hints) {
    && |entries| == |order| == |hints|
    && DistinctKeys(hints)
    && (forall i | 0 <= i < |hints| :: hints[i].key in entries && entries[hints[i].key] == order[i])
    && (forall key | key in entries :: Lookup(hints, key).Some?)
  }

  /** Removing an element and its key keeps the correspondence. */
  lemma IndexedWithout(entries: map<Key, Element>, order: seq<Element>, hints: Hints, i: nat)
    requires Indexed(entries, order, hints) && i < |hints|
    ensures Indexed(entries - {hints[i].key}, order[..i] + order[i + 1..], hints[..i] + hints[i + 1..])
  {
    var key := hints[i].key;
    var entries', order', hints' := entries - {key}, order[..i] + order[i + 1..], hints[..i] + hints[i + 1..];
    LookupAt(hints, key, i);
    forall other | other in entries' ensures Lookup(hints', other).Some? {
      DropMeaning(hints, key, other);
    }
    forall j | 0 <= j < |hints'| ensures hints'[j].key in entries' && entries'[hints'[j].key] == order'[j] {
      var k := if j < i then j else j + 1;
      assert hints'[j] == hints[k] && hints[k].key != key;
    }
    assert entries'.Keys == entries.Keys - {key};
  }

  lemma LookupCached(entries: map<Key, Element>, order: seq<Element>, hints: Hints, key: Key)
    requires Indexed(entries, order, hints)
    ensures key in entries <==> Lookup(hints, key).Some?
  {
    var i := Locate(hints, key);
  }

  /** Putting an element for a new key in front keeps the correspondence. */
  lemma IndexedFront(entries: map<Key, Element>, order: seq<Element>, hints: Hints, hint: Hint, e: Element)
    requires Indexed(entries, order, hints) && hint.key !in entries
    ensures Indexed(entries[hint.key := e], [e] + order, [hint] + hints)
  {
    var entries', order', hints' := entries[hint.key := e], [e] + order, [hint] + hints;
    LookupCached(entries, order, hints, hint.key);
    assert DistinctKeys(hints') by {
      FrontMeaning(hints, hint.key, hint.node, hint.key);
    }
    forall other | other in entries' ensures Lookup(hints', other).Some? {
      FrontMeaning(hints, hint.key, hint.node, other);
    }
    forall j | 0 <= j < |hints'| ensures hints'[j].key in entries' && entries'[hints'[j].key] == order'[j] {
      if j > 0 {
        assert hints'[j] == hints[j - 1] && order'[j] == order[j - 1] && hints'[0].key != hints'[j].key;
      }
    }
    assert |entries'| == |entries| + 1;
  }

  /** Changing a node in place keeps the correspondence, and everything but that node. */
  lemma IndexedReplaced(entries: map<Key, Element>, order: seq<Element>, hints: Hints, i: nat, node: string)
    requires Indexed(entries, order, hints) && i < |hints|
    ensures var key := hints[i].key;
            var hints' := hints[i := Hint(key, node)];
            && Indexed(entries, order, hints')
            && Lookup(hints', key) == Some(node) && Drop(hints', key) == Drop(hints, key)
  {
    var key := hints[i].key;
    var hints' := hints[i := Hint(key, node)];
    LookupAt(hints, key, i);
    LookupAt(hints', key, i);
    assert hints'[..i] == hints[..i] && hints'[i + 1..] == hints[i + 1..];
    forall other | other in entries ensures Lookup(hints', other).Some? {
      var j := Locate(hints, other);
      assert hints'[j.value].key == other;
      var k := Locate(hints', other);
    }
  }

  /** Moving an element to the front of the list keeps the correspondence; the map stays. */
  lemma IndexedMoved(entries: map<Key, Element>, order: seq<Element>, hints: Hints, i: nat)
    requires Indexed(entries, order, hints) && i < |hints|
    ensures Indexed(entries, [order[i]] + (order[..i] + order[i + 1..]), [hints[i]] + (hints[..i] + hints[i + 1..]))
  {
    var key := hints[i].key;
    IndexedWithout(entries, order, hints, i);
    IndexedFront(entries - {key}, order[..i] + order[i + 1..], hints[..i] + hints[i + 1..], hints[i], order[i]);
    assert (entries - {key})[key := order[i]] == entries;
  }

  class SourceHintCache {
    const capacity: nat
    var revision: nat
    var entries: map<Key, Element>
    var order: seq<Element>
    /** The value of the recency list. */
    ghost var hints: Hints

    ghost predicate Valid()
      reads this, order
    {
      && 0 < capacity
      && |order| <= capacity
      && Indexed(entries, order, hints)
      && forall i | 0 <= i < |order| :: order[i].value == hints[i]
    }

    constructor (capacity: nat)
      requires 0 < capacity
      ensures Valid() && hints == [] && revision == 0 && this.capacity == capacity && order == []
    {
      this.capacity := capacity;
      revision := 0;
      entries := map[];
      order := [];
      hints := [];
    }

    /** Where the element of a key is in the list, if the key is cached. */
    lemma Position(key: Key) returns (i: Option<nat>)
      requires Valid()
      ensures key in entries <==> i.Some?
      ensures key in entries <==> Lookup(hints, key).Some?
      ensures i.Some? ==>
                && i.value < |order| && entries[key] == order[i.value] && hints[i.value].key == key
                && Lookup(hints, key) == Some(hints[i.value].node)
                && Drop(hints, key) == hints[..i.value] + hints[i.value + 1..]
                && Without(order, entries[key]) == order[..i.value] + order[i.value + 1..]
      ensures i.None? ==> Drop(hints, key) == hints
    {
      i := Locate(hints, key);
      if i.Some? {
        WithoutAt(order, i.value);
      }
    }

    /** Takes an element out of both structures. */
    method Remove(key: Key)
      requires Valid() && key in entries
      modifies this`entries, this`order, this`hints
      ensures Valid() && hints == Drop(old(hints), key)
      ensures entries == old(entries) - {key} && order == Without(old(order), old(entries)[key])
    {
      ghost var i := Position(key);
      IndexedWithout(entries, order, hints, i.value);
      var e := entries[key];
      entries := entries - {key};
      order := Without(order, e);
      hints := Drop(hints, key);
    }

    /** Puts an element for a key that is not cached in front of both structures. */
    method PushFront(e: Element)
      requires Valid() && e.value.key !in entries && |order| < capacity
      modifies this`entries, this`order, this`hints
      ensures Valid() && hints == [e.value] + old(hints)
      ensures entries == old(entries)[e.value.key := e] && order == [e] + old(order)
    {
      IndexedFront(entries, order, hints, e.value, e);
      entries := entries[e.value.key := e];
      order := [e] + order;
      hints := [e.value] + hints;
    }
  
    method MoveToFront(e: Element)
      requires Valid() && e in order
      modifies this`order, this`hints
      ensures Valid() && hints == Touch(old(hints), e.value.key)
      ensures order == [e] + Without(old(order), e)
    {
      ghost var i := Position(e.value.key);
      IndexedMoved(entries, order, hints, i.value);
      order := [e] + Without(order, e);
      hints := Touch(hints, e.value.key);
    }

    method SetNode(e: Element, node: string)
      requires Valid() && e in order
      modifies this`hints, e
      ensures Valid() && e.value == Hint(old(e.value.key), node)
      ensures Lookup(hints, e.value.key) == Some(node) && Drop(hints, e.value.key) == Drop(old(hints), e.value.key)
    {
      ghost var i := Position(e.value.key);
      IndexedReplaced(entries, order, hints, i.value, node);
      e.value := Hint(e.value.key, node);
      hints := hints[i.value := e.value];
    }

    method Load(uid: int, name: string) returns (node: string, found: bool, seen: nat)
      requires Valid()
      modifies this`order, this`hints
      ensures Valid() && hints == Touch(old(hints), Key(uid, name))
      ensures found == Lookup(old(hints), Key(uid, name)).Some? && seen == revision
      ensures node == if found then Lookup(old(hints), Key(uid, name)).value else ""
      ensures forall e | e in order :: e in old(order)
    {
      var key := Key(uid, name);
      ghost var i := Position(key);
      if key in entries {
        var e := entries[key];
        MoveToFront(e);
        return e.value.node, true, revision;
      }
      return "", false, revision;
    }

    /** Gives a cached element a new node and moves it to the front. */
    method Update(e: Element, node: string)
      requires Valid() && e in order && node != ""
      modifies this`order, this`hints, e
      ensures Valid() && hints == Put(old(hints), capacity, old(e.value.key), node)
      ensures forall x | x in order :: x in old(order)
    {
      ghost var i := Position(e.value.key);
      SetNode(e, node);
      MoveToFront(e);
    }

    /** Removes the last element of the list and its key. */
    method EvictBack()
      requires Valid() && order != []
      modifies this`entries, this`order, this`hints
      ensures Valid() && hints == old(hints)[..|old(hints)| - 1]
      ensures entries == old(entries) - {old(hints)[|old(hints)| - 1].key}
      ensures forall x | x in order :: x in old(order)
    {
      var e := order[|order| - 1];
      LastDropped(hints);
      ghost var last := Position(e.value.key);
      Remove(e.value.key);
    }

    method PutLocked(key: Key, node: string)
      requires Valid()
      modifies this`entries, this`order, this`hints, order
      ensures Valid() && hints == Put(old(hints), capacity, key, node)
      ensures forall e | e in order :: e in old(order) || fresh(e)
    {
      if node == "" {
        return;
      }
      ghost var i := Position(key);
      if key in entries {
        Update(entries[key], node);
        return;
      }
      if |entries| == capacity {
        EvictBack();
      }
      var e := new Element(Hint(key, node));
      PushFront(e);
    }

    method Store(uid: int, name: string, node: string)
      requires Valid()
      modifies this, order
      ensures Valid() && revision == old(revision) + 1
      ensures hints == Put(old(hints), capacity, Key(uid, name), node)
      ensures forall e | e in order :: e in old(order) || fresh(e)
    {
      revision := revision + 1;
      PutLocked(Key(uid, name), node);
    }

    method Fill(uid: int, name: string, node: string, seen: nat)
      requires Valid()
      modifies this, order
      ensures Valid() && revision == old(revision)
      ensures hints == if seen == revision then Put(old(hints), capacity, Key(uid, name), node) else old(hints)
      ensures forall e | e in order :: e in old(order) || fresh(e)
    {
      if seen == revision {
        PutLocked(Key(uid, name), node);
      }
    }

    method Invalidate(uid: int, name: string)
      requires Valid()
      modifies this
      ensures Valid() && revision == old(revision) + 1
      ensures hints == Drop(old(hints), Key(uid, name))
      ensures forall e | e in order :: e in old(order)
    {
      revision := revision + 1;
      var key := Key(uid, name);
      ghost var i := Position(key);
      if key in entries {
        Remove(key);
      }
    }

    method Count() returns (n: nat)
      requires Valid()
      ensures n == |hints| <= capacity
    {
      n := |entries|;
    }
  }

  lemma LastDropped(l: Hints)
    requires DistinctKeys(l) && l != []
    ensures Drop(l, l[|l| - 1].key) == l[..|l| - 1]
  {
    LookupAt(l, l[|l| - 1].key, |l| - 1);
  }
}
