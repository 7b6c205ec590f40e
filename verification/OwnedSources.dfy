/**
  The source map of a Node's linker and the counter of the sources it owns.

  The map goes from users to node names to node ids; the counter is kept by two handlers that
  the map operations call after they have left their lock.
*/
module OwnedSources {
  import opened Prelude
  import opened SourceHints

  type Sources = map<int, map<string, string>>

  /** Which handler a map operation calls once it is done. */
  datatype Handler = Wait | Done | Neither

  function Entry(s: Sources, uid: int, name: string): Option<string> {
    if uid in s && name in s[uid] then Some(s[uid][name]) else None
  }

  /** The (user, name) pairs that point at node `id`. */
  function Owned(s: Sources, id: string): set<(int, string)> {
    set uid, name | uid in s && name in s[uid] && s[uid][name] == id :: (uid, name)
  }

  predicate NoEmptyUser(s: Sources) {
    forall uid | uid in s :: s[uid] != map[]
  }

  function Stored(s: Sources, uid: int, name: string, nid: string): Sources {
    if uid in s then s[uid := s[uid][name := nid]] else s[uid := map[name := nid]]
  }

  function StoreCalls(s: Sources, id: string, uid: int, name: string, nid: string): Handler {
    match Entry(s, uid, name)
    case None => if id == nid then Wait else Neither
    case Some(previous) =>
      if previous == nid then Neither
      else if id == previous then Done
      else if id == nid then Wait
      else Neither
  }

  /** A mismatched node id deletes nothing; a user's last name takes the user with it. */
  function Deleted(s: Sources, uid: int, name: string, nid: string): Sources {
    if Entry(s, uid, name) != Some(nid) then s
    else if |s[uid]| == 1 then s - {uid}
    else s[uid := s[uid] - {name}]
  }

  function DeleteCalls(s: Sources, id: string, uid: int, name: string, nid: string): Handler {
    if Entry(s, uid, name) == Some(nid) && nid == id then Done else Neither
  }

  function Delta(h: Handler): int {
    match h
    case Wait => 1
    case Done => -1
    case Neither => 0
  }

  lemma StoredEntry(s: Sources, uid: int, name: string, nid: string, u: int, n: string)
    ensures Entry(Stored(s, uid, name, nid), u, n) == if u == uid && n == name then Some(nid) else Entry(s, u, n)
  {
  }

  lemma OnlyName(m: map<string, string>, name: string, other: string)
    requires name in m && other in m && |m| == 1
    ensures other == name
  {
    assert |m.Keys - {name}| == 0;
    assert m.Keys - {name} == {};
    assert other in m.Keys;
  }

  /** Deleting removes exactly the matching entry. */
  lemma DeletedEntry(s: Sources, uid: int, name: string, nid: string, u: int, n: string)
    ensures Entry(Deleted(s, uid, name, nid), u, n) ==
            if u == uid && n == name && Entry(s, u, n) == Some(nid) then None else Entry(s, u, n)
  {
    if Entry(s, uid, name) == Some(nid) && |s[uid]| == 1 && u == uid && n in s[u] {
      OnlyName(s[uid], name, n);
    }
  }

  lemma DeletedKeepsNoEmptyUser(s: Sources, uid: int, name: string, nid: string)
    requires NoEmptyUser(s)
    ensures NoEmptyUser(Deleted(s, uid, name, nid))
  {
    var s' := Deleted(s, uid, name, nid);
    if Entry(s, uid, name) == Some(nid) && |s[uid]| != 1 {
      var m := s[uid];
      assert (m - {name}).Keys == m.Keys - {name};
      assert |m.Keys - {name}| == |m.Keys| - 1;
    }
  }

  lemma StoredKeepsNoEmptyUser(s: Sources, uid: int, name: string, nid: string)
    requires NoEmptyUser(s)
    ensures NoEmptyUser(Stored(s, uid, name, nid))
  {
    assert name in Stored(s, uid, name, nid)[uid];
  }

  lemma SizeWithout<T>(s: set<T>, x: T)
    ensures |s - {x}| == |s| - if x in s then 1 else 0
  {
    if x !in s {
      assert s - {x} == s;
    }
  }

  lemma OwnedMeaning(s: Sources, id: string, uid: int, name: string)
    ensures (uid, name) in Owned(s, id) <==> Entry(s, uid, name) == Some(id)
  {
  }

  lemma OwnedElsewhere(s: Sources, s': Sources, id: string, uid: int, name: string)
    requires forall u, n | (u, n) != (uid, name) :: Entry(s', u, n) == Entry(s, u, n)
    ensures Owned(s', id) - {(uid, name)} == Owned(s, id) - {(uid, name)}
  {
    forall u, n | (u, n) != (uid, name) ensures (u, n) in Owned(s', id) <==> (u, n) in Owned(s, id) {
      OwnedMeaning(s, id, u, n);
      OwnedMeaning(s', id, u, n);
      assert Entry(s', u, n) == Entry(s, u, n);
    }
  }

  /** One entry changes, so at most one pair joins or leaves the owned set. */
  lemma OwnedChanges(s: Sources, s': Sources, id: string, uid: int, name: string)
    requires forall u, n | (u, n) != (uid, name) :: Entry(s', u, n) == Entry(s, u, n)
    ensures |Owned(s', id)| == |Owned(s, id)|
                               + (if Entry(s', uid, name) == Some(id) then 1 else 0)
                               - (if Entry(s, uid, name) == Some(id) then 1 else 0)
  {
    OwnedElsewhere(s, s', id, uid, name);
    OwnedMeaning(s, id, uid, name);
    OwnedMeaning(s', id, uid, name);
    SizeWithout(Owned(s, id), (uid, name));
    SizeWithout(Owned(s', id), (uid, name));
  }

  lemma StoreBalances(s: Sources, id: string, uid: int, name: string, nid: string)
    ensures |Owned(Stored(s, uid, name, nid), id)| == |Owned(s, id)| + Delta(StoreCalls(s, id, uid, name, nid))
  {
    forall u, n | (u, n) != (uid, name) ensures Entry(Stored(s, uid, name, nid), u, n) == Entry(s, u, n) {
      StoredEntry(s, uid, name, nid, u, n);
    }
    OwnedChanges(s, Stored(s, uid, name, nid), id, uid, name);
  }

  lemma DeleteBalances(s: Sources, id: string, uid: int, name: string, nid: string)
    ensures |Owned(Deleted(s, uid, name, nid), id)| == |Owned(s, id)| + Delta(DeleteCalls(s, id, uid, name, nid))
  {
    forall u, n | (u, n) != (uid, name) ensures Entry(Deleted(s, uid, name, nid), u, n) == Entry(s, u, n) {
      DeletedEntry(s, uid, name, nid, u, n);
    }
    DeletedEntry(s, uid, name, nid, uid, name);
    OwnedChanges(s, Deleted(s, uid, name, nid), id, uid, name);
  }

  /** What an accepted bind makes of the source map; with hints on only bindings to this node are recorded. */
  function Bound(s: Sources, id: string, hintsOn: bool, uid: int, name: string, nid: string): Sources {
    if hintsOn && nid != id then s else Stored(s, uid, name, nid)
  }

  /**
    After an accepted bind the map says that this node owns the pair exactly when the binding
    does, except exactly when hints are on, the pair was owned and is now bound to another node.
  */
  lemma OwnedAfterBindIff(s: Sources, id: string, hintsOn: bool, uid: int, name: string, nid: string)
    ensures ((uid, name) in Owned(Bound(s, id, hintsOn, uid, name, nid), id) <==> nid == id) <==>
            !(hintsOn && nid != id && (uid, name) in Owned(s, id))
    ensures (uid, name) in Owned(s, id) && hintsOn ==> (uid, name) in Owned(Bound(s, id, hintsOn, uid, name, nid), id)
  {
    StoredEntry(s, uid, name, nid, uid, name);
    OwnedMeaning(s, id, uid, name);
    OwnedMeaning(Bound(s, id, hintsOn, uid, name, nid), id, uid, name);
  }

  // --- Handlers that run outside the lock ---

  /** `waits` and `dones` are the handler calls that operations still owe. */
  datatype Books = Books(sources: Sources, counter: int, waits: nat, dones: nat)

  datatype Step =
    | Store(uid: int, name: string, nid: string)
    | Delete(uid: int, name: string, nid: string)
    | CallWait
    | CallDone

  function Owing(b: Books, sources: Sources, h: Handler): Books {
    match h
    case Wait => b.(sources := sources, waits := b.waits + 1)
    case Done => b.(sources := sources, dones := b.dones + 1)
    case Neither => b.(sources := sources)
  }

  function Next(b: Books, id: string, step: Step): Books {
    match step
    case Store(uid, name, nid) => Owing(b, Stored(b.sources, uid, name, nid), StoreCalls(b.sources, id, uid, name, nid))
    case Delete(uid, name, nid) =>
      Owing(b, Deleted(b.sources, uid, name, nid), DeleteCalls(b.sources, id, uid, name, nid))
    case CallWait => if b.waits > 0 then b.(counter := b.counter + 1, waits := b.waits - 1) else b
    case CallDone => if b.dones > 0 then b.(counter := b.counter - 1, dones := b.dones - 1) else b
  }

  function Run(id: string, steps: seq<Step>): Books {
    if steps == [] then Books(map[], 0, 0, 0) else Next(Run(id, steps[..|steps| - 1]), id, steps[|steps| - 1])
  }

  /**
    However map operations and their handler calls interleave, the counter and the calls
    still owed add up to the entries pointing at this node, and no user keeps an empty map.
  */
  lemma {:induction false} BooksBalance(id: string, steps: seq<Step>)
    ensures var b := Run(id, steps);
            b.counter + b.waits - b.dones == |Owned(b.sources, id)| && NoEmptyUser(b.sources)
  {
    if steps == [] {
      assert Owned(map[], id) == {};
    } else {
      BooksBalance(id, steps[..|steps| - 1]);
      var b := Run(id, steps[..|steps| - 1]);
      match steps[|steps| - 1]
      case Store(uid, name, nid) =>
        StoreBalances(b.sources, id, uid, name, nid);
        StoredKeepsNoEmptyUser(b.sources, uid, name, nid);
      case Delete(uid, name, nid) =>
        DeleteBalances(b.sources, id, uid, name, nid);
        DeletedKeepsNoEmptyUser(b.sources, uid, name, nid);
      case _ =>
    }
  }

  /** What each step does to an entry, and to the counter and the calls owed. */
  lemma BooksFollow(b: Books, id: string, step: Step, u: int, n: string)
    ensures var b' := Next(b, id, step);
            && (step.Store? ==>
                  Entry(b'.sources, u, n) == if (u, n) == (step.uid, step.name) then Some(step.nid) else Entry(b.sources, u, n))
            && (step.Delete? ==>
                  Entry(b'.sources, u, n) ==
                  if (u, n) == (step.uid, step.name) && Entry(b.sources, u, n) == Some(step.nid) then None
                  else Entry(b.sources, u, n))
            && (step.Store? || step.Delete? ==> b'.counter == b.counter)
            && (step.CallWait? ==> b' == if b.waits == 0 then b else b.(counter := b.counter + 1, waits := b.waits - 1))
            && (step.CallDone? ==> b' == if b.dones == 0 then b else b.(counter := b.counter - 1, dones := b.dones - 1))
  {
    match step
    case Store(uid, name, nid) => StoredEntry(b.sources, uid, name, nid, u, n);
    case Delete(uid, name, nid) => DeletedEntry(b.sources, uid, name, nid, u, n);
    case _ =>
  }

  // --- The linker ---

  /** What a locator call answered; an empty node means the user is bound nowhere. */
  datatype Reply = NoLocator | Failed | Answered(node: string)

  datatype EventKind = BindGate | UnbindGate | BindNode | UnbindNode

  datatype Event = Event(kind: EventKind, uid: int, name: string, nid: string)

  datatype LookupError = NotFoundLocator | LocatorError | NotFoundUserLocation

  class NodeLinker {
    const id: string
    const hints: SourceHintCache?
    var sources: Sources
    /** The owning node's counter, kept by the wait and done handlers. */
    var ownedSources: int

    ghost function Elements(): set<Element>
      reads this, hints
    {
      if hints == null then {} else set e | e in hints.order
    }

    ghost predicate Valid()
      reads this, hints, Elements()
    {
      && NoEmptyUser(sources)
      && ownedSources == |Owned(sources, id)|
      && (hints != null ==> hints.Valid())
    }

    constructor (id: string, sourceHintCapacity: nat)
      ensures Valid() && sources == map[] && this.id == id
      ensures (hints == null) == (sourceHintCapacity == 0)
      ensures hints != null ==> fresh(hints) && hints.hints == [] && hints.order == []
    {
      this.id := id;
      sources := map[];
      ownedSources := 0;
      if sourceHintCapacity > 0 {
        var h := new SourceHintCache(sourceHintCapacity);
        hints := h;
      } else {
        hints := null;
      }
      new;
      assert Owned(sources, this.id) == {};
    }

    method StoreLegacySource(uid: int, name: string, nid: string)
      requires Valid()
      modifies this
      ensures Valid() && sources == Stored(old(sources), uid, name, nid)
    {
      StoreBalances(sources, id, uid, name, nid);
      StoredKeepsNoEmptyUser(sources, uid, name, nid);
      var wait, done := false, false;
      if uid in sources {
        if name in sources[uid] {
          var previous := sources[uid][name];
          if previous == nid {
            SameEntry(sources, uid, name);
            return;
          }
          sources := sources[uid := sources[uid][name := nid]];
          if id == previous {
            done := true;
          } else if id == nid {
            wait := true;
          }
        } else {
          sources := sources[uid := sources[uid][name := nid]];
          wait := id == nid;
        }
      } else {
        sources := sources[uid := map[name := nid]];
        wait := id == nid;
      }
      if wait {
        ownedSources := ownedSources + 1;
      }
      if done {
        ownedSources := ownedSources - 1;
      }
    }

    method DeleteLegacySource(uid: int, name: string, nid: string)
      requires Valid()
      modifies this
      ensures Valid() && sources == Deleted(old(sources), uid, name, nid)
    {
      DeleteBalances(sources, id, uid, name, nid);
      DeletedKeepsNoEmptyUser(sources, uid, name, nid);
      if uid !in sources || name !in sources[uid] || sources[uid][name] != nid {
        return;
      }
      if |sources[uid]| == 1 {
        sources := sources - {uid};
      } else {
        sources := sources[uid := sources[uid] - {name}];
      }
      if nid == id {
        ownedSources := ownedSources - 1;
      }
    }

    method DoStoreSource(uid: int, name: string, nid: string)
      requires Valid()
      modifies this, hints, Elements()
      ensures Valid()
      ensures sources == if hints == null then Stored(old(sources), uid, name, nid) else old(sources)
      ensures hints != null ==>
                && hints.hints == Put(old(hints.hints), hints.capacity, Key(uid, name), nid)
                && hints.revision == old(hints.revision) + 1
      ensures fresh(Elements() - old(Elements()))
    {
      if hints != null {
        hints.Store(uid, name, nid);
        return;
      }
      StoreLegacySource(uid, name, nid);
    }

    method DoDeleteSource(uid: int, name: string, nid: string)
      requires Valid()
      modifies this, hints
      ensures Valid()
      ensures sources == if hints == null then Deleted(old(sources), uid, name, nid) else old(sources)
      ensures hints != null ==>
                && hints.hints == Drop(old(hints.hints), Key(uid, name))
                && hints.revision == old(hints.revision) + 1
      ensures Elements() <= old(Elements())
    {
      if hints != null {
        hints.Invalidate(uid, name);
        return;
      }
      DeleteLegacySource(uid, name, nid);
    }

    /** Looking a user up never touches the owned entries when hints are on. */
    method LocateNode(uid: int, name: string, reply: Reply) returns (r: Result<string, LookupError>)
      requires Valid()
      modifies this, hints, Elements()
      ensures Valid()
      ensures hints != null ==> sources == old(sources)
      ensures reply.NoLocator? ==> r == Err(NotFoundLocator) && sources == old(sources)
      ensures !reply.NoLocator? ==>
                var known := if hints == null then old(Entry(sources, uid, name))
                             else old(SourceHints.Lookup(hints.hints, Key(uid, name)));
                && (known.Some? ==> r == Ok(known.value) && sources == old(sources))
                && (known.None? ==>
                      match reply
                      case Answered(node) =>
                        if node == "" then r == Err(NotFoundUserLocation) && sources == old(sources)
                        else r == Ok(node) && (hints == null ==> sources == Stored(old(sources), uid, name, node))
                      case _ => r == Err(LocatorError) && sources == old(sources))
      ensures hints != null ==>
                var key, was := Key(uid, name), old(hints.hints);
                hints.hints ==
                if reply.Answered? && reply.node != "" && SourceHints.Lookup(was, key).None?
                then Put(was, hints.capacity, key, reply.node)
                else if reply.NoLocator? then was else Touch(was, key)
      ensures hints != null ==> hints.revision == old(hints.revision)
    {
      if reply.NoLocator? {
        return Err(NotFoundLocator);
      }
      var seen := 0;
      if hints != null {
        var cached, found, revision := hints.Load(uid, name);
        if found {
          return Ok(cached);
        }
        seen := revision;
      } else if uid in sources && name in sources[uid] {
        return Ok(sources[uid][name]);
      }
      if reply.Failed? {
        return Err(LocatorError);
      }
      if reply.node == "" {
        return Err(NotFoundUserLocation);
      }
      if hints != null {
        hints.Fill(uid, name, reply.node, seen);
      } else {
        StoreLegacySource(uid, name, reply.node);
      }
      return Ok(reply.node);
    }

    /** `accepted` is whether the locator is present and took the binding. */
    method Bind(uid: int, name: string, nid: string, accepted: bool) returns (ok: bool)
      requires Valid()
      modifies this, hints, Elements()
      ensures Valid() && ok == accepted
      ensures sources == if ok then Bound(old(sources), id, hints != null, uid, name, nid) else old(sources)
      ensures hints != null ==>
                && hints.hints == (if ok then Put(old(hints.hints), hints.capacity, Key(uid, name), nid) else old(hints.hints))
                && hints.revision == old(hints.revision) + if ok then 1 else 0
    {
      if !accepted {
        return false;
      }
      if hints != null && nid == id {
        StoreLegacySource(uid, name, nid);
      }
      DoStoreSource(uid, name, nid);
      return true;
    }

    method Unbind(uid: int, name: string, nid: string, accepted: bool) returns (ok: bool)
      requires Valid()
      modifies this, hints
      ensures Valid() && ok == accepted
      ensures sources == if ok then Deleted(old(sources), uid, name, nid) else old(sources)
      ensures hints != null ==>
                && hints.hints == (if ok then Drop(old(hints.hints), Key(uid, name)) else old(hints.hints))
                && hints.revision == old(hints.revision) + if ok then 1 else 0
    {
      if !accepted {
        return false;
      }
      if hints != null {
        DeleteLegacySource(uid, name, nid);
      }
      DoDeleteSource(uid, name, nid);
      return true;
    }

    /** With hints on, a watch event costs a hint and never an owned entry. */
    method ApplySourceEvent(event: Event)
      requires Valid()
      modifies this, hints, Elements()
      ensures Valid()
      ensures hints != null ==> sources == old(sources) && ownedSources == old(ownedSources)
      ensures hints != null ==>
                var seen := event.kind == BindNode || event.kind == UnbindNode;
                && hints.hints == (if seen then Drop(old(hints.hints), Key(event.uid, event.name)) else old(hints.hints))
                && hints.revision == old(hints.revision) + if seen then 1 else 0
      ensures hints == null ==>
                sources == match event.kind
                           case BindNode => Stored(old(sources), event.uid, event.name, event.nid)
                           case UnbindNode => Deleted(old(sources), event.uid, event.name, event.nid)
                           case _ => old(sources)
    {
      if event.kind != BindNode && event.kind != UnbindNode {
        return;
      }
      if hints != null {
        hints.Invalidate(event.uid, event.name);
        return;
      }
      if event.kind == BindNode {
        DoStoreSource(event.uid, event.name, event.nid);
      } else {
        DoDeleteSource(event.uid, event.name, event.nid);
      }
    }
  }

  lemma SameEntry(s: Sources, uid: int, name: string)
    requires uid in s && name in s[uid]
    ensures Stored(s, uid, name, s[uid][name]) == s
  {
    assert s[uid][name := s[uid][name]] == s[uid];
  }
}
