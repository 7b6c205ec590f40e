/**
  The configuration tree in memory: nested maps and slices that a Set changes in place on a
  deep copy, while readers walk the tree that is live.

  Memory is a map from addresses to cells, so that sharing between the live tree, the copy and
  the value that a caller hands over can be spoken of. The trees of Config are what it means.
*/
module ConfigMemory {
  import opened Prelude
  import opened Config

  /** What a map entry or a slice element holds; maps and slices are held by address. */
  datatype Ref = Cell(addr: nat) | Text(text: string) | Nil

  datatype Contents = Table(entries: map<string, Ref>) | Row(items: seq<Ref>)

  datatype Memory = Memory(cells: map<nat, Contents>, next: nat)

  predicate Sane(m: Memory) {
    forall a | a in m.cells :: a < m.next
  }

  function Write(m: Memory, addr: nat, contents: Contents): Memory {
    m.(cells := m.cells[addr := contents])
  }

  /** The new cell is at the old `next`. */
  function Alloc(m: Memory, contents: Contents): Memory {
    Memory(m.cells[m.next := contents], m.next + 1)
  }

  // --- What memory means ---

  predicate Shows(m: Memory, r: Ref, v: Value)
    decreases v
  {
    match v
    case Scalar(text) => r == Text(text)
    case Null => r == Nil
    case Map(entries) =>
      && r.Cell? && r.addr in m.cells && m.cells[r.addr].Table?
      && m.cells[r.addr].entries.Keys == entries.Keys
      && forall k | k in entries :: Shows(m, m.cells[r.addr].entries[k], entries[k])
    case List(items) =>
      && r.Cell? && r.addr in m.cells && m.cells[r.addr].Row?
      && |m.cells[r.addr].items| == |items|
      && forall i | 0 <= i < |items| :: Shows(m, m.cells[r.addr].items[i], items[i])
  }

  /** The addresses a value lies at. */
  function Footprint(m: Memory, r: Ref, v: Value): set<nat>
    requires Shows(m, r, v)
    decreases v
  {
    match v
    case Scalar(_) => {}
    case Null => {}
    case Map(entries) =>
      {r.addr} + set k, a | k in entries && a in Footprint(m, m.cells[r.addr].entries[k], entries[k]) :: a
    case List(items) =>
      {r.addr} + set i, a | 0 <= i < |items| && a in Footprint(m, m.cells[r.addr].items[i], items[i]) :: a
  }

  /** No cell is reached in two ways, as after a deep copy. */
  predicate Unshared(m: Memory, r: Ref, v: Value)
    requires Shows(m, r, v)
    decreases v
  {
    match v
    case Scalar(_) => true
    case Null => true
    case Map(entries) =>
      var refs := m.cells[r.addr].entries;
      && (forall k | k in entries ::
            Unshared(m, refs[k], entries[k]) && r.addr !in Footprint(m, refs[k], entries[k]))
      && (forall k, l | k in entries && l in entries && k != l ::
            Footprint(m, refs[k], entries[k]) !! Footprint(m, refs[l], entries[l]))
    case List(items) =>
      var refs := m.cells[r.addr].items;
      && (forall i | 0 <= i < |items| ::
            Unshared(m, refs[i], items[i]) && r.addr !in Footprint(m, refs[i], items[i]))
      && (forall i, j | 0 <= i < |items| && 0 <= j < |items| && i != j ::
            Footprint(m, refs[i], items[i]) !! Footprint(m, refs[j], items[j]))
  }

  /** The two memories agree at every old address outside `changed`. */
  predicate Agree(m: Memory, m': Memory, changed: set<nat>) {
    forall a | a in m.cells && a !in changed :: a in m'.cells && m'.cells[a] == m.cells[a]
  }

  lemma {:induction false} FootprintIsStored(m: Memory, r: Ref, v: Value)
    requires Shows(m, r, v)
    ensures Footprint(m, r, v) <= m.cells.Keys
    decreases v
  {
    match v
    case Scalar(_) =>
    case Null =>
    case Map(entries) =>
      forall k | k in entries ensures Footprint(m, m.cells[r.addr].entries[k], entries[k]) <= m.cells.Keys {
        FootprintIsStored(m, m.cells[r.addr].entries[k], entries[k]);
      }
    case List(items) =>
      forall i | 0 <= i < |items| ensures Footprint(m, m.cells[r.addr].items[i], items[i]) <= m.cells.Keys {
        FootprintIsStored(m, m.cells[r.addr].items[i], items[i]);
      }
  }

  /** A value is not disturbed by changes elsewhere. */
  lemma {:induction false} Undisturbed(m: Memory, m': Memory, changed: set<nat>, r: Ref, v: Value)
    requires Shows(m, r, v) && Agree(m, m', changed) && Footprint(m, r, v) !! changed
    ensures Shows(m', r, v) && Footprint(m', r, v) == Footprint(m, r, v)
    ensures Unshared(m, r, v) ==> Unshared(m', r, v)
    decreases v
  {
    match v
    case Scalar(_) =>
    case Null =>
    case Map(entries) =>
      assert r.addr in Footprint(m, r, v);
      forall k | k in entries
        ensures && Shows(m', m.cells[r.addr].entries[k], entries[k])
                && Footprint(m', m.cells[r.addr].entries[k], entries[k]) == Footprint(m, m.cells[r.addr].entries[k], entries[k])
                && (Unshared(m, r, v) ==> Unshared(m', m.cells[r.addr].entries[k], entries[k]))
      {
        assert Footprint(m, m.cells[r.addr].entries[k], entries[k]) <= Footprint(m, r, v);
        Undisturbed(m, m', changed, m.cells[r.addr].entries[k], entries[k]);
      }
    case List(items) =>
      assert r.addr in Footprint(m, r, v);
      forall i | 0 <= i < |items|
        ensures && Shows(m', m.cells[r.addr].items[i], items[i])
                && Footprint(m', m.cells[r.addr].items[i], items[i]) == Footprint(m, m.cells[r.addr].items[i], items[i])
                && (Unshared(m, r, v) ==> Unshared(m', m.cells[r.addr].items[i], items[i]))
      {
        assert Footprint(m, m.cells[r.addr].items[i], items[i]) <= Footprint(m, r, v);
        Undisturbed(m, m', changed, m.cells[r.addr].items[i], items[i]);
      }
  }

  // --- One container ---

  function ChildRef(c: Contents, key: string): Option<Ref> {
    match c
    case Table(entries) => if key in entries then Some(entries[key]) else None
    case Row(items) =>
      (match Atoi(key)
       case None => None
       case Some(i) => if 0 <= i < |items| then Some(items[i]) else None)
  }

  /** Why a container takes nothing under the key, if it does not. */
  function Blocked(c: Contents, key: string): Option<Failure> {
    match c
    case Table(_) => None
    case Row(items) =>
      (match Atoi(key)
       case None => Some(BadIndex)
       case Some(i) => if i >= |items| then Some(IndexOverflow) else if i < 0 then Some(Panicked) else None)
  }

  function Put(c: Contents, key: string, r: Ref): Contents
    requires Blocked(c, key).None?
  {
    match c
    case Table(entries) => Table(entries[key := r])
    case Row(items) => Row(items[Atoi(key).value := r])
  }

  function ReachOf(c: Contents, key: string, next: string): int {
    match c
    case Row(_) => if Atoi(key).Some? then Atoi(key).value else 0
    case Table(_) => if Atoi(next).Some? then Atoi(next).value else 0
  }

  function PaddedRow(items: seq<Ref>, i: nat): seq<Ref> {
    if i < |items| then items else items + seq(i + 1 - |items|, _ => Nil)
  }

  /** The container the path goes on into: the child itself, a longer copy of a slice, or a new one. */
  function Ready(m: Memory, child: Option<Ref>, next: string, reach: int): Result<(Memory, nat), Failure> {
    var kept := child.Some? && child.value.Cell? && child.value.addr in m.cells;
    if kept && m.cells[child.value.addr].Table? && Atoi(next).None? then Ok((m, child.value.addr))
    else if kept && m.cells[child.value.addr].Row? && Atoi(next).Some? then
      var items := m.cells[child.value.addr].items;
      if reach < |items| then Ok((m, child.value.addr))
      else if reach >= MAX_PLACES then Err(Panicked)
      else Ok((Alloc(m, Row(PaddedRow(items, reach))), m.next))
    else Ok((Alloc(m, if Atoi(next).Some? then Row([Nil]) else Table(map[])), m.next))
  }

  /** A container in memory and its meaning agree on what is under a key. */
  lemma ChildMeaning(m: Memory, addr: nat, v: Value, key: string)
    requires Container(v) && Shows(m, Cell(addr), v) && Unshared(m, Cell(addr), v)
    ensures Blocked(m.cells[addr], key) == Obstacle(v, key)
    ensures Obstacle(v, key).None? ==>
              var (r, child) := (ChildRef(m.cells[addr], key), Child(v, key));
              && (r.Some? <==> child.Found?)
              && (child.Found? ==>
                    && Shows(m, r.value, child.value) && Unshared(m, r.value, child.value)
                    && Footprint(m, r.value, child.value) <= Footprint(m, Cell(addr), v) - {addr})
    ensures addr in Footprint(m, Cell(addr), v)
  {
  }

  lemma AllocAgrees(m: Memory, contents: Contents)
    requires Sane(m)
    ensures Sane(Alloc(m, contents)) && Agree(m, Alloc(m, contents), {})
  {
  }

  /** The elements of a slice lie where they lay after a new cell was made. */
  lemma ItemAfterAlloc(m: Memory, contents: Contents, r: Ref, items: seq<Value>, j: nat)
    requires Sane(m) && Shows(m, r, List(items)) && Unshared(m, r, List(items)) && j < |items|
    ensures var m', e := Alloc(m, contents), m.cells[r.addr].items[j];
            && Shows(m', e, items[j]) && Unshared(m', e, items[j])
            && Footprint(m', e, items[j]) == Footprint(m, e, items[j]) <= Footprint(m, r, List(items))
            && m.next !in Footprint(m, e, items[j])
  {
    AllocAgrees(m, contents);
    FootprintIsStored(m, r, List(items));
    Undisturbed(m, Alloc(m, contents), {}, m.cells[r.addr].items[j], items[j]);
  }

  /** What the elements of a padded slice are, as references and as values. */
  lemma PaddedItem(refs: seq<Ref>, items: seq<Value>, i: nat, j: nat)
    requires |refs| == |items| <= i && j <= i
    ensures |PaddedRow(refs, i)| == |Padded(items, i)| == i + 1
    ensures PaddedRow(refs, i)[j] == if j < |items| then refs[j] else Nil
    ensures Padded(items, i)[j] == if j < |items| then items[j] else Null
  {
    assert j < |items| ==> Padded(items, i)[j] == Padded(items, i)[..|items|][j];
  }

  /** A padded copy of a slice shows the padded list, and shares its elements with the old slice only. */
  lemma PaddedShows(m: Memory, r: Ref, items: seq<Value>, i: nat)
    requires Sane(m) && Shows(m, r, List(items)) && Unshared(m, r, List(items)) && i >= |items|
    ensures var m' := Alloc(m, Row(PaddedRow(m.cells[r.addr].items, i)));
            var (r', v') := (Cell(m.next), List(Padded(items, i)));
            && Shows(m', r', v') && Unshared(m', r', v')
            && Footprint(m', r', v') <= Footprint(m, r, List(items)) + {m.next}
  {
    var refs := m.cells[r.addr].items;
    var row, longer := PaddedRow(refs, i), Padded(items, i);
    var m' := Alloc(m, Row(row));
    forall j | 0 <= j < |longer|
      ensures && Shows(m', row[j], longer[j]) && Unshared(m', row[j], longer[j])
              && Footprint(m', row[j], longer[j]) <= Footprint(m, r, List(items))
              && m.next !in Footprint(m', row[j], longer[j])
              && (j < |items| ==> row[j] == refs[j] && longer[j] == items[j]
                                  && Footprint(m', row[j], longer[j]) == Footprint(m, refs[j], items[j]))
              && (j >= |items| ==> Footprint(m', row[j], longer[j]) == {})
    {
      PaddedItem(refs, items, i, j);
      if j < |items| {
        ItemAfterAlloc(m, Row(row), r, items, j);
      }
    }
  }

  /** What making the way ready yields, for the value `p` that `Prepared` asks for. */
  predicate ReadyFor(m: Memory, r: Option<Ref>, child: Answer, m1: Memory, a: nat, p: Value)
    requires r.Some? <==> child.Found?
    requires child.Found? ==> Shows(m, r.value, child.value)
  {
    && Container(p) && Sane(m1) && Agree(m, m1, {})
    && Shows(m1, Cell(a), p) && Unshared(m1, Cell(a), p)
    && Footprint(m1, Cell(a), p) <= (if child.Found? then Footprint(m, r.value, child.value) else {}) + {m.next}
  }

  lemma NewIsReady(m: Memory, r: Option<Ref>, child: Answer, next: string)
    requires Sane(m) && (r.Some? <==> child.Found?)
    requires child.Found? ==> Shows(m, r.value, child.value)
    ensures ReadyFor(m, r, child, Alloc(m, if Atoi(next).Some? then Row([Nil]) else Table(map[])), m.next, Rebuilt(next))
  {
    AllocAgrees(m, if Atoi(next).Some? then Row([Nil]) else Table(map[]));
  }

  lemma LongerIsReady(m: Memory, r: Ref, items: seq<Value>, i: nat)
    requires Sane(m) && Shows(m, r, List(items)) && Unshared(m, r, List(items)) && i >= |items|
    ensures ReadyFor(m, Some(r), Found(List(items)), Alloc(m, Row(PaddedRow(m.cells[r.addr].items, i))), m.next,
                     List(Padded(items, i)))
  {
    PaddedShows(m, r, items, i);
    AllocAgrees(m, Row(PaddedRow(m.cells[r.addr].items, i)));
  }

  /** Making the way ready does in memory what `Prepared` says, and changes no cell. */
  lemma ReadyMeaning(m: Memory, r: Option<Ref>, child: Answer, next: string, reach: int)
    requires Sane(m) && (r.Some? <==> child.Found?)
    requires child.Found? ==> Shows(m, r.value, child.value) && Unshared(m, r.value, child.value)
    ensures match Prepared(child, next, reach)
            case Err(e) => Ready(m, r, next, reach) == Err(e)
            case Ok(p) =>
              && Ready(m, r, next, reach).Ok?
              && ReadyFor(m, r, child, Ready(m, r, next, reach).value.0, Ready(m, r, next, reach).value.1, p)
  {
    if child.Found? && child.value.List? && Atoi(next).Some? {
      if |child.value.items| <= reach < MAX_PLACES {
        LongerIsReady(m, r.value, child.value.items, reach);
      }
    } else {
      NewIsReady(m, r, child, next);
    }
  }

  /** A container whose cell got a new child, while nothing else of it was disturbed, shows the new value. */
  lemma WithShows(m: Memory, m': Memory, changed: set<nat>, addr: nat, v: Value, key: string, r: Ref, w: Value)
    requires Container(v) && Shows(m, Cell(addr), v) && Unshared(m, Cell(addr), v) && Obstacle(v, key).None?
    requires Blocked(m.cells[addr], key).None?
    requires addr in m'.cells && m'.cells[addr] == Put(m.cells[addr], key, r) && Shows(m', r, w)
    requires Agree(m, m', changed)
    requires forall a | a in changed && a in Footprint(m, Cell(addr), v) ::
               a == addr || (Child(v, key).Found? && ChildRef(m.cells[addr], key).Some?
                             && Shows(m, ChildRef(m.cells[addr], key).value, Child(v, key).value)
                             && a in Footprint(m, ChildRef(m.cells[addr], key).value, Child(v, key).value))
    ensures Shows(m', Cell(addr), With(v, key, w))
  {
    match v
    case Map(entries) =>
      var refs := m.cells[addr].entries;
      forall k | k in entries && k != key ensures Shows(m', refs[k], entries[k]) {
        assert Footprint(m, refs[k], entries[k]) <= Footprint(m, Cell(addr), v);
        Undisturbed(m, m', changed, refs[k], entries[k]);
      }
    case List(items) =>
      var refs, i := m.cells[addr].items, Atoi(key).value;
      forall k | 0 <= k < |items| && k != i ensures Shows(m', refs[k], items[k]) {
        assert Footprint(m, refs[k], items[k]) <= Footprint(m, Cell(addr), v);
        Undisturbed(m, m', changed, refs[k], items[k]);
      }
  }

  // --- Along a path ---

  datatype Outcome = Outcome(memory: Memory, failure: Option<Failure>)

  /** A turn of the loop that is not the last: the container made ready, then put under the key. */
  datatype Turn = Stop(failure: Failure) | Go(ready: Memory, memory: Memory, child: nat)

  function TurnOf(m: Memory, addr: nat, key: string, next: string): Turn
    requires addr in m.cells
  {
    var c := m.cells[addr];
    if Blocked(c, key).Some? then Stop(Blocked(c, key).value)
    else
      match Ready(m, ChildRef(c, key), next, ReachOf(c, key, next))
      case Err(e) => Stop(e)
      case Ok((m1, child)) => Go(m1, Write(m1, addr, Put(c, key, Cell(child))), child)
  }

  function LastTurn(m: Memory, addr: nat, key: string, value: Ref): Outcome
    requires addr in m.cells
  {
    var c := m.cells[addr];
    if Blocked(c, key).Some? then Outcome(m, Blocked(c, key)) else Outcome(Write(m, addr, Put(c, key, value)), None)
  }

  /** The loop of `Set` from one container on; a failure leaves what was written so far. */
  function Descend(m: Memory, addr: nat, keys: seq<string>, value: Ref): Outcome
    requires keys != []
    decreases |keys|
  {
    if addr !in m.cells then Outcome(m, None)
    else if |keys| == 1 then LastTurn(m, addr, keys[0], value)
    else
      match TurnOf(m, addr, keys[0], keys[1])
      case Stop(e) => Outcome(m, Some(e))
      case Go(_, m', child) => Descend(m', child, keys[1..], value)
  }

  /** Every state of the memory during the loop, the first and the last included. */
  function Trace(m: Memory, addr: nat, keys: seq<string>, value: Ref): seq<Memory>
    requires keys != []
    decreases |keys|
  {
    if addr !in m.cells then [m]
    else if |keys| == 1 then [m, LastTurn(m, addr, keys[0], value).memory]
    else
      match TurnOf(m, addr, keys[0], keys[1])
      case Stop(_) => [m]
      case Go(m1, m', child) => [m, m1] + Trace(m', child, keys[1..], value)
  }

  lemma {:induction false} TraceEnds(m: Memory, addr: nat, keys: seq<string>, value: Ref)
    requires keys != []
    ensures var t := Trace(m, addr, keys, value); t != [] && t[|t| - 1] == Descend(m, addr, keys, value).memory
    decreases |keys|
  {
    if addr in m.cells && |keys| > 1 {
      var turn := TurnOf(m, addr, keys[0], keys[1]);
      if turn.Go? {
        TraceEnds(turn.memory, turn.child, keys[1..], value);
      }
    }
  }

  /** A tree at an address, of its own, that does not overlap the value to be set. */
  predicate Apart(m: Memory, addr: nat, v: Value, ref: Ref, value: Value) {
    && Sane(m) && Container(v)
    && Shows(m, Cell(addr), v) && Unshared(m, Cell(addr), v)
    && Shows(m, ref, value) && Footprint(m, ref, value) !! Footprint(m, Cell(addr), v)
  }

  /** One level down: the state before the loop's next turn. */
  predicate OneDown(m: Memory, m2: Memory, addr: nat, child: nat, v: Value, p: Value, key: string, ref: Ref, value: Value)
    requires Apart(m, addr, v, ref, value) && Obstacle(v, key).None? && Blocked(m.cells[addr], key).None?
  {
    && Apart(m2, child, p, ref, value) && Agree(m, m2, {addr})
    && Footprint(m2, ref, value) == Footprint(m, ref, value)
    && addr in m2.cells && m2.cells[addr] == Put(m.cells[addr], key, Cell(child))
    && addr !in Footprint(m2, Cell(child), p)
    && (forall a | a in Footprint(m2, Cell(child), p) && a in m.cells ::
          InChild(m, addr, v, key, a))
  }

  predicate InChild(m: Memory, addr: nat, v: Value, key: string, a: nat)
    requires addr in m.cells
  {
    && Child(v, key).Found? && ChildRef(m.cells[addr], key).Some?
    && Shows(m, ChildRef(m.cells[addr], key).value, Child(v, key).value)
    && a in Footprint(m, ChildRef(m.cells[addr], key).value, Child(v, key).value)
  }

  lemma GoDown(m: Memory, addr: nat, v: Value, key: string, next: string, ref: Ref, value: Value)
    requires Apart(m, addr, v, ref, value) && Obstacle(v, key).None?
    ensures Blocked(m.cells[addr], key).None?
    ensures var turn := TurnOf(m, addr, key, next);
            match Prepared(Child(v, key), next, Reach(v, key, next))
            case Err(e) => turn == Stop(e)
            case Ok(p) =>
              turn.Go? && Agree(m, turn.ready, {}) && OneDown(m, turn.memory, addr, turn.child, v, p, key, ref, value)
  {
    var c, child := m.cells[addr], Child(v, key);
    ChildMeaning(m, addr, v, key);
    var r, reach := ChildRef(c, key), ReachOf(c, key, next);
    assert reach == Reach(v, key, next);
    ReadyMeaning(m, r, child, next, reach);
    var prepared := Prepared(child, next, reach);
    if prepared.Ok? {
      var ready := Ready(m, r, next, reach).value;
      ReadyIsWritten(m, ready.0, addr, ready.1, v, prepared.value, key, ref, value);
    }
  }

  lemma ReadyIsWritten(m: Memory, m1: Memory, addr: nat, a: nat, v: Value, p: Value, key: string, ref: Ref, value: Value)
    requires Apart(m, addr, v, ref, value) && Obstacle(v, key).None? && Blocked(m.cells[addr], key).None?
    requires var (r, child) := (ChildRef(m.cells[addr], key), Child(v, key));
             && (r.Some? <==> child.Found?) && (child.Found? ==> Shows(m, r.value, child.value))
             && ReadyFor(m, r, child, m1, a, p)
    ensures OneDown(m, Write(m1, addr, Put(m.cells[addr], key, Cell(a))), addr, a, v, p, key, ref, value)
  {
    ChildMeaning(m, addr, v, key);
    Written(m, m1, addr, a, v, p, key, ref, value);
  }

  /** Writing one cell of a tree disturbs no value that lies elsewhere. */
  lemma WriteElsewhere(m1: Memory, addr: nat, contents: Contents, r: Ref, v: Value)
    requires Shows(m1, r, v) && addr !in Footprint(m1, r, v)
    ensures var m2 := Write(m1, addr, contents);
            Shows(m2, r, v) && Footprint(m2, r, v) == Footprint(m1, r, v) && (Unshared(m1, r, v) ==> Unshared(m2, r, v))
  {
    Undisturbed(m1, Write(m1, addr, contents), {addr}, r, v);
  }

  lemma Written(m: Memory, m1: Memory, addr: nat, a: nat, v: Value, p: Value, key: string, ref: Ref, value: Value)
    requires Apart(m, addr, v, ref, value) && Obstacle(v, key).None? && Blocked(m.cells[addr], key).None?
    requires Container(p) && Sane(m1) && Agree(m, m1, {}) && Shows(m1, Cell(a), p) && Unshared(m1, Cell(a), p)
    requires forall x | x in Footprint(m1, Cell(a), p) && x in m.cells ::
               InChild(m, addr, v, key, x) && x in Footprint(m, Cell(addr), v) && x != addr
    ensures OneDown(m, Write(m1, addr, Put(m.cells[addr], key, Cell(a))), addr, a, v, p, key, ref, value)
  {
    var contents := Put(m.cells[addr], key, Cell(a));
    FootprintIsStored(m, ref, value);
    assert addr in Footprint(m, Cell(addr), v);
    Undisturbed(m, m1, {}, ref, value);
    WriteElsewhere(m1, addr, contents, ref, value);
    WriteElsewhere(m1, addr, contents, Cell(a), p);
  }

  /** What is outside the child's tree, and not the parent's cell, is outside the parent's tree. */
  lemma AgreeUp(m: Memory, m2: Memory, x: Memory, addr: nat, child: nat, v: Value, p: Value, key: string, ref: Ref, value: Value)
    requires Apart(m, addr, v, ref, value) && Obstacle(v, key).None? && Blocked(m.cells[addr], key).None?
    requires OneDown(m, m2, addr, child, v, p, key, ref, value) && Agree(m2, x, Footprint(m2, Cell(child), p))
    ensures Agree(m, x, Footprint(m, Cell(addr), v))
  {
    ChildMeaning(m, addr, v, key);
    forall a | a in m.cells && a !in Footprint(m, Cell(addr), v) ensures a in x.cells && x.cells[a] == m.cells[a] {
      assert a != addr && a in m2.cells && m2.cells[a] == m.cells[a];
      assert !InChild(m, addr, v, key, a);
    }
  }

  lemma LastTurnFrames(m: Memory, addr: nat, v: Value, key: string, r: Ref)
    requires Container(v) && Shows(m, Cell(addr), v) && Unshared(m, Cell(addr), v)
    ensures Agree(m, LastTurn(m, addr, key, r).memory, Footprint(m, Cell(addr), v))
  {
    ChildMeaning(m, addr, v, key);
  }

  /** Where the path can go on, the turn goes on; where it cannot, the turn stops for the same reason. */
  function Down(v: Value, key: string, next: string): Result<Value, Failure> {
    if Obstacle(v, key).Some? then Err(Obstacle(v, key).value) else Prepared(Child(v, key), next, Reach(v, key, next))
  }

  lemma TurnMeaning(m: Memory, addr: nat, v: Value, key: string, next: string, ref: Ref, value: Value)
    requires Apart(m, addr, v, ref, value)
    ensures var turn := TurnOf(m, addr, key, next);
            match Down(v, key, next)
            case Err(e) => turn == Stop(e)
            case Ok(p) =>
              && turn.Go? && Blocked(m.cells[addr], key).None? && Agree(m, turn.ready, {})
              && OneDown(m, turn.memory, addr, turn.child, v, p, key, ref, value)
  {
    ChildMeaning(m, addr, v, key);
    if Obstacle(v, key).None? {
      GoDown(m, addr, v, key, next, ref, value);
    }
  }

  /** At every moment of the loop, only the tree it works on has changed. */
  lemma {:induction false} LoopFrames(m: Memory, addr: nat, v: Value, keys: seq<string>, ref: Ref, value: Value, x: Memory)
    requires Apart(m, addr, v, ref, value) && keys != [] && x in Trace(m, addr, keys, ref)
    ensures Agree(m, x, Footprint(m, Cell(addr), v))
    decreases |keys|
  {
    if |keys| == 1 {
      LastTurnFrames(m, addr, v, keys[0], ref);
    } else {
      TurnMeaning(m, addr, v, keys[0], keys[1], ref, value);
      var turn := TurnOf(m, addr, keys[0], keys[1]);
      if turn.Go? && x !in [m, turn.ready] {
        var p := Down(v, keys[0], keys[1]).value;
        LoopFrames(turn.memory, turn.child, p, keys[1..], ref, value, x);
        AgreeUp(m, turn.memory, x, addr, turn.child, v, p, keys[0], ref, value);
      }
    }
  }

  // --- The loop means the Set ---

  lemma {:induction false} SameFailure(v: Value, keys: seq<string>, value: Value, value': Value)
    ensures SetIn(v, keys, value).Ok? <==> SetIn(v, keys, value').Ok?
    decreases |keys|
  {
    if |keys| > 1 && Down(v, keys[0], keys[1]).Ok? {
      SameFailure(Down(v, keys[0], keys[1]).value, keys[1..], value, value');
    }
  }

  function Lifted(v: Value, key: string, below: Result<Value, Failure>): Result<Value, Failure>
    requires Obstacle(v, key).None?
  {
    if below.Ok? then Ok(With(v, key, below.value)) else below
  }

  /** A Set in terms of the Set one level down. */
  lemma SetDown(v: Value, keys: seq<string>, value: Value)
    requires |keys| > 1
    ensures var p, r := Down(v, keys[0], keys[1]), SetIn(v, keys, value);
            && (p.Err? ==> r == p)
            && (p.Ok? ==> Obstacle(v, keys[0]).None? && r == Lifted(v, keys[0], SetIn(p.value, keys[1..], value)))
  {
  }

  function FailureOf<T>(r: Result<T, Failure>): Option<Failure> {
    match r
    case Ok(_) => None
    case Err(e) => Some(e)
  }

  /** The loop fails exactly when the Set does, and for the same reason. */
  lemma {:induction false} LoopFails(m: Memory, addr: nat, v: Value, keys: seq<string>, ref: Ref, value: Value)
    requires Apart(m, addr, v, ref, value) && keys != []
    ensures Descend(m, addr, keys, ref).failure == FailureOf(SetIn(v, keys, value))
    decreases |keys|
  {
    if |keys| == 1 {
      ChildMeaning(m, addr, v, keys[0]);
    } else {
      TurnMeaning(m, addr, v, keys[0], keys[1], ref, value);
      SetDown(v, keys, value);
      var turn := TurnOf(m, addr, keys[0], keys[1]);
      if turn.Go? {
        LoopFails(turn.memory, turn.child, Down(v, keys[0], keys[1]).value, keys[1..], ref, value);
      }
    }
  }

  lemma ShowsUp(m: Memory, m2: Memory, end: Memory, m': Memory, addr: nat, child: nat, v: Value, p: Value, key: string,
                ref: Ref, value: Value, w: Value)
    requires Apart(m, addr, v, ref, value) && Obstacle(v, key).None? && Blocked(m.cells[addr], key).None?
    requires OneDown(m, m2, addr, child, v, p, key, ref, value) && Agree(m2, end, Footprint(m2, Cell(child), p))
    requires Agree(end, m', Footprint(m, ref, value)) && Shows(m', Cell(child), w)
    ensures Shows(m', Cell(addr), With(v, key, w))
  {
    var changed := {addr} + Footprint(m2, Cell(child), p) + Footprint(m, ref, value);
    FootprintIsStored(m, Cell(addr), v);
    assert addr in Footprint(m, Cell(addr), v);
    forall a | a in m.cells && a !in changed ensures a in m'.cells && m'.cells[a] == m.cells[a] {
      assert a in m2.cells && m2.cells[a] == m.cells[a];
    }
    forall a | a in changed && a in Footprint(m, Cell(addr), v) && a != addr ensures InChild(m, addr, v, key, a) {
      assert a in Footprint(m2, Cell(child), p) && a in m.cells;
    }
    assert addr in end.cells && end.cells[addr] == m2.cells[addr];
    WithShows(m, m', changed, addr, v, key, Cell(child), w);
  }

  /**
    A successful loop leaves, at the address it started from, what the Set says: of the value that
    lies at `ref` now, or in any later memory `m'` in which only that value has changed.
  */
  lemma {:induction false} LoopShows(m: Memory, addr: nat, v: Value, keys: seq<string>, ref: Ref, value: Value,
                                     m': Memory, value': Value)
    requires Apart(m, addr, v, ref, value) && keys != [] && SetIn(v, keys, value).Ok?
    requires Agree(Descend(m, addr, keys, ref).memory, m', Footprint(m, ref, value)) && Shows(m', ref, value')
    ensures SetIn(v, keys, value').Ok? && Shows(m', Cell(addr), SetIn(v, keys, value').value)
    decreases |keys|
  {
    SameFailure(v, keys, value, value');
    if |keys| == 1 {
      ChildMeaning(m, addr, v, keys[0]);
      FootprintIsStored(m, Cell(addr), v);
      var end := Descend(m, addr, keys, ref).memory;
      assert addr in end.cells && end.cells[addr] == Put(m.cells[addr], keys[0], ref);
      WithShows(m, m', {addr} + Footprint(m, ref, value), addr, v, keys[0], ref, value');
    } else {
      TurnMeaning(m, addr, v, keys[0], keys[1], ref, value);
      SetDown(v, keys, value);
      SetDown(v, keys, value');
      var turn, p := TurnOf(m, addr, keys[0], keys[1]), Down(v, keys[0], keys[1]).value;
      LoopShows(turn.memory, turn.child, p, keys[1..], ref, value, m', value');
      var end := Descend(turn.memory, turn.child, keys[1..], ref).memory;
      TraceEnds(turn.memory, turn.child, keys[1..], ref);
      LoopFrames(turn.memory, turn.child, p, keys[1..], ref, value, end);
      ShowsUp(m, turn.memory, end, m', addr, turn.child, v, p, keys[0], ref, value, SetIn(p, keys[1..], value').value);
    }
  }

  // --- What a Set promises ---

  /** The live tree, a deep copy of it, and a value from a caller, which may be part of the live tree. */
  predicate Copied(m: Memory, live: nat, copy: nat, values: Values, ref: Ref, value: Value) {
    && Apart(m, copy, Map(values), ref, value)
    && Shows(m, Cell(live), Map(values)) && Footprint(m, Cell(live), Map(values)) !! Footprint(m, Cell(copy), Map(values))
  }

  /** At every moment of a Set, failed or not, a reader of the live tree finds it whole and unchanged. */
  lemma ReadersUndisturbed(m: Memory, live: nat, copy: nat, values: Values, keys: seq<string>, ref: Ref, value: Value, x: Memory)
    requires Copied(m, live, copy, values, ref, value) && keys != [] && x in Trace(m, copy, keys, ref)
    ensures Shows(x, Cell(live), Map(values)) && Shows(x, ref, value)
  {
    LoopFrames(m, copy, Map(values), keys, ref, value, x);
    Undisturbed(m, x, Footprint(m, Cell(copy), Map(values)), Cell(live), Map(values));
    Undisturbed(m, x, Footprint(m, Cell(copy), Map(values)), ref, value);
  }

  /**
    Setting a pattern in place on the copy fails exactly when the Set on values does, with the
    same error; otherwise the copy has become the tree that the Set describes.
  */
  lemma SetInPlace(m: Memory, live: nat, copy: nat, values: Values, pattern: string, ref: Ref, value: Value)
    requires Copied(m, live, copy, values, ref, value)
    ensures var o := Descend(m, copy, Revised(Split(pattern), values), ref);
            && o.failure == FailureOf(Set(values, pattern, value))
            && (o.failure.None? ==> Shows(o.memory, Cell(copy), Set(values, pattern, value).value))
  {
    var keys := Revised(Split(pattern), values);
    var end := Descend(m, copy, keys, ref).memory;
    LoopFails(m, copy, Map(values), keys, ref, value);
    TraceEnds(m, copy, keys, ref);
    ReadersUndisturbed(m, live, copy, values, keys, ref, value, end);
    if Set(values, pattern, value).Ok? {
      LoopShows(m, copy, Map(values), keys, ref, value, end, value);
    }
  }

  /**
    The value is stored by reference: whatever its owner makes of it later, the stored tree is the
    one that setting the new value would have given, and Get of the pattern finds the new value.
  */
  lemma OwnerKeepsHold(m: Memory, live: nat, copy: nat, values: Values, pattern: string, ref: Ref, value: Value,
                       m': Memory, value': Value)
    requires Copied(m, live, copy, values, ref, value) && Set(values, pattern, value).Ok?
    requires Agree(Descend(m, copy, Revised(Split(pattern), values), ref).memory, m', Footprint(m, ref, value))
    requires Shows(m', ref, value')
    ensures Set(values, pattern, value').Ok? && Set(values, pattern, value').value.Map?
    ensures Shows(m', Cell(copy), Set(values, pattern, value').value)
    ensures Get(Set(values, pattern, value').value.entries, pattern) == Found(value')
  {
    LoopShows(m, copy, Map(values), Revised(Split(pattern), values), ref, value, m', value');
    SetThenGet(values, pattern, value');
  }

  class Arena {
    var memory: Memory

    constructor (memory: Memory)
      ensures this.memory == memory
    {
      this.memory := memory;
    }

    /** The loop of `Set`, changing maps and slices as it goes down; a node that is neither is passed over. */
    method SetLoop(root: nat, keys: seq<string>, value: Ref) returns (failure: Option<Failure>)
      requires keys != []
      modifies this
      ensures Outcome(memory, failure) == Descend(old(memory), root, keys, value)
    {
      var node, i := root, 0;
      while i < |keys|
        invariant 0 <= i < |keys|
        invariant Descend(memory, node, keys[i..], value) == Descend(old(memory), root, keys, value)
        decreases |keys| - i
      {
        if node !in memory.cells {
          return None;
        }
        var c, key := memory.cells[node], keys[i];
        if Blocked(c, key).Some? {
          return Blocked(c, key);
        }
        if i == |keys| - 1 {
          memory := Write(memory, node, Put(c, key, value));
          return None;
        }
        var ready := Ready(memory, ChildRef(c, key), keys[i + 1], ReachOf(c, key, keys[i + 1]));
        if ready.Err? {
          return Some(ready.error);
        }
        assert keys[i..][1..] == keys[i + 1..];
        memory := Write(ready.value.0, node, Put(c, key, Cell(ready.value.1)));
        node, i := ready.value.1, i + 1;
      }
    }
  }
}
