/**
  The configuration tree: values addressed by dotted patterns, read and written along the
  path. A top-level key may itself contain dots, and then takes precedence over the path.
*/
module Config {
  import opened Prelude
  import Decimal

  datatype Value =
    | Map(entries: map<string, Value>)
    | List(items: seq<Value>)
    | Scalar(text: string)
    | Null

  type Values = map<string, Value>

  // --- Patterns ---

  /** The segments between the dots; there is always at least one. */
  function Split(pattern: string): (keys: seq<string>)
    ensures keys != []
    ensures forall i | 0 <= i < |keys| :: '.' !in keys[i]
  {
    if pattern == "" then [""]
    else
      var rest := Split(pattern[1..]);
      if pattern[0] == '.' then [""] + rest else [[pattern[0]] + rest[0]] + rest[1..]
  }

  function Join(keys: seq<string>): (s: string)
    ensures |keys| >= 2 ==> '.' in s
  {
    if keys == [] then "" else if |keys| == 1 then keys[0] else keys[0] + "." + Join(keys[1..])
  }

  lemma {:induction false} JoinSplit(pattern: string)
    ensures Join(Split(pattern)) == pattern
  {
    if pattern != "" {
      JoinSplit(pattern[1..]);
      var rest := Split(pattern[1..]);
      var keys := Split(pattern);
      assert pattern == [pattern[0]] + pattern[1..];
      if pattern[0] == '.' {
        assert keys[1..] == rest;
      } else if |rest| > 1 {
        assert keys[1..] == rest[1..];
      }
    }
  }

  /** The number of leading segments, at least two, whose join is a top-level key; the fewest from `i`. */
  function Merged(keys: seq<string>, values: Values, i: nat): (n: Option<nat>)
    requires 2 <= i
    ensures n.Some? ==> i <= n.value <= |keys| && Join(keys[..n.value]) in values
    decreases |keys| - i
  {
    if i > |keys| then None
    else if Join(keys[..i]) in values then Some(i)
    else Merged(keys, values, i + 1)
  }

  function Revised(keys: seq<string>, values: Values): seq<string> {
    match Merged(keys, values, 2)
    case None => keys
    case Some(n) => [Join(keys[..n])] + keys[n..]
  }

  /** `strconv.Atoi`: an optional sign and digits, within 64 bits. */
  function Atoi(s: string): Option<int> {
    var negative := s != "" && s[0] == '-';
    var digits := if s != "" && s[0] in {'-', '+'} then s[1..] else s;
    if digits == "" || !Decimal.Digits(digits) then None
    else
      var n := Decimal.Value(digits);
      if n > (if negative then Decimal.MAX_INT64 + 1 else Decimal.MAX_INT64) then None
      else Some(if negative then 0 - n else n)
  }

  /** Digits read as their value, with any sign, up to the 64-bit limits and no further. */
  lemma AtoiReadsDecimals(text: string)
    requires text != "" && Decimal.Digits(text)
    ensures var n := Decimal.Value(text);
            && Atoi(text) == Atoi("+" + text) == (if n <= Decimal.MAX_INT64 then Some(n) else None)
            && Atoi("-" + text) == (if n <= Decimal.MAX_INT64 + 1 then Some(0 - n) else None)
  {
    assert Decimal.IsDigit(text[0]);
    assert ("+" + text)[1..] == text && ("-" + text)[1..] == text;
  }

  /** A text without digits, or with another character than a sign in front of them, is no index. */
  lemma AtoiReadsNothingElse(text: string, i: nat)
    requires text in {"", "+", "-"} || (i < |text| && !Decimal.IsDigit(text[i]) && (i > 0 || text[i] !in {'+', '-'}))
    ensures Atoi(text) == None
  {
    if text !in {"", "+", "-"} {
      var digits := if text[0] in {'-', '+'} then text[1..] else text;
      var j := if text[0] in {'-', '+'} then i - 1 else i;
      assert digits[j] == text[i];
    }
  }

  // --- Reading ---

  datatype Answer = Found(value: Value) | Missing | Panics

  function Child(node: Value, key: string): Answer {
    match node
    case Map(entries) => if key in entries then Found(entries[key]) else Missing
    case List(items) =>
      (match Atoi(key)
       case None => Missing
       case Some(i) => if i >= |items| then Missing else if i < 0 then Panics else Found(items[i]))
    case _ => Missing
  }

  function Walk(node: Value, keys: seq<string>): Answer {
    if keys == [] then Found(node)
    else
      match Child(node, keys[0])
      case Found(child) => Walk(child, keys[1..])
      case other => other
  }

  function Get(values: Values, pattern: string): Answer {
    Walk(Map(values), Revised(Split(pattern), values))
  }

  /** An element is found by the decimal of its index; any other index is missing, and a negative one panics. */
  lemma ElementByDecimal(items: seq<Value>, text: string)
    requires text != "" && Decimal.Digits(text)
    ensures var n := Decimal.Value(text);
            && Child(List(items), text) == (if n < |items| && n <= Decimal.MAX_INT64 then Found(items[n]) else Missing)
            && (0 < n ==> Child(List(items), "-" + text) == if n <= Decimal.MAX_INT64 + 1 then Panics else Missing)
  {
    AtoiReadsDecimals(text);
  }

  /** The merge found is of the fewest leading segments, at least two, whose join is a top-level key. */
  lemma {:induction false} MergedIsFirst(keys: seq<string>, values: Values, i: nat, n: nat)
    requires 2 <= i <= n <= |keys| && Join(keys[..n]) in values
    requires forall m | i <= m < n :: Join(keys[..m]) !in values
    ensures Merged(keys, values, i) == Some(n)
    decreases n - i
  {
    if i < n {
      MergedIsFirst(keys, values, i + 1, n);
    }
  }

  lemma {:induction false} NothingMerged(keys: seq<string>, values: Values, i: nat)
    requires 2 <= i
    requires forall m | i <= m <= |keys| :: Join(keys[..m]) !in values
    ensures Merged(keys, values, i) == None
    decreases |keys| - i
  {
    if i <= |keys| {
      NothingMerged(keys, values, i + 1);
    }
  }

  /** A character put before a text that splits into `keys`. */
  function Before(c: char, keys: seq<string>): seq<string>
    requires keys != []
  {
    if c == '.' then [""] + keys else [[c] + keys[0]] + keys[1..]
  }

  lemma SplitBefore(c: char, text: string)
    ensures Split([c] + text) == Before(c, Split(text))
  {
    assert ([c] + text)[1..] == text;
  }

  lemma BeforeBoth(c: char, keys: seq<string>, more: seq<string>)
    requires keys != []
    ensures Before(c, keys + more) == Before(c, keys) + more
  {
    if c == '.' {
      assert [""] + (keys + more) == [""] + keys + more;
    } else {
      assert (keys + more)[1..] == keys[1..] + more;
    }
  }

  lemma {:induction false} SplitAtDot(head: string, rest: string)
    ensures Split(head + "." + rest) == Split(head) + Split(rest)
  {
    if head == "" {
      SplitBefore('.', rest);
      assert head + "." + rest == "." + rest;
    } else {
      var c, tail := head[0], head[1..];
      SplitAtDot(tail, rest);
      SplitBefore(c, tail);
      SplitBefore(c, tail + "." + rest);
      BeforeBoth(c, Split(tail), Split(rest));
      assert head == [c] + tail;
      assert head + "." + rest == [c] + (tail + "." + rest);
    }
  }

  /**
    A top-level key that contains dots takes precedence over the path it spells, if no shorter
    leading part with a dot in it is one: it is found by its own name, and what is under it by
    the name, a dot and the path from there.
  */
  lemma DottedKeyFound(values: Values, key: string, rest: string)
    requires key in values && |Split(key)| >= 2
    requires forall m | 2 <= m < |Split(key)| :: Join(Split(key)[..m]) !in values
    ensures Get(values, key) == Found(values[key])
    ensures Get(values, key + "." + rest) == Walk(values[key], Split(rest))
  {
    var head := Split(key);
    JoinSplit(key);
    assert head[..|head|] == head;
    MergedIsFirst(head, values, 2, |head|);
    assert Walk(values[key], []) == Found(values[key]);
    SplitAtDot(key, rest);
    var keys := head + Split(rest);
    assert forall m | 0 <= m <= |head| :: keys[..m] == head[..m];
    MergedIsFirst(keys, values, 2, |head|);
    assert Revised(keys, values)[1..] == Split(rest);
  }

  /** Without such a key the pattern is a path: its first segment names the top-level value. */
  lemma PlainPathFound(values: Values, pattern: string)
    requires forall m | 2 <= m <= |Split(pattern)| :: Join(Split(pattern)[..m]) !in values
    ensures var keys := Split(pattern);
            Get(values, pattern) == if keys[0] in values then Walk(values[keys[0]], keys[1..]) else Missing
  {
    NothingMerged(Split(pattern), values, 2);
  }

  // --- Writing ---

  datatype Failure = BadIndex | IndexOverflow | Panicked

  /** The longest slice of 16-byte interface values that 48 bits of address space hold; a longer one panics. */
  const MAX_PLACES: nat := 0x1000_0000_0000

  /** A list padded with nulls up to index `i`. */
  function Padded(items: seq<Value>, i: nat): (r: seq<Value>)
    ensures |r| == (if i < |items| then |items| else i + 1) && r[..|items|] == items
    ensures forall k | |items| <= k < |r| :: r[k] == Null
  {
    if i < |items| then items else items + seq(i + 1 - |items|, _ => Null)
  }

  /** The container the next segment needs: a list for an index, else a map. */
  function Rebuilt(next: string): Value {
    if Atoi(next).Some? then List([Null]) else Map(map[])
  }

  /**
    What a child becomes before the path goes on into it. A container of the right kind is
    kept, and a list too short for `reach` is padded up to it; anything else is replaced.
  */
  function Prepared(child: Answer, next: string, reach: int): Result<Value, Failure> {
    if child.Found? && child.value.Map? && Atoi(next).None? then Ok(child.value)
    else if child.Found? && child.value.List? && Atoi(next).Some? then
      if reach < |child.value.items| then Ok(child.value)
      else if reach >= MAX_PLACES then Err(Panicked)
      else Ok(List(Padded(child.value.items, reach)))
    else Ok(Rebuilt(next))
  }

  /** How far a child list is padded: to the next index under a map, but to its own index under a list. */
  function Reach(node: Value, key: string, next: string): int {
    match node
    case List(_) => if Atoi(key).Some? then Atoi(key).value else 0
    case _ => if Atoi(next).Some? then Atoi(next).value else 0
  }

  /** Whether a container takes a value under the key at all. */
  function Obstacle(node: Value, key: string): Option<Failure> {
    match node
    case List(items) =>
      (match Atoi(key)
       case None => Some(BadIndex)
       case Some(i) => if i >= |items| then Some(IndexOverflow) else if i < 0 then Some(Panicked) else None)
    case _ => None
  }

  /** Puts a child under a key that has no obstacle. */
  function With(node: Value, key: string, child: Value): Value
    requires Obstacle(node, key).None?
  {
    match node
    case Map(entries) => Map(entries[key := child])
    case List(items) => List(items[Atoi(key).value := child])
    case _ => node
  }

  function SetIn(node: Value, keys: seq<string>, value: Value): Result<Value, Failure>
    decreases |keys|
  {
    if keys == [] then Ok(value)
    else if Obstacle(node, keys[0]).Some? then Err(Obstacle(node, keys[0]).value)
    else if |keys| == 1 then Ok(With(node, keys[0], value))
    else
      match Prepared(Child(node, keys[0]), keys[1], Reach(node, keys[0], keys[1]))
      case Err(e) => Err(e)
      case Ok(child) =>
        match SetIn(child, keys[1..], value)
        case Err(e) => Err(e)
        case Ok(child') => Ok(With(node, keys[0], child'))
  }

  function Set(values: Values, pattern: string, value: Value): Result<Value, Failure> {
    SetIn(Map(values), Revised(Split(pattern), values), value)
  }

  // --- Set, then Get ---

  predicate Container(node: Value) {
    node.Map? || node.List?
  }

  lemma ChildOfWith(node: Value, key: string, child: Value)
    requires Container(node) && Obstacle(node, key).None?
    ensures Child(With(node, key, child), key) == Found(child)
  {
  }

  lemma PreparedIsContainer(child: Answer, next: string, reach: int)
    ensures Prepared(child, next, reach).Ok? ==> Container(Prepared(child, next, reach).value)
  {
  }

  /** Whatever was rebuilt or padded on the way, the path that was set leads to the value. */
  lemma {:induction false} WalkAfterSet(node: Value, keys: seq<string>, value: Value)
    requires (keys != [] ==> Container(node)) && SetIn(node, keys, value).Ok?
    ensures Walk(SetIn(node, keys, value).value, keys) == Found(value)
    decreases |keys|
  {
    if keys != [] {
      var node' := SetIn(node, keys, value).value;
      if |keys| == 1 {
        ChildOfWith(node, keys[0], value);
        assert Walk(value, keys[1..]) == Found(value);
      } else {
        var reach := Reach(node, keys[0], keys[1]);
        PreparedIsContainer(Child(node, keys[0]), keys[1], reach);
        var child := Prepared(Child(node, keys[0]), keys[1], reach).value;
        WalkAfterSet(child, keys[1..], value);
        ChildOfWith(node, keys[0], SetIn(child, keys[1..], value).value);
      }
    }
  }

  /** The top level gains at most the first key of the path, and only that key changes. */
  lemma TopLevel(values: Values, keys: seq<string>, value: Value)
    requires keys != [] && SetIn(Map(values), keys, value).Ok?
    ensures var r := SetIn(Map(values), keys, value).value;
            r.Map? && r.entries.Keys == values.Keys + {keys[0]} && forall k | k in values && k != keys[0] :: r.entries[k] == values[k]
  {
  }

  /** Rewriting a pattern looks at keys with dots only. */
  lemma {:induction false} MergedStable(keys: seq<string>, values: Values, values': Values, i: nat)
    requires 2 <= i
    requires forall k | '.' in k :: k in values <==> k in values'
    ensures Merged(keys, values, i) == Merged(keys, values', i)
    decreases |keys| - i
  {
    if i <= |keys| {
      assert '.' in Join(keys[..i]);
      MergedStable(keys, values, values', i + 1);
    }
  }

  /** A successful Set changes the rewriting of no pattern at all. */
  lemma RevisedStable(values: Values, pattern: string, value: Value, other: string)
    requires Set(values, pattern, value).Ok?
    ensures Set(values, pattern, value).value.Map?
    ensures Revised(Split(other), Set(values, pattern, value).value.entries) == Revised(Split(other), values)
  {
    var keys := Revised(Split(pattern), values);
    TopLevel(values, keys, value);
    assert '.' in keys[0] ==> keys[0] in values;
    MergedStable(Split(other), values, Set(values, pattern, value).value.entries, 2);
  }

  /** After a successful Set, Get of the same pattern finds the value. */
  lemma SetThenGet(values: Values, pattern: string, value: Value)
    requires Set(values, pattern, value).Ok?
    ensures Set(values, pattern, value).value.Map?
    ensures Get(Set(values, pattern, value).value.entries, pattern) == Found(value)
  {
    RevisedStable(values, pattern, value, pattern);
    WalkAfterSet(Map(values), Revised(Split(pattern), values), value);
  }

  // --- What a Set leaves alone ---

  /** Two segments that lead to different children of a container. */
  predicate Apart(node: Value, key: string, other: string) {
    match node
    case Map(_) => key != other
    case List(_) => Atoi(key) != Atoi(other)
    case _ => false
  }

  /** The other path leaves the one being set inside containers that the Set keeps as they are. */
  predicate Diverges(node: Value, keys: seq<string>, other: seq<string>) {
    && keys != [] && other != []
    && (|| Apart(node, keys[0], other[0])
        || (&& other[0] == keys[0] && |keys| > 1
            && var child := Child(node, keys[0]);
            && child.Found?
            && Prepared(child, keys[1], Reach(node, keys[0], keys[1])) == Ok(child.value)
            && Diverges(child.value, keys[1..], other[1..])))
  }

  lemma ApartIsKept(node: Value, key: string, child: Value, other: string)
    requires Obstacle(node, key).None? && Apart(node, key, other)
    ensures Child(With(node, key, child), other) == Child(node, other)
  {
  }

  /** A path that leaves the one being set within kept containers reads as before. */
  lemma {:induction false} DivergingKept(node: Value, keys: seq<string>, value: Value, other: seq<string>)
    requires SetIn(node, keys, value).Ok? && Diverges(node, keys, other)
    ensures Walk(SetIn(node, keys, value).value, other) == Walk(node, other)
    decreases |keys|
  {
    if Apart(node, keys[0], other[0]) {
      var child := Child(SetIn(node, keys, value).value, keys[0]);
      assert SetIn(node, keys, value).value == With(node, keys[0], child.value) by {
        if |keys| == 1 {
          ChildOfWith(node, keys[0], value);
        } else {
          var prepared := Prepared(Child(node, keys[0]), keys[1], Reach(node, keys[0], keys[1])).value;
          ChildOfWith(node, keys[0], SetIn(prepared, keys[1..], value).value);
        }
      }
      ApartIsKept(node, keys[0], child.value, other[0]);
    } else {
      var child := Child(node, keys[0]).value;
      DivergingKept(child, keys[1..], value, other[1..]);
      ChildOfWith(node, keys[0], SetIn(child, keys[1..], value).value);
    }
  }

  /** A pattern under another top-level key reads exactly as before. */
  lemma OtherKeysKept(values: Values, pattern: string, value: Value, other: string)
    requires Set(values, pattern, value).Ok?
    requires Revised(Split(other), values)[0] != Revised(Split(pattern), values)[0]
    ensures Set(values, pattern, value).value.Map?
    ensures Get(Set(values, pattern, value).value.entries, other) == Get(values, other)
  {
    RevisedStable(values, pattern, value, other);
    DivergingKept(Map(values), Revised(Split(pattern), values), value, Revised(Split(other), values));
  }

  /** No segment is an index other than zero. */
  predicate OnlyZeroes(keys: seq<string>) {
    forall j | 0 <= j < |keys| && Atoi(keys[j]).Some? :: Atoi(keys[j]).value == 0
  }

  lemma {:induction false} NewPathHoldsZeroes(keys: seq<string>, value: Value)
    requires keys != []
    ensures SetIn(Rebuilt(keys[0]), keys, value).Ok? <==> OnlyZeroes(keys)
  {
    var node, rest := Rebuilt(keys[0]), keys[1..];
    assert OnlyZeroes(keys) <==> OnlyZeroes([keys[0]]) && OnlyZeroes(rest) by {
      assert keys == [keys[0]] + rest;
    }
    if rest != [] && Obstacle(node, keys[0]).None? {
      NewPathHoldsZeroes(rest, value);
      assert Prepared(Child(node, keys[0]), keys[1], Reach(node, keys[0], keys[1])) == Ok(Rebuilt(keys[1]));
    }
  }

  /** What is under the key is not a container of the kind that the next segment needs. */
  predicate Replaces(node: Value, key: string, next: string) {
    var child := Child(node, key);
    !(child.Found? && (if Atoi(next).Some? then child.value.List? else child.value.Map?))
  }

  /**
    Every list made on the way has a single place. So from the first replaced container on, at
    any depth, setting succeeds exactly when every index that follows is zero.
  */
  lemma RebuiltListHoldsOne(node: Value, keys: seq<string>, value: Value)
    requires |keys| >= 2 && Obstacle(node, keys[0]).None? && Replaces(node, keys[0], keys[1])
    ensures SetIn(node, keys, value).Ok? <==> OnlyZeroes(keys[1..])
  {
    NewPathHoldsZeroes(keys[1..], value);
  }

  /** Setting the last segment: a map takes every key, a list the indexes it has. */
  lemma LastSegment(node: Value, key: string, value: Value)
    requires Container(node)
    ensures SetIn(node, [key], value) ==
            if node.Map? then Ok(Map(node.entries[key := value]))
            else if Atoi(key).None? then Err(BadIndex)
            else if Atoi(key).value >= |node.items| then Err(IndexOverflow)
            else if Atoi(key).value < 0 then Err(Panicked)
            else Ok(List(node.items[Atoi(key).value := value]))
  {
  }

  /** `longer` is `items` with `value` at `j`, and nulls in the places between. */
  predicate Extended(items: seq<Value>, longer: Value, size: int, j: int, value: Value) {
    && longer.List? && 0 <= j < |longer.items| == (if size < |items| then |items| else size)
    && longer.items[j] == value
    && forall k | 0 <= k < |longer.items| && k != j :: longer.items[k] == if k < |items| then items[k] else Null
  }

  lemma PaddedThenSet(items: seq<Value>, reach: nat, index: string, value: Value)
    requires Atoi(index).Some?
    ensures var j, r := Atoi(index).value, SetIn(List(Padded(items, reach)), [index], value);
            && (r.Ok? <==> 0 <= j && (j < |items| || j <= reach))
            && (r.Ok? ==> Extended(items, r.value, reach + 1, j, value))
            && (r.Err? ==> r.error == if j < 0 then Panicked else IndexOverflow)
  {
    var padded := Padded(items, reach);
    LastSegment(List(padded), index, value);
    assert forall k | 0 <= k < |items| :: padded[k] == padded[..|items|][k];
  }

  /**
    Under a map, a child list takes the indexes it has and every index a slice can have: it is
    padded to the next index. Any other index panics.
  */
  lemma ListUnderMapGrows(values: Values, key: string, index: string, value: Value)
    requires key in values && values[key].List? && Atoi(index).Some?
    ensures var j, r := Atoi(index).value, SetIn(Map(values), [key, index], value);
            && (r.Ok? <==> 0 <= j && (j < |values[key].items| || j < MAX_PLACES))
            && (r.Err? ==> r.error == Panicked)
            && (r.Ok? ==>
                  && r.value.Map? && key in r.value.entries && r.value == Map(values[key := r.value.entries[key]])
                  && Extended(values[key].items, r.value.entries[key], j + 1, j, value))
  {
    assert [key, index][1..] == [index];
    var j, items := Atoi(index).value, values[key].items;
    var next := Prepared(Child(Map(values), key), index, j);
    assert next == if j < |items| then Ok(values[key]) else if j < MAX_PLACES then Ok(List(Padded(items, j))) else Err(Panicked);
    LastSegment(values[key], index, value);
    if |items| <= j < MAX_PLACES {
      PaddedThenSet(items, j, index, value);
    }
  }

  /**
    Under a list, a child list that is shorter than its own index in the parent is padded to
    that index, if a slice can have it, and takes the indexes it has then.
  */
  lemma ListUnderListGrows(items: seq<Value>, key: string, index: string, value: Value)
    requires Atoi(key).Some? && Atoi(index).Some?
    requires 0 <= Atoi(key).value < |items| && items[Atoi(key).value].List?
    ensures var i, j, r := Atoi(key).value, Atoi(index).value, SetIn(List(items), [key, index], value);
            var inner := items[i].items;
            var size := if i < |inner| then |inner| else i + 1;
            && (r.Ok? <==> 0 <= j < size && (i < |inner| || i < MAX_PLACES))
            && (r.Err? ==> r.error == if j < 0 || (|inner| <= i && i >= MAX_PLACES) then Panicked else IndexOverflow)
            && (r.Ok? ==>
                  && r.value.List? && |r.value.items| == |items| && r.value == List(items[i := r.value.items[i]])
                  && Extended(inner, r.value.items[i], size, j, value))
  {
    assert [key, index][1..] == [index];
    var i, j := Atoi(key).value, Atoi(index).value;
    var inner := items[i].items;
    var next := Prepared(Child(List(items), key), index, i);
    assert next == if i < |inner| then Ok(items[i]) else if i < MAX_PLACES then Ok(List(Padded(inner, i))) else Err(Panicked);
    LastSegment(items[i], index, value);
    if |inner| <= i < MAX_PLACES {
      PaddedThenSet(inner, i, index, value);
    }
  }

  // --- Readers beside a store ---

  /**
    The two slots while stores, which a lock serialises, run beside readers, which take none.
    A store first moves the index and then writes the slot; a reader loads the index and then
    reads that slot. `stored` lists the trees stored so far.
  */
  datatype Slots = Slots(idx: nat, first: Values, second: Values, moved: bool, stored: seq<Values>)

  const UNUSED := Slots(0, map[], map[], false, [])

  datatype StoreStep = MoveIndex | WriteSlot(values: Values)

  /** The slot that index `idx` names. */
  function At(s: Slots, idx: nat): Values {
    if idx % 2 == 0 then s.first else s.second
  }

  function AfterStep(s: Slots, step: StoreStep): Slots {
    match step
    case MoveIndex => if s.moved then s else s.(idx := s.idx + 1, moved := true)
    case WriteSlot(values) =>
      if !s.moved then s
      else if s.idx % 2 == 0 then s.(first := values, moved := false, stored := s.stored + [values])
      else s.(second := values, moved := false, stored := s.stored + [values])
  }

  function AfterSteps(steps: seq<StoreStep>): Slots {
    if steps == [] then UNUSED else AfterStep(AfterSteps(steps[..|steps| - 1]), steps[|steps| - 1])
  }

  /** The `k`th tree stored, counted from one; a reader that comes before the first sees an empty one. */
  function Tree(stored: seq<Values>, k: nat): Values {
    if 1 <= k <= |stored| then stored[k - 1] else map[]
  }

  /** The last of `n` stores that went to the slot of index `idx`; zero when none did. */
  function Version(n: nat, idx: nat): nat {
    if n % 2 == idx % 2 then n else if n == 0 then 0 else n - 1
  }

  lemma {:induction false} SlotsHold(steps: seq<StoreStep>, idx: nat)
    ensures var s := AfterSteps(steps);
            && s.idx == |s.stored| + (if s.moved then 1 else 0)
            && At(s, idx) == Tree(s.stored, Version(|s.stored|, idx))
  {
    if steps != [] {
      SlotsHold(steps[..|steps| - 1], idx);
    }
  }

  lemma {:induction false} StoredGrows(steps: seq<StoreStep>, i: nat, j: nat)
    requires i <= j <= |steps|
    ensures AfterSteps(steps[..i]).stored <= AfterSteps(steps[..j]).stored
  {
    if i < j {
      StoredGrows(steps, i, j - 1);
      assert steps[..j][..j - 1] == steps[..j - 1];
    }
  }

  /** What a reader returns that loads the index after `i` steps and reads the slot after `j`. */
  function ReadBetween(steps: seq<StoreStep>, i: nat, j: nat): Values
    requires i <= j <= |steps|
  {
    At(AfterSteps(steps[..j]), AfterSteps(steps[..i]).idx)
  }

  /** The number of the tree it returns. */
  function VersionRead(steps: seq<StoreStep>, i: nat, j: nat): nat
    requires i <= j <= |steps|
  {
    Version(|AfterSteps(steps[..j]).stored|, AfterSteps(steps[..i]).idx)
  }

  /**
    Whatever stores run meanwhile, a reader returns a whole tree that was stored before it reads
    the slot: the last one or the one before it. That tree is older than the last one stored when
    the reader loaded the index exactly if it loaded the index between the two writes of a store
    and read the slot before the second.
  */
  lemma ReadersSee(steps: seq<StoreStep>, i: nat, j: nat)
    requires i <= j <= |steps|
    ensures var (a, b, v) := (AfterSteps(steps[..i]), AfterSteps(steps[..j]), VersionRead(steps, i, j));
            && ReadBetween(steps, i, j) == Tree(b.stored, v)
            && |b.stored| - 1 <= v <= |b.stored|
            && (v < |a.stored| <==> a.moved && a.stored == b.stored && a.stored != [])
  {
    SlotsHold(steps[..i], 0);
    SlotsHold(steps[..j], AfterSteps(steps[..i]).idx);
    StoredGrows(steps, i, j);
  }

  lemma {:induction false} MomentOf(steps: seq<StoreStep>, i: nat, j: nat, n: nat) returns (k: nat)
    requires i <= j <= |steps| && |AfterSteps(steps[..i]).stored| <= n <= |AfterSteps(steps[..j]).stored|
    ensures i <= k <= j && |AfterSteps(steps[..k]).stored| == n
  {
    if n == |AfterSteps(steps[..j]).stored| {
      k := j;
    } else {
      assert steps[..j][..j - 1] == steps[..j - 1];
      k := MomentOf(steps, i, j - 1, n);
    }
  }

  /** In every other case the read is atomic: at some moment of it, the tree returned was the last one stored. */
  lemma ReadIsAtomic(steps: seq<StoreStep>, i: nat, j: nat) returns (k: nat)
    requires i <= j <= |steps|
    requires var a := AfterSteps(steps[..i]);
             !(a.moved && a.stored == AfterSteps(steps[..j]).stored && a.stored != [])
    ensures i <= k <= j
    ensures var s := AfterSteps(steps[..k]); ReadBetween(steps, i, j) == Tree(s.stored, |s.stored|)
  {
    ReadersSee(steps, i, j);
    k := MomentOf(steps, i, j, VersionRead(steps, i, j));
    StoredGrows(steps, k, j);
  }

  /** Any store but the first lets a reader go back: one before it returns the last tree, the next one the tree before. */
  lemma ReaderGoesBack(steps: seq<StoreStep>)
    requires !AfterSteps(steps).moved && AfterSteps(steps).stored != []
    ensures var longer, n := steps + [MoveIndex], |AfterSteps(steps).stored|;
            && VersionRead(longer, |steps|, |steps|) == n
            && VersionRead(longer, |steps| + 1, |steps| + 1) == n - 1
  {
    var longer := steps + [MoveIndex];
    assert longer[..|steps|] == steps && longer[..|steps| + 1] == longer;
    SlotsHold(steps, 0);
  }

  // --- The configurator ---

  /** The tail from `from` moves down to position one. */
  method MoveDown(keys: array<string>, from: nat)
    requires 1 <= from <= keys.Length
    modifies keys
    ensures keys[..1] == old(keys[..1])
    ensures keys[1..1 + keys.Length - from] == old(keys[from..])
  {
    ghost var was := keys[..];
    for j := 0 to keys.Length - from
      invariant keys[..1] == was[..1]
      invariant keys[1..1 + j] == was[from..from + j]
      invariant keys[from + j..] == was[from + j..]
    {
      assert keys[from + j] == was[from + j];
      keys[1 + j] := keys[from + j];
    }
    assert was[from..from + (keys.Length - from)] == was[from..];
  }

  /**
    Rewrites the segments in place: the merged key moves to the front and the rest follows it.
    `n` is the length of the slice that is returned.
  */
  method ReviseKeys(keys: array<string>, values: Values) returns (n: nat)
    modifies keys
    ensures n <= keys.Length && keys[..n] == Revised(old(keys[..]), values)
  {
    ghost var was := keys[..];
    var i := 1;
    while i < keys.Length
      invariant 1 <= i && keys[..] == was
      invariant Merged(was, values, 2) == Merged(was, values, i + 1)
    {
      assert keys[..i + 1] == was[..i + 1];
      var key := Join(keys[..i + 1]);
      if key in values {
        keys[0] := key;
        MoveDown(keys, i + 1);
        n := keys.Length - i;
        assert keys[..n] == keys[..1] + keys[1..n];
        return;
      }
      i := i + 1;
    }
    n := keys.Length;
    assert keys[..n] == was;
  }

  /** A container on the path and the key under which the path went on. */
  datatype Crumb = Crumb(node: Value, key: string)

  /** What the root becomes when the place the path has reached becomes `below`. */
  function Plug(trail: seq<Crumb>, below: Result<Value, Failure>): Result<Value, Failure> {
    if trail == [] || below.Err? then below
    else
      var last := trail[|trail| - 1];
      Plug(trail[..|trail| - 1],
           if Obstacle(last.node, last.key).None? then Ok(With(last.node, last.key, below.value)) else Err(BadIndex))
  }

  lemma PlugOne(trail: seq<Crumb>, crumb: Crumb, below: Result<Value, Failure>)
    requires Obstacle(crumb.node, crumb.key).None?
    ensures Plug(trail + [crumb], below) ==
            Plug(trail, if below.Ok? then Ok(With(crumb.node, crumb.key, below.value)) else below)
  {
    assert (trail + [crumb])[..|trail|] == trail;
    if below.Err? {
      PlugErr(trail, below);
    }
  }

  lemma PlugErr(trail: seq<Crumb>, below: Result<Value, Failure>)
    requires below.Err?
    ensures Plug(trail, below) == below
  {
  }

  /** A Set in terms of the Set one level down. */
  lemma OneLevel(node: Value, keys: seq<string>, i: nat, value: Value)
    requires i + 1 < |keys| && Obstacle(node, keys[i]).None?
    ensures var next := Prepared(Child(node, keys[i]), keys[i + 1], Reach(node, keys[i], keys[i + 1]));
            SetIn(node, keys[i..], value) ==
            if next.Err? then next
            else
              var below := SetIn(next.value, keys[i + 1..], value);
              if below.Ok? then Ok(With(node, keys[i], below.value)) else below
  {
    assert keys[i..][1..] == keys[i + 1..];
  }

  /** Walks down the path, remembering the containers it passes, and puts the value at its end. */
  method SetAlong(root: Value, keys: seq<string>, value: Value) returns (r: Result<Value, Failure>)
    requires keys != []
    ensures r == SetIn(root, keys, value)
  {
    var node := root;
    var trail: seq<Crumb> := [];
    var i := 0;
    while true
      invariant 0 <= i < |keys|
      invariant Plug(trail, SetIn(node, keys[i..], value)) == SetIn(root, keys, value)
      decreases |keys| - i
    {
      var key := keys[i];
      if Obstacle(node, key).Some? {
        PlugErr(trail, SetIn(node, keys[i..], value));
        return Err(Obstacle(node, key).value);
      }
      if i == |keys| - 1 {
        return Plug(trail, Ok(With(node, key, value)));
      }
      var next := Prepared(Child(node, key), keys[i + 1], Reach(node, key, keys[i + 1]));
      OneLevel(node, keys, i, value);
      if next.Err? {
        PlugErr(trail, SetIn(node, keys[i..], value));
        return next;
      }
      PlugOne(trail, Crumb(node, key), SetIn(next.value, keys[i + 1..], value));
      trail := trail + [Crumb(node, key)];
      node := next.value;
      i := i + 1;
    }
  }

  class Configurator {
    var idx: nat
    /** Two slots; the index says which one readers see. */
    const slots: array<Values>

    ghost predicate Valid() {
      slots.Length == 2
    }

    function Load(): Values
      requires Valid()
      reads this, slots
    {
      slots[idx % 2]
    }

    constructor (values: Values)
      ensures Valid() && Load() == values && fresh(slots)
    {
      idx := 1;
      slots := new Values[2](i => if i == 1 then values else map[]);
    }

    method Store(values: Values)
      requires Valid()
      modifies this, slots
      ensures Load() == values
    {
      idx := idx + 1;
      slots[idx % 2] := values;
    }

    method Keys(pattern: string) returns (keys: seq<string>)
      requires Valid()
      ensures keys == Revised(Split(pattern), Load())
    {
      var segments := Split(pattern);
      var a := new string[|segments|](i requires 0 <= i < |segments| => segments[i]);
      assert a[..] == segments;
      var n := ReviseKeys(a, Load());
      keys := a[..n];
    }

    /** `doGet`; an empty tree answers at once. */
    method DoGet(pattern: string) returns (answer: Answer)
      requires Valid()
      ensures answer == Get(Load(), pattern)
    {
      if |Load()| == 0 {
        assert Load() == map[];
        EmptyTree(pattern);
        return Missing;
      }
      var keys := Keys(pattern);
      var node := Map(Load());
      for i := 0 to |keys|
        invariant Walk(node, keys[i..]) == Get(Load(), pattern)
      {
        var child := Child(node, keys[i]);
        assert keys[i..][1..] == keys[i + 1..];
        if !child.Found? {
          return child;
        }
        node := child.value;
      }
      return Found(node);
    }

    /** A pattern is there exactly when Get finds a value for it. */
    method DoHas(pattern: string) returns (found: bool, panics: bool)
      requires Valid()
      ensures found == Get(Load(), pattern).Found? && panics == Get(Load(), pattern).Panics?
    {
      var keys := Keys(pattern);
      var node := Map(Load());
      for i := 0 to |keys|
        invariant Walk(node, keys[i..]) == Get(Load(), pattern)
      {
        var child := Child(node, keys[i]);
        assert keys[i..][1..] == keys[i + 1..];
        if !child.Found? {
          return false, child.Panics?;
        }
        node := child.value;
      }
      return true, false;
    }

    /** A successful Set makes Get of the pattern find the value; a failed one changes nothing. */
    method SetValue(pattern: string, value: Value) returns (failure: Option<Failure>)
      requires Valid()
      modifies this, slots
      ensures failure.None? <==> Set(old(Load()), pattern, value).Ok?
      ensures failure.Some? ==> Load() == old(Load()) && failure == Some(Set(old(Load()), pattern, value).error)
      ensures failure.None? ==>
                Map(Load()) == Set(old(Load()), pattern, value).value && Get(Load(), pattern) == Found(value)
    {
      var keys := Keys(pattern);
      var r := SetAlong(Map(Load()), keys, value);
      if r.Err? {
        return Some(r.error);
      }
      SetThenGet(Load(), pattern, value);
      Store(r.value.entries);
      return None;
    }
  }

  lemma EmptyTree(pattern: string)
    ensures Get(map[], pattern) == Missing
  {
    var keys := Split(pattern);
    MergedInEmpty(keys, 2);
  }

  lemma {:induction false} MergedInEmpty(keys: seq<string>, i: nat)
    requires 2 <= i
    ensures Merged(keys, map[], i) == None
    decreases |keys| - i
  {
    if i <= |keys| {
      MergedInEmpty(keys, i + 1);
    }
  }
}
