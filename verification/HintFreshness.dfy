/**
  A Gate in front of the authoritative locator: lookups that load a revision, read the
  locator and fill the cache run beside locator changes, their watch events and further
  invalidations, in any order.
*/
module HintFreshness {
  import opened Prelude
  import opened SourceHints

  /** A lookup that missed the cache: before and after its locator read. */
  datatype Lookup =
    | Missed(key: Key, seen: nat)
    | Fetched(key: Key, seen: nat, node: string, at: nat)

  /** `locator`, `pending` and the times are the rest of the world; a Gate sees only `hints` and `revision`. */
  datatype Gate = Gate(
    hints: Hints,
    revision: nat,
    lookups: map<nat, Lookup>,
    locator: map<Key, string>,
    pending: multiset<Key>,
    clock: nat,
    readAt: map<Key, nat>,
    invalidAt: map<Key, nat>,
    changedAt: map<Key, nat>)

  datatype Step =
    | Begin(call: nat, key: Key)
    | Fetch(call: nat)
    | Finish(call: nat)
    | Change(key: Key, node: string)
    | ApplyEvent(key: Key)
    | Forget(key: Key)

  const START := Gate([], 0, map[], map[], multiset{}, 1, map[], map[], map[])

  function Time(times: map<Key, nat>, key: Key): nat {
    if key in times then times[key] else 0
  }

  /** The locator's answer; the empty string when the user is bound nowhere. */
  function Located(locator: map<Key, string>, key: Key): string {
    if key in locator then locator[key] else ""
  }

  predicate Enabled(g: Gate, step: Step) {
    match step
    case Begin(call, _) => call !in g.lookups
    case Fetch(call) => call in g.lookups && g.lookups[call].Missed?
    case Finish(call) => call in g.lookups && g.lookups[call].Fetched?
    case Change(_, _) => true
    case ApplyEvent(key) => key in g.pending
    case Forget(_) => true
  }

  function DoBegin(g: Gate, call: nat, key: Key): Gate {
    g.(hints := Touch(g.hints, key),
       lookups := if SourceHints.Lookup(g.hints, key).Some? then g.lookups
                  else g.lookups[call := Missed(key, g.revision)])
  }

  function DoFetch(g: Gate, call: nat): Gate
    requires Enabled(g, Fetch(call))
  {
    var l := g.lookups[call];
    g.(lookups := g.lookups[call := Fetched(l.key, l.seen, Located(g.locator, l.key), g.clock)])
  }

  /** `fill`: only under the revision of the load; a missing location is never filled. */
  function DoFinish(g: Gate, capacity: nat, call: nat): Gate
    requires Enabled(g, Finish(call))
  {
    var l := g.lookups[call];
    var g' := g.(lookups := g.lookups - {call});
    if l.node == "" || l.seen != g.revision then g'
    else g'.(hints := Put(g.hints, capacity, l.key, l.node), readAt := g.readAt[l.key := l.at])
  }

  /** A bind, or an unbind when `node` is empty; its event is now on its way. */
  function DoChange(g: Gate, key: Key, node: string): Gate {
    g.(locator := if node == "" then g.locator - {key} else g.locator[key := node],
       pending := g.pending + multiset{key},
       changedAt := g.changedAt[key := g.clock])
  }

  function DoInvalidate(g: Gate, key: Key): Gate {
    g.(hints := Drop(g.hints, key), revision := g.revision + 1, invalidAt := g.invalidAt[key := g.clock])
  }

  function Next(g: Gate, capacity: nat, step: Step): Gate {
    if !Enabled(g, step) then g
    else
      var g' :=
        match step
        case Begin(call, key) => DoBegin(g, call, key)
        case Fetch(call) => DoFetch(g, call)
        case Finish(call) => DoFinish(g, capacity, call)
        case Change(key, node) => DoChange(g, key, node)
        case ApplyEvent(key) => DoInvalidate(g, key).(pending := g.pending - multiset{key})
        case Forget(key) => DoInvalidate(g, key);
      g'.(clock := g.clock + 1)
  }

  function Run(capacity: nat, steps: seq<Step>): Gate {
    if steps == [] then START else Next(Run(capacity, steps[..|steps| - 1]), capacity, steps[|steps| - 1])
  }

  // --- The invariant ---

  /** A cached hint was read after the last invalidation, and is current unless the key changed since. */
  predicate KeyInv(g: Gate, key: Key) {
    && Time(g.changedAt, key) < g.clock && Time(g.invalidAt, key) < g.clock
    && (key !in g.pending ==> Time(g.changedAt, key) <= Time(g.invalidAt, key))
    && (SourceHints.Lookup(g.hints, key).Some? ==>
          && SourceHints.Lookup(g.hints, key).value != ""
          && Time(g.invalidAt, key) < Time(g.readAt, key) < g.clock
          && (Time(g.changedAt, key) < Time(g.readAt, key) ==>
                SourceHints.Lookup(g.hints, key).value == Located(g.locator, key)))
  }

  predicate LookupInv(g: Gate, l: Lookup) {
    && l.seen <= g.revision
    && (l.Fetched? ==>
          && l.at < g.clock
          && (l.seen == g.revision ==> Time(g.invalidAt, l.key) < l.at)
          && (Time(g.changedAt, l.key) < l.at ==> l.node == Located(g.locator, l.key)))
  }

  ghost predicate Inv(g: Gate, capacity: nat) {
    && DistinctKeys(g.hints) && |g.hints| <= capacity
    && (forall key :: KeyInv(g, key))
    && (forall call | call in g.lookups :: LookupInv(g, g.lookups[call]))
  }

  lemma FinishKeepsKey(g: Gate, capacity: nat, call: nat, key: Key)
    requires Inv(g, capacity) && 0 < capacity && Enabled(g, Finish(call))
    ensures KeyInv(Next(g, capacity, Finish(call)), key)
  {
    assert KeyInv(g, key);
    var l := g.lookups[call];
    assert LookupInv(g, l);
    if l.node != "" {
      PutMeaning(g.hints, capacity, l.key, l.node, key);
    }
  }

  lemma BeginKeepsKey(g: Gate, capacity: nat, call: nat, k: Key, key: Key)
    requires Inv(g, capacity) && Enabled(g, Begin(call, k))
    ensures KeyInv(Next(g, capacity, Begin(call, k)), key)
  {
    assert KeyInv(g, key);
    TouchMeaning(g.hints, k, key);
  }

  lemma InvalidateKeepsKey(g: Gate, capacity: nat, k: Key, key: Key)
    requires Inv(g, capacity)
    ensures KeyInv(Next(g, capacity, Forget(k)), key)
    ensures k in g.pending ==> KeyInv(Next(g, capacity, ApplyEvent(k)), key)
  {
    assert KeyInv(g, key);
    DropMeaning(g.hints, k, key);
  }

  lemma ChangeKeepsKey(g: Gate, capacity: nat, k: Key, node: string, key: Key)
    requires KeyInv(g, key)
    ensures KeyInv(Next(g, capacity, Change(k, node)), key)
  {
    if k == key {
      assert Time(DoChange(g, k, node).changedAt, key) == g.clock;
    }
  }

  lemma KeyKept(g: Gate, capacity: nat, step: Step, key: Key)
    requires Inv(g, capacity) && 0 < capacity && Enabled(g, step)
    ensures KeyInv(Next(g, capacity, step), key)
  {
    match step
    case Begin(call, k) => BeginKeepsKey(g, capacity, call, k, key);
    case Fetch(_) => assert KeyInv(g, key);
    case Finish(call) => FinishKeepsKey(g, capacity, call, key);
    case Change(k, node) =>
      assert KeyInv(g, key);
      ChangeKeepsKey(g, capacity, k, node, key);
    case ApplyEvent(k) => InvalidateKeepsKey(g, capacity, k, key);
    case Forget(k) => InvalidateKeepsKey(g, capacity, k, key);
  }

  /** What a step may do without disturbing a lookup it does not belong to. */
  predicate Gentle(g: Gate, g': Gate, key: Key) {
    && g.revision <= g'.revision && g.clock <= g'.clock
    && (g'.revision == g.revision ==> g'.invalidAt == g.invalidAt)
    && (|| (Time(g'.changedAt, key) == Time(g.changedAt, key) && Located(g'.locator, key) == Located(g.locator, key))
        || Time(g'.changedAt, key) >= g.clock)
  }

  lemma StepIsGentle(g: Gate, capacity: nat, step: Step, key: Key)
    requires Enabled(g, step)
    ensures Gentle(g, Next(g, capacity, step), key)
  {
    match step
    case Change(k, node) => assert Gentle(g, DoChange(g, k, node), key);
    case _ =>
  }

  lemma GentleKeepsLookup(g: Gate, g': Gate, l: Lookup)
    requires LookupInv(g, l) && Gentle(g, g', l.key)
    ensures LookupInv(g', l)
  {
  }

  lemma FetchKeepsLookup(g: Gate, capacity: nat, call: nat)
    requires Inv(g, capacity) && Enabled(g, Fetch(call))
    ensures LookupInv(Next(g, capacity, Fetch(call)), DoFetch(g, call).lookups[call])
  {
    assert LookupInv(g, g.lookups[call]);
    assert KeyInv(g, g.lookups[call].key);
  }

  lemma LookupsStay(g: Gate, capacity: nat, step: Step, call: nat)
    requires Enabled(g, step) && step != Fetch(call) && call in g.lookups && call in Next(g, capacity, step).lookups
    ensures Next(g, capacity, step).lookups[call] == g.lookups[call]
  {
  }

  lemma LookupsKept(g: Gate, capacity: nat, step: Step, call: nat)
    requires Inv(g, capacity) && Enabled(g, step) && call in Next(g, capacity, step).lookups
    ensures LookupInv(Next(g, capacity, step), Next(g, capacity, step).lookups[call])
  {
    if step == Fetch(call) {
      FetchKeepsLookup(g, capacity, call);
    } else if call in g.lookups {
      var l := g.lookups[call];
      LookupsStay(g, capacity, step, call);
      StepIsGentle(g, capacity, step, l.key);
      GentleKeepsLookup(g, Next(g, capacity, step), l);
    }
  }

  lemma StepKeeps(g: Gate, capacity: nat, step: Step)
    requires Inv(g, capacity) && 0 < capacity && Enabled(g, step)
    ensures Inv(Next(g, capacity, step), capacity)
  {
    var g' := Next(g, capacity, step);
    assert DistinctKeys(g'.hints) && |g'.hints| <= capacity by {
      match step
      case Begin(_, k) => TouchMeaning(g.hints, k, k);
      case Finish(call) =>
        var l := g.lookups[call];
        if l.node != "" {
          PutMeaning(g.hints, capacity, l.key, l.node, l.key);
        }
      case ApplyEvent(k) => DropMeaning(g.hints, k, k);
      case Forget(k) => DropMeaning(g.hints, k, k);
      case _ =>
    }
    forall key ensures KeyInv(g', key) {
      KeyKept(g, capacity, step, key);
    }
    forall call | call in g'.lookups ensures LookupInv(g', g'.lookups[call]) {
      LookupsKept(g, capacity, step, call);
    }
  }

  lemma {:induction false} RunKeeps(capacity: nat, steps: seq<Step>)
    requires 0 < capacity
    ensures Inv(Run(capacity, steps), capacity)
  {
    if steps == [] {
      assert forall key :: KeyInv(START, key);
    } else {
      var g := Run(capacity, steps[..|steps| - 1]);
      RunKeeps(capacity, steps[..|steps| - 1]);
      if Enabled(g, steps[|steps| - 1]) {
        StepKeeps(g, capacity, steps[|steps| - 1]);
      }
    }
  }

  /**
    In every run, a cached hint was read after the last invalidation of its key; and once
    every change of the key has had its event applied, the hint is the locator's value.
  */
  lemma HintsAreFresh(capacity: nat, steps: seq<Step>, key: Key)
    requires 0 < capacity && SourceHints.Lookup(Run(capacity, steps).hints, key).Some?
    ensures var g := Run(capacity, steps);
            && Time(g.invalidAt, key) < Time(g.readAt, key)
            && (key !in g.pending ==>
                  key in g.locator && SourceHints.Lookup(g.hints, key) == Some(g.locator[key]))
  {
    RunKeeps(capacity, steps);
    assert KeyInv(Run(capacity, steps), key);
  }

  // --- Lookups and invalidations, one by one ---

  /** A hit starts no lookup and moves its hint to the front; a miss waits under the revision it saw. */
  lemma BeginMeaning(g: Gate, capacity: nat, call: nat, key: Key)
    requires Inv(g, capacity) && call !in g.lookups
    ensures var g' := Next(g, capacity, Begin(call, key));
            if SourceHints.Lookup(g.hints, key).Some? then
              && g' == g.(hints := g'.hints, clock := g.clock + 1)
              && g'.hints != [] && g'.hints[0].key == key
              && forall k :: SourceHints.Lookup(g'.hints, k) == SourceHints.Lookup(g.hints, k)
            else g' == g.(lookups := g.lookups[call := Missed(key, g.revision)], clock := g.clock + 1)
  {
    forall k ensures SourceHints.Lookup(Touch(g.hints, key), k) == SourceHints.Lookup(g.hints, k) {
      TouchMeaning(g.hints, key, k);
    }
  }

  lemma FetchMeaning(g: Gate, capacity: nat, call: nat, key: Key, seen: nat)
    requires call in g.lookups && g.lookups[call] == Missed(key, seen)
    ensures Next(g, capacity, Fetch(call)) ==
            g.(lookups := g.lookups[call := Fetched(key, seen, Located(g.locator, key), g.clock)], clock := g.clock + 1)
  {
  }

  /** The result is cached exactly when there is one and nothing was invalidated since the lookup began. */
  lemma FinishMeaning(g: Gate, capacity: nat, call: nat)
    requires Inv(g, capacity) && 0 < capacity && Enabled(g, Finish(call))
    ensures var l, g' := g.lookups[call], Next(g, capacity, Finish(call));
            && g' == g.(hints := g'.hints, readAt := g'.readAt, lookups := g.lookups - {call}, clock := g.clock + 1)
            && (if l.node != "" && l.seen == g.revision
                then SourceHints.Lookup(g'.hints, l.key) == Some(l.node) && g'.readAt == g.readAt[l.key := l.at]
                else g'.hints == g.hints && g'.readAt == g.readAt)
  {
    var l := g.lookups[call];
    if l.node != "" {
      PutMeaning(g.hints, capacity, l.key, l.node, l.key);
    }
  }

  /** A lookup that misses and that nothing disturbs caches what the locator holds, and leaves no trace but that. */
  lemma LookupAlone(g: Gate, capacity: nat, call: nat, key: Key)
    requires Inv(g, capacity) && 0 < capacity && call !in g.lookups && SourceHints.Lookup(g.hints, key).None?
    ensures var end := Next(Next(Next(g, capacity, Begin(call, key)), capacity, Fetch(call)), capacity, Finish(call));
            && end == g.(hints := end.hints, readAt := end.readAt, clock := g.clock + 3)
            && SourceHints.Lookup(end.hints, key) ==
               (if key in g.locator && g.locator[key] != "" then Some(g.locator[key]) else None)
  {
    BeginMeaning(g, capacity, call, key);
    var missed := Next(g, capacity, Begin(call, key));
    FetchMeaning(missed, capacity, call, key, g.revision);
    var fetched := Next(missed, capacity, Fetch(call));
    StepKeeps(g, capacity, Begin(call, key));
    StepKeeps(missed, capacity, Fetch(call));
    FinishMeaning(fetched, capacity, call);
    assert fetched.lookups - {call} == g.lookups;
  }

  /** A change is what the locator answers from then on; its event is owed until it is applied. */
  lemma ChangeMeaning(g: Gate, capacity: nat, key: Key, node: string, other: Key)
    ensures var g' := Next(g, capacity, Change(key, node));
            && Located(g'.locator, other) == (if other == key then node else Located(g.locator, other))
            && g'.pending == g.pending + multiset{key}
            && g' == g.(locator := g'.locator, pending := g'.pending, changedAt := g.changedAt[key := g.clock],
                        clock := g.clock + 1)
  {
  }

  /** An invalidation drops the hint of its key and no other, and moves the revision; an event is then no longer owed. */
  lemma InvalidateMeaning(g: Gate, capacity: nat, key: Key, other: Key)
    requires Inv(g, capacity)
    ensures var g' := Next(g, capacity, Forget(key));
            && SourceHints.Lookup(g'.hints, other) == (if other == key then None else SourceHints.Lookup(g.hints, other))
            && g' == g.(hints := g'.hints, revision := g.revision + 1, invalidAt := g.invalidAt[key := g.clock],
                        clock := g.clock + 1)
            && (key in g.pending ==> Next(g, capacity, ApplyEvent(key)) == g'.(pending := g.pending - multiset{key}))
            && (key !in g.pending ==> Next(g, capacity, ApplyEvent(key)) == g)
  {
    DropMeaning(g.hints, key, other);
  }
}
