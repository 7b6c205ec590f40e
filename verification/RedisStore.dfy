/**
  The Redis ownership store: three Lua scripts over one hash per UID, and the Go code
  around them. Each script is one atomic step.
*/
module RedisStore {
  import opened Prelude
  import opened Decimal
  import opened Ownership

  datatype Fields = Fields(generation: Option<string>, current: Option<string>, rangeEnd: Option<string>)

  const EMPTY := Fields(None, None, None)

  datatype ScriptReply = Values(values: seq<string>) | ScriptError

  datatype Metadata = Metadata(generation: string, limit: Option<string>)

  /** The script's `state`. */
  function ReadState(f: Fields): (r: Option<Metadata>)
    ensures r.Some? ==> Valid(r.value.generation) && (r.value.limit.Some? ==> Valid(r.value.limit.value))
    ensures r.Some? && r.value.limit.Some? ==> f.generation == Some(r.value.generation)
  {
    match f.generation
    case None =>
      if f.current.Some? || f.rangeEnd.Some? then None else Some(Metadata("0", None))
    case Some(g) =>
      if || !Valid(g)
         || (f.current.Some? && (!Valid(f.current.value) || f.current.value == "0" || Compare(f.current.value, g) > 0))
         || (f.rangeEnd.Some? && (!Valid(f.rangeEnd.value) || Compare(g, f.rangeEnd.value) > 0))
      then None
      else Some(Metadata(g, f.rangeEnd))
  }

  /** The generation after `g`, as HINCRBY leaves it in the hash. */
  function Successor(g: string): string
    requires Digits(g)
  {
    FormatUint(Value(g) + 1)
  }

  predicate RangeLeft(m: Metadata) {
    m.limit.Some? && Compare(m.generation, m.limit.value) < 0
  }

  function AcquireScript(f: Fields): (Fields, ScriptReply) {
    match ReadState(f)
    case None => (f, ScriptError)
    case Some(m) =>
      if RangeLeft(m) then
        var next := Successor(m.generation);
        (f.(generation := Some(next), current := Some(next)), Values(["ok", next]))
      else (f, Values(["range", m.generation]))
  }

  predicate RangeRefused(generation: string, first: string, last: string) {
    !Valid(first) || !Valid(last) || first == "0" || Compare(first, last) > 0 || Compare(first, generation) <= 0
  }

  function InitializeScript(f: Fields, first: string, last: string): (Fields, ScriptReply) {
    match ReadState(f)
    case None => (f, ScriptError)
    case Some(m) =>
      if RangeLeft(m) then
        var next := Successor(m.generation);
        (f.(generation := Some(next), current := Some(next)), Values(["ok", next]))
      else if RangeRefused(m.generation, first, last) then (f, ScriptError)
      else (Fields(Some(first), Some(first), Some(last)), Values(["ok", first]))
  }

  function ReleaseScript(f: Fields, arg: string): (Fields, bool) {
    if f.current == Some(arg) then (f.(current := None), true) else (f, false)
  }

  /** The hash of one UID, changed in place by the scripts. */
  class UserHash {
    var generation: Option<string>
    var current: Option<string>
    var rangeEnd: Option<string>

    function View(): Fields
      reads this
    {
      Fields(generation, current, rangeEnd)
    }

    constructor ()
      ensures View() == EMPTY
    {
      generation, current, rangeEnd := None, None, None;
    }

    method Advance() returns (reply: ScriptReply)
      requires generation.Some? && Digits(generation.value)
      modifies this`generation, this`current
      ensures generation == current == Some(Successor(old(generation.value)))
      ensures reply == Values(["ok", Successor(old(generation.value))])
    {
      generation := Some(FormatUint(Value(generation.value) + 1));
      var exact := generation;
      current := exact;
      reply := Values(["ok", exact.value]);
    }

    method Acquire() returns (reply: ScriptReply)
      modifies this
      ensures (View(), reply) == AcquireScript(old(View()))
    {
      var state := ReadState(View());
      if state.None? {
        return ScriptError;
      }
      if RangeLeft(state.value) {
        reply := Advance();
        return;
      }
      reply := Values(["range", state.value.generation]);
    }

    method InitializeRange(first: string, last: string) returns (reply: ScriptReply)
      modifies this
      ensures (View(), reply) == InitializeScript(old(View()), first, last)
    {
      var state := ReadState(View());
      if state.None? {
        return ScriptError;
      }
      if RangeLeft(state.value) {
        reply := Advance();
        return;
      }
      if RangeRefused(state.value.generation, first, last) {
        return ScriptError;
      }
      generation, current, rangeEnd := Some(first), Some(first), Some(last);
      reply := Values(["ok", first]);
    }

    method Release(arg: string) returns (released: bool)
      modifies this`current
      ensures (View(), released) == ReleaseScript(old(View()), arg)
    {
      if current.None? || current.value != arg {
        return false;
      }
      current := None;
      released := true;
    }
  }

  datatype StoreError =
    | Cancelled
    | InvalidArgument
    | ScriptFailed
    | InvalidRange
    | Exhausted
    | RangeRequired
    | Undecodable

  /** `Store.Current`: the token the hash names, if any. */
  function Current(f: Fields, uid: int): Result<Option<Token>, StoreError> {
    if uid <= 0 then Err(InvalidArgument)
    else if f.current.None? then Ok(None)
    else
      match ParseUint63(f.current.value)
      case None => Err(Undecodable)
      case Some(g) =>
        if g == 0 || FormatUint(g) != f.current.value then Err(Exhausted) else Ok(Some(Token(uid, g)))
  }

  // --- Hashes that the scripts maintain, seen as numbers ---

  /** Either no metadata at all, or a generation inside a range that may be the current one. */
  predicate Sound(f: Fields) {
    f == EMPTY ||
    (&& f.generation.Some? && Valid(f.generation.value) && f.generation.value != "0"
     && f.rangeEnd.Some? && Valid(f.rangeEnd.value)
     && Value(f.generation.value) <= Value(f.rangeEnd.value)
     && f.current in {None, f.generation})
  }

  function Generation(f: Fields): nat
    requires Sound(f)
  {
    if f == EMPTY then 0 else Value(f.generation.value)
  }

  function RangeEnd(f: Fields): nat
    requires Sound(f)
  {
    if f == EMPTY then 0 else Value(f.rangeEnd.value)
  }

  function Owner(f: Fields): Option<nat>
    requires Sound(f)
  {
    if f.current.None? then None else Some(Value(f.current.value))
  }

  lemma SoundIsReadable(f: Fields)
    requires Sound(f)
    ensures ReadState(f).Some?
    ensures Value(ReadState(f).value.generation) == Generation(f) <= MAX_INT64
    ensures f != EMPTY ==> 0 < Generation(f) <= RangeEnd(f) <= MAX_INT64
    ensures RangeLeft(ReadState(f).value) <==> Generation(f) < RangeEnd(f)
  {
    assert Valid("0") && Value("0") == 0;
    if f != EMPTY {
      ValidIsBounded(f.generation.value);
      ValidIsBounded(f.rangeEnd.value);
      CompareIsNumeric(f.generation.value, f.rangeEnd.value);
      CompareIsNumeric(f.generation.value, f.generation.value);
      CompareIsNumeric(f.generation.value, "0");
    }
  }

  lemma FormattedIsValid(n: nat)
    ensures Valid(FormatUint(n)) <==> n <= MAX_INT64
    ensures FormatUint(n) == "0" <==> n == 0
  {
    ValidIsBounded(FormatUint(n));
    CompareIsNumeric(FormatUint(n), "0");
    assert Value("0") == 0;
  }

  /**
    The acquire script on a sound hash: while the range lasts it issues the next number,
    otherwise it asks for a range above the present generation and changes nothing.
  */
  lemma AcquireMeaning(f: Fields)
    requires Sound(f)
    ensures var (f', reply) := AcquireScript(f);
            && Sound(f') && reply.Values?
            && (if Generation(f) < RangeEnd(f) then
                  && DecodeRangeReply(reply.values) == Ok(RangeReply(Generation(f) + 1, false))
                  && Generation(f') == Generation(f) + 1 && RangeEnd(f') == RangeEnd(f)
                  && Owner(f') == Some(Generation(f) + 1)
                else
                  f' == f && DecodeRangeReply(reply.values) == Ok(RangeReply(Generation(f), true)))
  {
    SoundIsReadable(f);
    var m := ReadState(f).value;
    DecoderAcceptsExactlyValid("range", m.generation);
    FormattedIsValid(Generation(f) + 1);
    DecoderAcceptsExactlyValid("ok", FormatUint(Generation(f) + 1));
  }

  /**
    The initialise script on a sound hash: it continues a range that another initialiser
    left unused, and otherwise starts the offered range if and only if that lies above the
    present generation.
  */
  lemma InitializeMeaning(f: Fields, first: nat, last: nat)
    requires Sound(f) && 0 < first <= last <= MAX_INT64
    ensures var (f', reply) := InitializeScript(f, FormatUint(first), FormatUint(last));
            && Sound(f')
            && (if Generation(f) < RangeEnd(f) then
                  && reply.Values? && DecodeRangeReply(reply.values) == Ok(RangeReply(Generation(f) + 1, false))
                  && Generation(f') == Generation(f) + 1 && RangeEnd(f') == RangeEnd(f)
                  && Owner(f') == Some(Generation(f) + 1)
                else if first > Generation(f) then
                  && reply.Values? && DecodeRangeReply(reply.values) == Ok(RangeReply(first, false))
                  && Generation(f') == first && RangeEnd(f') == last && Owner(f') == Some(first)
                else
                  f' == f && reply.ScriptError?)
  {
    SoundIsReadable(f);
    FormattedIsValid(first);
    FormattedIsValid(last);
    CompareIsNumeric(FormatUint(first), FormatUint(last));
    ValidIsBounded(ReadState(f).value.generation);
    CompareIsNumeric(FormatUint(first), ReadState(f).value.generation);
    AcquireMeaning(f);
    DecoderAcceptsExactlyValid("ok", FormatUint(first));
  }

  /** Releasing removes the owner exactly when the caller names it, and touches nothing else. */
  lemma ReleaseMeaning(f: Fields, g: nat)
    requires Sound(f)
    ensures var (f', released) := ReleaseScript(f, FormatUint(g));
            && Sound(f') && Generation(f') == Generation(f) && RangeEnd(f') == RangeEnd(f)
            && (released <==> Owner(f) == Some(g))
            && Owner(f') == (if released then None else Owner(f))
  {
    if f.current.Some? {
      ValidIsBounded(f.current.value);
      CompareIsNumeric(f.current.value, FormatUint(g));
    }
  }

  lemma CurrentMeaning(f: Fields, uid: int)
    requires Sound(f) && uid > 0
    ensures Current(f, uid) == Ok(if Owner(f).Some? then Some(Token(uid, Owner(f).value)) else None)
  {
    if f.current.Some? {
      SoundIsReadable(f);
      ValidIsBounded(f.current.value);
      FormatOfValue(f.current.value);
    }
  }

  /** A decimal within MaxInt64, as every field of the hash must be. */
  predicate Numeric(text: string) {
    Canonical(text) && Value(text) <= MAX_INT64
  }

  /**
    The scripts read a hash exactly when it is empty or holds a generation, an owner that is
    absent or positive and not above it, and a limit that is absent or not below it; every
    other hash is an error that changes nothing.
  */
  lemma ReadableIff(f: Fields, first: string, last: string)
    ensures ReadState(f).Some? <==>
            || f == EMPTY
            || (&& f.generation.Some? && Numeric(f.generation.value)
                && (f.current.Some? ==>
                      Numeric(f.current.value) && 0 < Value(f.current.value) <= Value(f.generation.value))
                && (f.rangeEnd.Some? ==>
                      Numeric(f.rangeEnd.value) && Value(f.generation.value) <= Value(f.rangeEnd.value)))
    ensures ReadState(f).None? ==> AcquireScript(f) == InitializeScript(f, first, last) == (f, ScriptError)
  {
    if f.generation.Some? {
      ValidIsBounded(f.generation.value);
      if f.current.Some? {
        ValidIsBounded(f.current.value);
        ZeroText(f.current.value);
        if Valid(f.generation.value) && Valid(f.current.value) {
          CompareIsNumeric(f.current.value, f.generation.value);
        }
      }
      if f.rangeEnd.Some? {
        ValidIsBounded(f.rangeEnd.value);
        if Valid(f.generation.value) && Valid(f.rangeEnd.value) {
          CompareIsNumeric(f.generation.value, f.rangeEnd.value);
        }
      }
    }
  }

  lemma ZeroText(text: string)
    ensures Canonical(text) ==> (Value(text) == 0 <==> text == "0")
  {
    if Canonical(text) {
      CompareIsNumeric(text, "0");
      assert Value("0") == 0;
    }
  }

  /** For a positive user `Current` answers a token exactly for a positive canonical owner, no owner exactly without the field. */
  lemma CurrentIff(f: Fields, uid: int, g: nat)
    ensures Current(f, uid) == Ok(Some(Token(uid, g))) <==>
            uid > 0 && f.current.Some? && Numeric(f.current.value) && Value(f.current.value) == g > 0
    ensures Current(f, uid) == Ok(None) <==> uid > 0 && f.current.None?
    ensures Current(f, uid) == Err(InvalidArgument) <==> uid <= 0
    ensures Current(f, uid).Ok? && Current(f, uid).value.Some? ==> Current(f, uid).value.value.uid == uid
  {
    if f.current.Some? && Digits(f.current.value) {
      FormatOfValue(f.current.value);
    }
  }

  // --- Store.Acquire without interference ---

  /** One call of the range callback; `operation` is whether it carries a context. */
  datatype Callback = Callback(operation: bool, first: nat, last: nat)

  /**
    What a range allocator does with one call: the callbacks it makes, in order, and whether
    it reports an error of its own. It passes a callback's error on.
  */
  datatype Allocation = Allocation(callbacks: seq<Callback>, fails: bool)

  predicate Usable(floor: nat, c: Callback) {
    c.operation && floor < c.first <= c.last <= MAX_INT64
  }

  /** The allocator calls back once, with a usable range, and reports no error. */
  predicate Served(floor: nat, allocator: Option<Allocation>) {
    && allocator.Some? && !allocator.value.fails
    && |allocator.value.callbacks| == 1 && Usable(floor, allocator.value.callbacks[0])
  }

  /** The first callback reached the script. */
  predicate Began(floor: nat, allocation: Allocation) {
    allocation.callbacks != [] && Usable(floor, allocation.callbacks[0])
  }

  /** The hash has the callback's range and its start as the owner. */
  predicate Installed(f: Fields, c: Callback) {
    Sound(f) && Generation(f) == c.first && RangeEnd(f) == c.last && Owner(f) == Some(c.first)
  }

  /**
    `Store.Acquire` against a hash that nobody else changes meanwhile. While the range
    lasts the next number is returned. Otherwise it succeeds exactly when the allocator
    calls back once, with a range above the generation and within MaxInt64, and reports
    no error, and the context is still alive when it returns; the token is then the start of
    that range. A failed call has changed the hash, to that range with a new owner nobody was
    told of, exactly when the first callback was usable: the context was cancelled after it, or
    the allocator called back again or reported an error.
  */
  method AcquireAlone(hash: UserHash, uid: int, cancelled: bool, allocator: Option<Allocation>, cancelledLater: bool)
    returns (r: Result<Token, StoreError>)
    requires Sound(hash.View())
    modifies hash
    ensures Sound(hash.View())
    ensures cancelled || uid <= 0 ==> r.Err? && hash.View() == old(hash.View())
    ensures r.Ok? ==>
              && r.value == Token(uid, Generation(hash.View()))
              && Owner(hash.View()) == Some(r.value.generation)
              && old(Generation(hash.View())) < r.value.generation <= MAX_INT64
    ensures r.Err? ==>
              var floor := old(Generation(hash.View()));
              && (hash.View() != old(hash.View()) <==>
                    && !cancelled && uid > 0 && old(Generation(hash.View()) >= RangeEnd(hash.View())) && floor < MAX_INT64
                    && allocator.Some? && Began(floor, allocator.value))
              && (hash.View() != old(hash.View()) ==>
                    && (cancelledLater || allocator.value.fails || |allocator.value.callbacks| > 1)
                    && Installed(hash.View(), allocator.value.callbacks[0]))
    ensures !cancelled && uid > 0 && old(Generation(hash.View()) < RangeEnd(hash.View())) ==>
              r == Ok(Token(uid, old(Generation(hash.View())) + 1))
    ensures !cancelled && uid > 0 && old(Generation(hash.View()) >= RangeEnd(hash.View())) ==>
              var floor := old(Generation(hash.View()));
              && (r.Ok? <==> floor < MAX_INT64 && Served(floor, allocator) && !cancelledLater)
              && (floor < MAX_INT64 && Served(floor, allocator) ==>
                    && Generation(hash.View()) == allocator.value.callbacks[0].first
                    && Owner(hash.View()) == Some(Generation(hash.View()))
                    && (cancelledLater ==> r == Err(Cancelled)))
              && (r == Err(Exhausted) <==> floor == MAX_INT64)
              && (r == Err(RangeRequired) <==> floor < MAX_INT64 && allocator.None?)
  {
    if cancelled {
      return Err(Cancelled);
    }
    if uid <= 0 {
      return Err(InvalidArgument);
    }
    AcquireMeaning(hash.View());
    SoundIsReadable(hash.View());
    var reply := hash.Acquire();
    var decoded := DecodeRangeReply(reply.values);
    if !decoded.value.needRange {
      return Ok(Token(uid, decoded.value.generation));
    }
    if decoded.value.generation == MAX_INT64 {
      return Err(Exhausted);
    }
    if allocator.None? {
      return Err(RangeRequired);
    }
    var floor := decoded.value.generation;
    var generation, calls, refused := CallBack(hash, floor, allocator.value);
    if refused || calls != 1 || generation == 0 {
      return Err(InvalidRange);
    }
    if cancelledLater {
      return Err(Cancelled);
    }
    r := Ok(Token(uid, generation));
  }

  /** The allocator's run of the range callback; `refused` is the error it passes on, or its own. */
  method CallBack(hash: UserHash, floor: nat, allocation: Allocation)
    returns (generation: nat, calls: nat, refused: bool)
    requires Sound(hash.View()) && floor == Generation(hash.View()) >= RangeEnd(hash.View())
    modifies hash
    ensures Sound(hash.View()) && calls == |allocation.callbacks|
    ensures calls == 1 && !refused <==> Served(floor, Some(allocation))
    ensures Served(floor, Some(allocation)) ==>
              && generation == allocation.callbacks[0].first == Generation(hash.View())
              && Owner(hash.View()) == Some(generation)
    ensures if Began(floor, allocation) then Installed(hash.View(), allocation.callbacks[0])
            else hash.View() == old(hash.View())
  {
    generation, calls, refused := floor, 0, allocation.fails;
    for i := 0 to |allocation.callbacks|
      invariant calls == i && Sound(hash.View())
      invariant i == 0 ==> refused == allocation.fails && generation == floor && hash.View() == old(hash.View())
      invariant i > 1 ==> refused
      invariant i == 1 && !refused ==>
                  && !allocation.fails && Usable(floor, allocation.callbacks[0])
                  && generation == allocation.callbacks[0].first == Generation(hash.View())
                  && Owner(hash.View()) == Some(generation)
      invariant i == 1 && Usable(floor, allocation.callbacks[0]) ==> refused == allocation.fails
      invariant i > 0 ==> if Usable(floor, allocation.callbacks[0]) then Installed(hash.View(), allocation.callbacks[0])
                          else hash.View() == old(hash.View())
    {
      var c := allocation.callbacks[i];
      calls := calls + 1;
      if calls != 1 || !c.operation || c.first <= floor || c.first == 0 || c.last < c.first || c.last > MAX_INT64 {
        refused := true;
      } else {
        InitializeMeaning(hash.View(), c.first, c.last);
        var reply := hash.InitializeRange(FormatUint(c.first), FormatUint(c.last));
        generation := DecodeRangeReply(reply.values).value.generation;
      }
    }
  }
}
