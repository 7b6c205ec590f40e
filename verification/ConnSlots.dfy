/**
  The connection manager of a WebSocket server: accepting, closing and shutting down, with
  every load, compare-and-swap and lock a step of its own.

  A slot is reserved by a compare-and-swap on the total before the connection exists. Whoever
  has to give it back is recorded in `holder`: the accepting thread, the connection table, or
  the thread that took the connection out of the table.
*/
module ConnSlots {
  import opened Prelude

  datatype State = New | Opened | Hanged | Closed

  datatype Holder = Allocator(who: nat) | Table | Remover(who: nat) | Returned(who: nat)

  /**
    One accepted connection. `live` is that its socket is still set, `locked` that the accepting
    thread holds its lock, `refunds` and `bodies` count how often its slot was given back and its
    close body ran; `tried` is that a graceful close reached its first compare-and-swap.
  */
  datatype Conn = Conn(
    state: State,
    part: nat,
    live: bool,
    locked: bool,
    registered: bool,
    everRegistered: bool,
    listed: bool,
    tried: bool,
    holder: Holder,
    refunds: nat,
    bodies: nat,
    hanger: Option<nat>,
    winner: Option<nat>)

  datatype Pc =
    // reserve
    | Starting
    | Loading
    | Swapping(seen: int)
    // allocate
    | Initing(c: nat)
    | Checking(c: nat)
    | Storing(c: nat)
    | Refunding(c: nat, refused: bool)
    // forceClose
    | FromOpened(c: nat, recycle: bool)
    | FromHanged(c: nat, recycle: bool)
    // graceClose
    | Hanging(c: nat)
    | Signalling(c: nat)
    | Draining(c: nat)
    // doClose and recycle
    | Won(c: nat, recycle: bool)
    | Shut(c: nat, recycle: bool)
    | Removed(c: nat)

  datatype Server = Server(
    total: int,
    closing: bool,
    conns: map<nat, Conn>,
    threads: map<nat, Pc>,
    snapped: set<nat>)

  const PARTITIONS := 10
  const START := Server(0, false, map[], map[], {})

  datatype Step =
    | Accept(t: nat)
    | Swap(t: nat, c: nat, part: nat)
    | Advance(t: nat)
    | Close(t: nat, c: nat, force: bool)
    | BeginShutdown
    | Snapshot(p: nat)

  predicate OnConn(pc: Pc) {
    !pc.Starting? && !pc.Loading? && !pc.Swapping?
  }

  /** The accepting thread takes the connection's lock to check, a closing one to close. */
  predicate NeedsLock(pc: Pc) {
    pc.Checking? || pc.Signalling? || pc.Won?
  }

  predicate Enabled(s: Server, step: Step) {
    match step
    case Accept(t) => t !in s.threads
    case Swap(t, c, part) => t in s.threads && s.threads[t].Swapping? && c !in s.conns && part < PARTITIONS
    case Advance(t) =>
      && t in s.threads
      && !s.threads[t].Swapping?
      && (OnConn(s.threads[t]) ==> s.threads[t].c in s.conns)
      && (NeedsLock(s.threads[t]) ==> !s.conns[s.threads[t].c].locked)
    case Close(t, c, _) => t !in s.threads && c in s.conns && s.conns[c].state != New
    case BeginShutdown => true
    case Snapshot(p) => s.closing && p < PARTITIONS
  }

  function Reserving(s: Server, max: int, t: nat): Server
    requires t in s.threads
  {
    if s.threads[t].Starting? then
      if s.closing then s.(threads := s.threads - {t}) else s.(threads := s.threads[t := Loading])
    else if s.total >= max then s.(threads := s.threads - {t})
    else s.(threads := s.threads[t := Swapping(s.total)])
  }

  function NewConn(t: nat, part: nat): Conn {
    Conn(New, part, false, false, false, false, false, false, Allocator(t), 0, 0, None, None)
  }

  /** The compare-and-swap on the total; a lost one starts over. */
  function Swapped(s: Server, t: nat, c: nat, part: nat): Server
    requires t in s.threads && s.threads[t].Swapping?
  {
    if s.total == s.threads[t].seen then
      s.(total := s.total + 1, conns := s.conns[c := NewConn(t, part)], threads := s.threads[t := Initing(c)])
    else s.(threads := s.threads[t := Starting])
  }

  /** What a thread at `pc` does to its connection. */
  function ConnAfter(k: Conn, closing: bool, t: nat, pc: Pc): Conn {
    match pc
    case Initing(_) => k.(state := Opened, live := true)
    case Checking(_) => if k.state == Opened then k.(locked := true) else k
    case Storing(_) =>
      if closing then k.(locked := false)
      else k.(locked := false, registered := true, everRegistered := true, holder := Table)
    case Refunding(_, _) => k.(refunds := k.refunds + 1, holder := Returned(t))
    case FromOpened(_, _) => if k.state == Opened then k.(state := Closed, winner := Some(t)) else k
    case FromHanged(_, _) => if k.state == Hanged then k.(state := Closed, winner := Some(t)) else k
    case Hanging(_) =>
      if k.state == Opened then k.(state := Hanged, hanger := Some(t), tried := true) else k.(tried := true)
    case Signalling(_) => k
    case Draining(_) => if k.state == Hanged then k.(state := Closed, winner := Some(t)) else k
    case Won(_, _) => if k.live then k.(live := false, bodies := k.bodies + 1) else k
    case Shut(_, recycle) => if recycle && k.registered then k.(registered := false, holder := Remover(t)) else k
    case Removed(_) => k.(refunds := k.refunds + 1, holder := Returned(t))
    case _ => k
  }

  /** Where the thread goes next; `None` when it returns. */
  function PcAfter(k: Conn, closing: bool, pc: Pc): Option<Pc> {
    match pc
    case Initing(c) => Some(Checking(c))
    case Checking(c) => if k.state == Opened then Some(Storing(c)) else Some(Refunding(c, false))
    case Storing(c) => if closing then Some(Refunding(c, true)) else None
    case Refunding(c, refused) => if refused then Some(FromOpened(c, false)) else None
    case FromOpened(c, recycle) => if k.state == Opened then Some(Won(c, recycle)) else Some(FromHanged(c, recycle))
    case FromHanged(c, recycle) => if k.state == Hanged then Some(Won(c, recycle)) else None
    case Hanging(c) => if k.state == Opened then Some(Signalling(c)) else None
    case Signalling(c) => if k.live then Some(Draining(c)) else None
    case Draining(c) => if k.state == Hanged then Some(Won(c, true)) else None
    case Won(c, recycle) => if k.live then Some(Shut(c, recycle)) else None
    case Shut(c, recycle) => if recycle && k.registered then Some(Removed(c)) else None
    case Removed(_) => None
    case _ => None
  }

  function TotalAfter(total: int, pc: Pc): int {
    if pc.Refunding? || pc.Removed? then total - 1 else total
  }

  function Moved(threads: map<nat, Pc>, t: nat, pc: Option<Pc>): map<nat, Pc> {
    if pc.Some? then threads[t := pc.value] else threads - {t}
  }

  function Working(s: Server, t: nat): Server
    requires t in s.threads && OnConn(s.threads[t]) && s.threads[t].c in s.conns
  {
    var pc := s.threads[t];
    var k := s.conns[pc.c];
    s.(total := TotalAfter(s.total, pc),
       conns := s.conns[pc.c := ConnAfter(k, s.closing, t, pc)],
       threads := Moved(s.threads, t, PcAfter(k, s.closing, pc)))
  }

  /** A snapshot lists what the partition holds at that moment. */
  function Listed(conns: map<nat, Conn>, p: nat): map<nat, Conn> {
    map c | c in conns :: if conns[c].registered && conns[c].part == p then conns[c].(listed := true) else conns[c]
  }

  function Next(s: Server, max: int, step: Step): Server {
    if !Enabled(s, step) then s
    else
      match step
      case Accept(t) => s.(threads := s.threads[t := Starting])
      case Swap(t, c, part) => Swapped(s, t, c, part)
      case Advance(t) => if OnConn(s.threads[t]) then Working(s, t) else Reserving(s, max, t)
      case Close(t, c, force) =>
        s.(threads := s.threads[t := if force then FromOpened(c, true) else Hanging(c)])
      case BeginShutdown => s.(closing := true)
      case Snapshot(p) => s.(conns := Listed(s.conns, p), snapped := s.snapped + {p})
  }

  function Run(max: int, steps: seq<Step>): Server {
    if steps == [] then START else Next(Run(max, steps[..|steps| - 1]), max, steps[|steps| - 1])
  }

  // --- The invariant ---

  /** What a thread may rely on about its connection. */
  predicate ThreadOk(k: Conn, t: nat, pc: Pc) {
    match pc
    case Initing(_) => k.state == New && k.holder == Allocator(t)
    case Checking(_) => k.state != New && k.holder == Allocator(t)
    case Storing(_) => k.state != New && k.locked && k.bodies == 0 && k.holder == Allocator(t)
    case Refunding(_, refused) => k.state != New && k.holder == Allocator(t) && !k.locked && (!refused ==> k.state != Opened)
    case FromOpened(_, recycle) => k.state != New && (!recycle ==> k.holder.Returned?)
    case FromHanged(_, recycle) => k.state != New && k.state != Opened && (!recycle ==> k.holder.Returned?)
    case Hanging(_) => k.state != New
    case Signalling(_) => k.hanger == Some(t) && k.state != New && k.state != Opened
    case Draining(_) => k.hanger == Some(t) && k.state != New && k.state != Opened
    case Won(_, recycle) => k.winner == Some(t) && k.bodies == 0 && (!recycle ==> k.holder.Returned?)
    case Shut(_, recycle) => k.winner == Some(t) && k.bodies == 1 && (!recycle ==> k.holder.Returned?)
    case Removed(_) => k.winner == Some(t) && k.bodies == 1 && k.holder == Remover(t)
    case _ => true
  }

  /** How the fields of a connection hang together. */
  predicate FieldsOk(k: Conn) {
    && k.part < PARTITIONS
    && (k.live <==> k.state != New && k.bodies == 0)
    && k.bodies <= (if k.state == Closed then 1 else 0)
    && (k.state == Closed <==> k.winner.Some?)
    && (k.state == New || k.state == Opened ==> k.hanger == None && !k.tried)
    && (k.state == New ==> k.holder.Allocator?)
    && (k.registered <==> k.holder == Table)
    && (k.everRegistered ==> !k.holder.Allocator?)
    && (k.holder == Table || k.holder.Remover? ==> k.everRegistered)
    && (k.locked ==> k.holder.Allocator?)
    && k.refunds == if k.holder.Returned? then 1 else 0
  }

  predicate At(threads: map<nat, Pc>, t: nat, pc: Pc) {
    t in threads && threads[t] == pc
  }

  /** A slot that is not given back has a thread that will, or is in the table. */
  predicate HolderAttended(k: Conn, c: nat, threads: map<nat, Pc>) {
    match k.holder
    case Allocator(t) =>
      && (|| At(threads, t, Initing(c)) || At(threads, t, Checking(c)) || At(threads, t, Storing(c))
          || At(threads, t, Refunding(c, true)) || At(threads, t, Refunding(c, false)))
      && (k.locked ==> At(threads, t, Storing(c)))
    case Table => true
    case Remover(t) => At(threads, t, Removed(c))
    case Returned(t) => k.state == Opened ==> At(threads, t, FromOpened(c, false))
  }

  /** A close that has begun has a thread that will finish it, and take the connection out of the table. */
  predicate StateAttended(k: Conn, c: nat, threads: map<nat, Pc>) {
    && (k.state == Hanged ==>
          && k.hanger.Some?
          && (At(threads, k.hanger.value, Signalling(c)) || At(threads, k.hanger.value, Draining(c))))
    && (k.state == Closed ==> k.winner.Some?)
    && (k.state == Closed && k.bodies == 0 ==>
          || At(threads, k.winner.value, Won(c, true))
          || (At(threads, k.winner.value, Won(c, false)) && k.holder.Returned?))
    && (k.state == Closed && k.registered ==>
          At(threads, k.winner.value, Won(c, true)) || At(threads, k.winner.value, Shut(c, true)))
  }

  predicate SnapshotOk(k: Conn, snapped: set<nat>) {
    k.registered && k.part in snapped ==> k.listed
  }

  predicate ConnInv(s: Server, c: nat)
    requires c in s.conns
  {
    var k := s.conns[c];
    && FieldsOk(k)
    && HolderAttended(k, c, s.threads)
    && StateAttended(k, c, s.threads)
    && SnapshotOk(k, s.snapped)
  }

  predicate ThreadInv(s: Server, t: nat)
    requires t in s.threads
  {
    var pc := s.threads[t];
    OnConn(pc) ==> pc.c in s.conns && ThreadOk(s.conns[pc.c], t, pc)
  }

  function Unreturned(conns: map<nat, Conn>): set<nat> {
    set c | c in conns && !conns[c].holder.Returned?
  }

  predicate Inv(s: Server, max: int) {
    && (forall c | c in s.conns :: ConnInv(s, c))
    && (forall t | t in s.threads :: ThreadInv(s, t))
    && s.total == |Unreturned(s.conns)|
    && (s.total <= max || s.total == 0)
    && (forall t | t in s.threads && s.threads[t].Swapping? :: s.threads[t].seen < max)
    && (s.snapped != {} ==> s.closing)
  }

  // --- One connection, one thread ---

  /** What a step of thread `t` may do to a connection that other threads use too. */
  predicate Polite(k: Conn, k': Conn, t: nat) {
    && (k'.state == k.state || (k.state == New && k.holder == Allocator(t)) || (k.state != New && k'.state != New))
    && (k.state != Opened && k.state != New ==> k'.state != Opened && k'.state != New)
    && (k'.holder == k.holder || k.holder == Allocator(t) || k.holder == Table || k.holder == Remover(t))
    && (k'.locked == k.locked || k.holder == Allocator(t))
    && (k'.hanger == k.hanger || k.hanger == None)
    && (k'.winner == k.winner || k.winner == None)
    && (k'.bodies == k.bodies || (k.winner == Some(t) && !k.locked))
  }

  lemma PoliteToOthers(k: Conn, k': Conn, t: nat, other: nat, pc: Pc)
    requires Polite(k, k', t) && other != t && OnConn(pc) && ThreadOk(k, other, pc)
    ensures ThreadOk(k', other, pc)
  {
  }

  /** The premises of every step of a thread on its connection. */
  predicate Ready(k: Conn, t: nat, pc: Pc) {
    OnConn(pc) && ThreadOk(k, t, pc) && FieldsOk(k) && (NeedsLock(pc) ==> !k.locked)
  }

  lemma StepIsPolite(k: Conn, closing: bool, t: nat, pc: Pc)
    requires Ready(k, t, pc)
    ensures Polite(k, ConnAfter(k, closing, t, pc), t)
  {
  }

  lemma StepKeepsFields(k: Conn, closing: bool, t: nat, pc: Pc)
    requires Ready(k, t, pc)
    ensures FieldsOk(ConnAfter(k, closing, t, pc))
  {
  }

  /** The thread goes on with what its next step relies on. */
  lemma StepKeepsThread(k: Conn, closing: bool, t: nat, pc: Pc)
    requires Ready(k, t, pc)
    ensures var pc' := PcAfter(k, closing, pc);
            pc'.Some? ==> OnConn(pc'.value) && pc'.value.c == pc.c && ThreadOk(ConnAfter(k, closing, t, pc), t, pc'.value)
  {
  }

  /** Whatever the step leaves unfinished still has its thread. */
  lemma StepKeepsHolderAttended(k: Conn, closing: bool, t: nat, pc: Pc, threads: map<nat, Pc>)
    requires Ready(k, t, pc) && At(threads, t, pc) && HolderAttended(k, pc.c, threads)
    ensures HolderAttended(ConnAfter(k, closing, t, pc), pc.c, Moved(threads, t, PcAfter(k, closing, pc)))
  {
  }

  lemma StepKeepsStateAttended(k: Conn, closing: bool, t: nat, pc: Pc, threads: map<nat, Pc>)
    requires Ready(k, t, pc) && At(threads, t, pc) && StateAttended(k, pc.c, threads)
    ensures StateAttended(ConnAfter(k, closing, t, pc), pc.c, Moved(threads, t, PcAfter(k, closing, pc)))
  {
  }

  /** A connection the thread does not work on is attended as before. */
  lemma OthersAttended(k: Conn, c: nat, t: nat, pc: Option<Pc>, threads: map<nat, Pc>)
    requires HolderAttended(k, c, threads) && StateAttended(k, c, threads)
    requires t in threads && OnConn(threads[t]) ==> threads[t].c != c
    ensures HolderAttended(k, c, Moved(threads, t, pc)) && StateAttended(k, c, Moved(threads, t, pc))
  {
  }

  // --- The whole server ---

  /** Exactly the two refunding steps give a slot back. */
  lemma RefundSteps(k: Conn, closing: bool, t: nat, pc: Pc)
    requires OnConn(pc) && ThreadOk(k, t, pc) && FieldsOk(k)
    ensures pc.Refunding? || pc.Removed? ==> !k.holder.Returned? && ConnAfter(k, closing, t, pc).holder.Returned?
    ensures !(pc.Refunding? || pc.Removed?) ==>
              (ConnAfter(k, closing, t, pc).holder.Returned? <==> k.holder.Returned?)
  {
  }

  lemma TotalFollows(s: Server, max: int, t: nat)
    requires Inv(s, max) && t in s.threads && OnConn(s.threads[t]) && s.threads[t].c in s.conns
    ensures Working(s, t).total == |Unreturned(Working(s, t).conns)| <= s.total
  {
    var pc := s.threads[t];
    assert ThreadInv(s, t) && ConnInv(s, pc.c);
    RefundSteps(s.conns[pc.c], s.closing, t, pc);
    UnreturnedAfter(s.conns, pc.c, ConnAfter(s.conns[pc.c], s.closing, t, pc));
  }

  lemma UnreturnedAfter(conns: map<nat, Conn>, c: nat, k: Conn)
    ensures |Unreturned(conns[c := k])| == |Unreturned(conns)|
                                           - (if c in conns && !conns[c].holder.Returned? then 1 else 0)
                                           + (if k.holder.Returned? then 0 else 1)
  {
    var before, after := Unreturned(conns), Unreturned(conns[c := k]);
    assert after - {c} == before - {c};
    assert c in before ==> |before - {c}| == |before| - 1;
    assert c !in before ==> before - {c} == before;
    assert c in after ==> |after - {c}| == |after| - 1;
    assert c !in after ==> after - {c} == after;
  }

  lemma WorkingKeepsConn(s: Server, max: int, t: nat, c: nat)
    requires Inv(s, max) && Enabled(s, Advance(t)) && OnConn(s.threads[t]) && c in s.conns
    ensures ConnInv(Working(s, t), c)
  {
    var pc := s.threads[t];
    var k := s.conns[c];
    assert ThreadInv(s, t) && ConnInv(s, c);
    if c == pc.c {
      StepKeepsFields(k, s.closing, t, pc);
      StepKeepsHolderAttended(k, s.closing, t, pc, s.threads);
      StepKeepsStateAttended(k, s.closing, t, pc, s.threads);
      assert SnapshotOk(ConnAfter(k, s.closing, t, pc), s.snapped);
    } else {
      OthersAttended(k, c, t, PcAfter(s.conns[pc.c], s.closing, pc), s.threads);
    }
  }

  lemma WorkingKeepsThread(s: Server, max: int, t: nat, other: nat)
    requires Inv(s, max) && Enabled(s, Advance(t)) && OnConn(s.threads[t]) && other in Working(s, t).threads
    ensures ThreadInv(Working(s, t), other)
  {
    var pc := s.threads[t];
    var k := s.conns[pc.c];
    assert ThreadInv(s, t) && ConnInv(s, pc.c);
    if other == t {
      StepKeepsThread(k, s.closing, t, pc);
    } else {
      assert ThreadInv(s, other);
      if OnConn(s.threads[other]) && s.threads[other].c == pc.c {
        StepIsPolite(k, s.closing, t, pc);
        PoliteToOthers(k, ConnAfter(k, s.closing, t, pc), t, other, s.threads[other]);
      }
    }
  }

  lemma WorkingKeeps(s: Server, max: int, t: nat)
    requires Inv(s, max) && Enabled(s, Advance(t)) && OnConn(s.threads[t])
    ensures Inv(Working(s, t), max)
  {
    var s' := Working(s, t);
    forall c | c in s'.conns ensures ConnInv(s', c) {
      WorkingKeepsConn(s, max, t, c);
    }
    forall other | other in s'.threads ensures ThreadInv(s', other) {
      WorkingKeepsThread(s, max, t, other);
    }
    TotalFollows(s, max, t);
    assert ThreadInv(s, t) && ConnInv(s, s.threads[t].c);
    StepKeepsThread(s.conns[s.threads[t].c], s.closing, t, s.threads[t]);
  }

  lemma ConnsKeep(s: Server, max: int, t: nat, pc: Option<Pc>, c: nat)
    requires Inv(s, max) && (t in s.threads ==> !OnConn(s.threads[t])) && c in s.conns
    ensures ConnInv(s.(threads := Moved(s.threads, t, pc)), c)
  {
    assert ConnInv(s, c);
    OthersAttended(s.conns[c], c, t, pc, s.threads);
  }

  /** Threads that hold nothing come and go without anyone noticing. */
  lemma ThreadsKeep(s: Server, max: int, t: nat, pc: Option<Pc>)
    requires Inv(s, max) && (t in s.threads ==> !OnConn(s.threads[t]))
    requires pc.Some? && OnConn(pc.value) ==> pc.value.c in s.conns && ThreadOk(s.conns[pc.value.c], t, pc.value)
    requires pc.Some? && pc.value.Swapping? ==> pc.value.seen < max
    ensures Inv(s.(threads := Moved(s.threads, t, pc)), max)
  {
    var s' := s.(threads := Moved(s.threads, t, pc));
    forall c | c in s'.conns ensures ConnInv(s', c) {
      ConnsKeep(s, max, t, pc, c);
    }
    forall u | u in s'.threads ensures ThreadInv(s', u) {
      assert u != t ==> ThreadInv(s, u);
    }
  }

  lemma SwappedKeepsConn(s: Server, max: int, t: nat, c: nat, part: nat, d: nat)
    requires Inv(s, max) && Enabled(s, Swap(t, c, part)) && s.total == s.threads[t].seen
    requires d in Swapped(s, t, c, part).conns
    ensures ConnInv(Swapped(s, t, c, part), d)
  {
    if d != c {
      ConnsKeep(s, max, t, Some(Initing(c)), d);
    } else {
      assert At(Swapped(s, t, c, part).threads, t, Initing(c));
    }
  }

  lemma SwappedKeepsThread(s: Server, max: int, t: nat, c: nat, part: nat, u: nat)
    requires Inv(s, max) && Enabled(s, Swap(t, c, part)) && s.total == s.threads[t].seen
    requires u in Swapped(s, t, c, part).threads
    ensures ThreadInv(Swapped(s, t, c, part), u)
  {
    assert u != t ==> ThreadInv(s, u);
  }

  lemma SwappedKeeps(s: Server, max: int, t: nat, c: nat, part: nat)
    requires Inv(s, max) && Enabled(s, Swap(t, c, part)) && s.total == s.threads[t].seen
    ensures Inv(Swapped(s, t, c, part), max)
  {
    var s' := Swapped(s, t, c, part);
    forall d | d in s'.conns ensures ConnInv(s', d) {
      SwappedKeepsConn(s, max, t, c, part, d);
    }
    forall u | u in s'.threads ensures ThreadInv(s', u) {
      SwappedKeepsThread(s, max, t, c, part, u);
    }
    UnreturnedAfter(s.conns, c, NewConn(t, part));
  }

  lemma SnapshotKeeps(s: Server, max: int, p: nat)
    requires Inv(s, max) && Enabled(s, Snapshot(p))
    ensures Inv(s.(conns := Listed(s.conns, p), snapped := s.snapped + {p}), max)
  {
    var s' := s.(conns := Listed(s.conns, p), snapped := s.snapped + {p});
    forall c | c in s'.conns ensures ConnInv(s', c) {
      assert ConnInv(s, c);
    }
    forall u | u in s'.threads ensures ThreadInv(s', u) {
      assert ThreadInv(s, u);
    }
    assert Unreturned(s'.conns) == Unreturned(s.conns);
  }

  lemma ShutdownKeeps(s: Server, max: int)
    requires Inv(s, max)
    ensures Inv(s.(closing := true), max)
  {
    var s' := s.(closing := true);
    assert forall c | c in s.conns :: ConnInv(s, c) ==> ConnInv(s', c);
    assert forall t | t in s.threads :: ThreadInv(s, t) ==> ThreadInv(s', t);
  }

  lemma StepKeeps(s: Server, max: int, step: Step)
    requires Inv(s, max) && Enabled(s, step)
    ensures Inv(Next(s, max, step), max)
  {
    match step
    case Accept(t) => ThreadsKeep(s, max, t, Some(Starting));
    case Swap(t, c, part) =>
      if s.total == s.threads[t].seen {
        SwappedKeeps(s, max, t, c, part);
      } else {
        ThreadsKeep(s, max, t, Some(Starting));
      }
    case Advance(t) =>
      if OnConn(s.threads[t]) {
        WorkingKeeps(s, max, t);
      } else {
        ThreadsKeep(s, max, t, None);
        ThreadsKeep(s, max, t, Some(Loading));
        if s.total < max {
          ThreadsKeep(s, max, t, Some(Swapping(s.total)));
        }
      }
    case Close(t, c, force) =>
      ThreadsKeep(s, max, t, Some(if force then FromOpened(c, true) else Hanging(c)));
    case BeginShutdown => ShutdownKeeps(s, max);
    case Snapshot(p) => SnapshotKeeps(s, max, p);
  }

  lemma {:induction false} RunKeeps(max: int, steps: seq<Step>)
    ensures Inv(Run(max, steps), max)
  {
    if steps == [] {
      assert Unreturned(START.conns) == {};
    } else {
      var s := Run(max, steps[..|steps| - 1]);
      RunKeeps(max, steps[..|steps| - 1]);
      if Enabled(s, steps[|steps| - 1]) {
        StepKeeps(s, max, steps[|steps| - 1]);
      }
    }
  }

  // --- What the manager promises ---

  function Registered(s: Server): set<nat> {
    set c | c in s.conns && s.conns[c].registered
  }

  /** Connections whose slot some thread still has to settle. */
  function Unresolved(s: Server): set<nat> {
    set c | c in s.conns && (s.conns[c].holder.Allocator? || s.conns[c].holder.Remover?)
  }

  lemma SplitByHolder(s: Server)
    requires forall c | c in s.conns :: c in Registered(s) <==> s.conns[c].holder == Table
    ensures |Unreturned(s.conns)| == |Registered(s)| + |Unresolved(s)|
  {
    assert Unreturned(s.conns) == Registered(s) + Unresolved(s);
    assert Registered(s) !! Unresolved(s);
  }

  lemma TotalSplits(s: Server, max: int)
    requires Inv(s, max)
    ensures s.total == |Registered(s)| + |Unresolved(s)|
  {
    forall c | c in s.conns
      ensures c in Registered(s) <==> s.conns[c].holder == Table
    {
      assert ConnInv(s, c);
    }
    SplitByHolder(s);
  }

  /**
    In every run the total is the registered connections and the unresolved ones and stays
    within the limit; no slot is given back twice, no close body runs twice; and once a
    partition is in the shutdown snapshot, whatever is registered in it was listed.
  */
  lemma SlotsHold(max: int, steps: seq<Step>)
    ensures var s := Run(max, steps);
            && s.total == |Registered(s)| + |Unresolved(s)|
            && (s.total <= max || s.total == 0)
            && (forall c | c in s.conns ::
                  && s.conns[c].refunds <= 1
                  && s.conns[c].bodies <= 1
                  && (s.conns[c].registered && s.conns[c].part in s.snapped ==> s.conns[c].listed))
  {
    var s := Run(max, steps);
    RunKeeps(max, steps);
    TotalSplits(s, max);
    forall c | c in s.conns
      ensures && s.conns[c].refunds <= 1 && s.conns[c].bodies <= 1
              && (s.conns[c].registered && s.conns[c].part in s.snapped ==> s.conns[c].listed)
    {
      assert ConnInv(s, c);
    }
  }

  /** Shutdown is over: every partition was listed, every listed connection closed, every thread returned. */
  predicate Finished(s: Server) {
    && (forall p | 0 <= p < PARTITIONS :: p in s.snapped)
    && (forall c | c in s.conns && s.conns[c].listed :: s.conns[c].tried)
    && s.threads == map[]
  }

  /** No connection escapes a shutdown: all slots are back, once each, and every close body ran once. */
  lemma NothingEscapes(max: int, steps: seq<Step>)
    requires Finished(Run(max, steps))
    ensures var s := Run(max, steps);
            && s.total == 0 && Registered(s) == {}
            && forall c | c in s.conns :: s.conns[c].refunds == 1 && s.conns[c].bodies == 1 && s.conns[c].state == Closed
  {
    var s := Run(max, steps);
    RunKeeps(max, steps);
    forall c | c in s.conns ensures s.conns[c].holder.Returned? && s.conns[c].bodies == 1 && s.conns[c].state == Closed {
      assert ConnInv(s, c);
      assert s.conns[c].part in s.snapped;
    }
    assert Unreturned(s.conns) == {};
    forall c | c in s.conns ensures s.conns[c].refunds == 1 && !s.conns[c].registered {
      assert ConnInv(s, c);
    }
  }

  // --- Operations that nothing interrupts ---

  predicate Link(path: seq<Server>, max: int, t: nat, i: nat)
    requires 0 < i < |path|
  {
    Enabled(path[i - 1], Advance(t)) && path[i] == Next(path[i - 1], max, Advance(t))
  }

  /** Only thread `t` moves from state to state. */
  predicate Alone(path: seq<Server>, max: int, t: nat) {
    |path| > 0 && forall i | 0 < i < |path| :: Link(path, max, t, i)
  }

  function Last(path: seq<Server>): Server
    requires path != []
  {
    path[|path| - 1]
  }

  lemma Extend(path: seq<Server>, max: int, t: nat, s': Server) returns (longer: seq<Server>)
    requires Alone(path, max, t) && Enabled(Last(path), Advance(t)) && s' == Next(Last(path), max, Advance(t))
    ensures Alone(longer, max, t) && longer[0] == path[0] && Last(longer) == s'
  {
    longer := path + [s'];
    forall i | 0 < i < |longer| ensures Link(longer, max, t, i) {
      assert i < |path| ==> Link(path, max, t, i);
    }
  }

  /** The server with thread `t` at `pc`, and its connection `k`. */
  function On(s: Server, t: nat, k: Conn, pc: Pc): Server
    requires OnConn(pc)
  {
    s.(conns := s.conns[pc.c := k], threads := s.threads[t := pc])
  }

  /** The thread goes on. */
  lemma Turn(path: seq<Server>, max: int, s: Server, t: nat, k: Conn, pc: Pc, k': Conn, pc': Pc) returns (longer: seq<Server>)
    requires OnConn(pc) && OnConn(pc') && (NeedsLock(pc) ==> !k.locked)
    requires PcAfter(k, s.closing, pc) == Some(pc') && pc'.c == pc.c && ConnAfter(k, s.closing, t, pc) == k'
    requires Alone(path, max, t) && Last(path) == On(s, t, k, pc)
    ensures Alone(longer, max, t) && longer[0] == path[0]
    ensures Last(longer) == On(s.(total := TotalAfter(s.total, pc)), t, k', pc')
  {
    assert s.conns[pc.c := k][pc.c := k'] == s.conns[pc.c := k'];
    assert s.threads[t := pc][t := pc'] == s.threads[t := pc'];
    longer := Extend(path, max, t, On(s.(total := TotalAfter(s.total, pc)), t, k', pc'));
  }

  /** The thread returns. */
  lemma Return(path: seq<Server>, max: int, s: Server, t: nat, k: Conn, pc: Pc, k': Conn) returns (longer: seq<Server>)
    requires t !in s.threads && OnConn(pc) && (NeedsLock(pc) ==> !k.locked)
    requires PcAfter(k, s.closing, pc) == None && ConnAfter(k, s.closing, t, pc) == k'
    requires Alone(path, max, t) && Last(path) == On(s, t, k, pc)
    ensures Alone(longer, max, t) && longer[0] == path[0]
    ensures Last(longer) == s.(total := TotalAfter(s.total, pc), conns := s.conns[pc.c := k'])
  {
    assert s.conns[pc.c := k][pc.c := k'] == s.conns[pc.c := k'];
    assert s.threads[t := pc] - {t} == s.threads;
    longer := Extend(path, max, t, s.(total := TotalAfter(s.total, pc), conns := s.conns[pc.c := k']));
  }

  /** An attempt that finds the server closing, or full, gives up; any other comes to its compare-and-swap. */
  lemma ReserveAlone(s: Server, max: int, t: nat)
    requires t !in s.threads
    ensures var tried := Next(Next(Next(s, max, Accept(t)), max, Advance(t)), max, Advance(t));
            tried == if s.closing || s.total >= max then s else s.(threads := s.threads[t := Swapping(s.total)])
  {
    assert s.threads[t := Starting] - {t} == s.threads;
    assert s.threads[t := Starting][t := Loading] - {t} == s.threads;
    assert s.threads[t := Starting][t := Loading][t := Swapping(s.total)] == s.threads[t := Swapping(s.total)];
  }

  function Accepted(part: nat): Conn {
    Conn(Opened, part, true, false, true, true, false, false, Table, 0, 0, None, None)
  }

  lemma SwapWins(s: Server, max: int, t: nat, c: nat, part: nat)
    requires c !in s.conns && part < PARTITIONS
    ensures Next(s.(threads := s.threads[t := Swapping(s.total)]), max, Swap(t, c, part)) ==
            On(s.(total := s.total + 1), t, NewConn(t, part), Initing(c))
  {
    assert s.threads[t := Swapping(s.total)][t := Initing(c)] == s.threads[t := Initing(c)];
  }

  /** A connection that gets through while the server is open ends registered and counted; nothing else changes. */
  lemma AcceptAlone(s: Server, max: int, t: nat, c: nat, part: nat) returns (path: seq<Server>)
    requires t !in s.threads && c !in s.conns && part < PARTITIONS && !s.closing && s.total < max
    ensures Alone(path, max, t)
    ensures path[0] == Next(s.(threads := s.threads[t := Swapping(s.total)]), max, Swap(t, c, part))
    ensures Last(path) == s.(total := s.total + 1, conns := s.conns[c := Accepted(part)])
  {
    SwapWins(s, max, t, c, part);
    var counted, k := s.(total := s.total + 1), NewConn(t, part);
    var open := k.(state := Opened, live := true);
    path := [On(counted, t, k, Initing(c))];
    path := Turn(path, max, counted, t, k, Initing(c), open, Checking(c));
    path := Turn(path, max, counted, t, open, Checking(c), open.(locked := true), Storing(c));
    path := Return(path, max, counted, t, open.(locked := true), Storing(c), Accepted(part));
  }

  /** What is left of a connection once its close is over. */
  function ClosedBy(k: Conn, t: nat): Conn {
    k.(state := Closed, winner := Some(t), live := false, bodies := k.bodies + 1,
       registered := false, holder := Returned(t), refunds := k.refunds + 1)
  }

  /** From the winning compare-and-swap on: the close body, the removal from the table, the refund. */
  lemma ClosingAlone(begun: seq<Server>, max: int, s: Server, t: nat, c: nat, k: Conn) returns (path: seq<Server>)
    requires t !in s.threads && k.live && !k.locked && k.registered && k.state == Closed && k.winner == Some(t)
    requires Alone(begun, max, t) && Last(begun) == On(s, t, k, Won(c, true))
    ensures Alone(path, max, t) && path[0] == begun[0]
    ensures Last(path) == s.(total := s.total - 1, conns := s.conns[c := ClosedBy(k, t)])
  {
    var shut := k.(live := false, bodies := k.bodies + 1);
    var removed := shut.(registered := false, holder := Remover(t));
    path := Turn(begun, max, s, t, k, Won(c, true), shut, Shut(c, true));
    path := Turn(path, max, s, t, shut, Shut(c, true), removed, Removed(c));
    path := Return(path, max, s, t, removed, Removed(c), ClosedBy(k, t));
  }

  lemma CloseStarts(s: Server, max: int, t: nat, c: nat, force: bool)
    requires t !in s.threads && c in s.conns && s.conns[c].state != New
    ensures Next(s, max, Close(t, c, force)) == On(s, t, s.conns[c], if force then FromOpened(c, true) else Hanging(c))
  {
    assert s.conns[c := s.conns[c]] == s.conns;
  }

  /** A forced close of an open connection closes it, takes it out of the table and gives its slot back. */
  lemma ForceCloseAlone(s: Server, max: int, t: nat, c: nat) returns (path: seq<Server>)
    requires t !in s.threads && c in s.conns
    requires var k := s.conns[c]; k.state == Opened && k.live && !k.locked && k.registered
    ensures Alone(path, max, t) && path[0] == Next(s, max, Close(t, c, true))
    ensures Last(path) == s.(total := s.total - 1, conns := s.conns[c := ClosedBy(s.conns[c], t)])
  {
    var k := s.conns[c];
    var won := k.(state := Closed, winner := Some(t));
    CloseStarts(s, max, t, c, true);
    path := [On(s, t, k, FromOpened(c, true))];
    path := Turn(path, max, s, t, k, FromOpened(c, true), won, Won(c, true));
    path := ClosingAlone(path, max, s, t, c, won);
  }

  /** A graceful close hangs the connection, lets the queued writes out, wins the close and ends as a forced one does. */
  lemma GraceCloseAlone(s: Server, max: int, t: nat, c: nat) returns (path: seq<Server>)
    requires t !in s.threads && c in s.conns
    requires var k := s.conns[c]; k.state == Opened && k.live && !k.locked && k.registered
    ensures Alone(path, max, t) && path[0] == Next(s, max, Close(t, c, false))
    ensures Last(path) == s.(total := s.total - 1,
                             conns := s.conns[c := ClosedBy(s.conns[c], t).(hanger := Some(t), tried := true)])
  {
    var k := s.conns[c];
    var hanged := k.(state := Hanged, hanger := Some(t), tried := true);
    var won := hanged.(state := Closed, winner := Some(t));
    CloseStarts(s, max, t, c, false);
    path := [On(s, t, k, Hanging(c))];
    path := Turn(path, max, s, t, k, Hanging(c), hanged, Signalling(c));
    path := Turn(path, max, s, t, hanged, Signalling(c), hanged, Draining(c));
    path := Turn(path, max, s, t, hanged, Draining(c), won, Won(c, true));
    path := ClosingAlone(path, max, s, t, c, won);
  }

  lemma RefundAlone(s: Server, max: int, t: nat, c: nat, k: Conn) returns (path: seq<Server>)
    requires s.closing
    ensures Alone(path, max, t) && path[0] == On(s, t, k, Storing(c))
    ensures Last(path) == On(s.(total := s.total - 1), t,
                             k.(locked := false, refunds := k.refunds + 1, holder := Returned(t)), FromOpened(c, false))
  {
    var free := k.(locked := false);
    path := [On(s, t, k, Storing(c))];
    path := Turn(path, max, s, t, k, Storing(c), free, Refunding(c, true));
    path := Turn(path, max, s, t, free, Refunding(c, true), free.(refunds := k.refunds + 1, holder := Returned(t)),
                 FromOpened(c, false));
  }

  /** A connection the shutdown overtakes before it is stored is refused: its slot comes back and it is closed. */
  lemma RefusedAlone(s: Server, max: int, t: nat, c: nat, k: Conn) returns (path: seq<Server>)
    requires t !in s.threads && s.closing && k.state == Opened && k.live && k.locked && k.holder == Allocator(t) && !k.registered
    ensures Alone(path, max, t) && path[0] == On(s, t, k, Storing(c))
    ensures Last(path) == s.(total := s.total - 1, conns := s.conns[c := ClosedBy(k.(locked := false), t)])
  {
    var counted, refunded := s.(total := s.total - 1), k.(locked := false, refunds := k.refunds + 1, holder := Returned(t));
    var won, shut := refunded.(state := Closed, winner := Some(t)), ClosedBy(k.(locked := false), t);
    path := RefundAlone(s, max, t, c, k);
    path := Turn(path, max, counted, t, refunded, FromOpened(c, false), won, Won(c, false));
    path := Turn(path, max, counted, t, won, Won(c, false), shut, Shut(c, false));
    path := Return(path, max, counted, t, shut, Shut(c, false), shut);
  }

  /** A compare-and-swap that lost to another makes the attempt start over, with nothing taken. */
  lemma LostSwapStartsOver(s: Server, max: int, t: nat, c: nat, part: nat)
    requires Enabled(s, Swap(t, c, part)) && s.total != s.threads[t].seen
    ensures Next(s, max, Swap(t, c, part)) == Next(s.(threads := s.threads - {t}), max, Accept(t))
  {
    assert (s.threads - {t})[t := Starting] == s.threads[t := Starting];
  }

  /** A connection that was closed before it could be stored: its slot comes back, and it is closed by nobody else. */
  lemma ClosedTooEarly(s: Server, max: int, t: nat, c: nat, k: Conn) returns (path: seq<Server>)
    requires t !in s.threads && k.state != Opened && !k.locked
    ensures Alone(path, max, t) && path[0] == On(s, t, k, Checking(c))
    ensures Last(path) == s.(total := s.total - 1, conns := s.conns[c := k.(refunds := k.refunds + 1, holder := Returned(t))])
  {
    path := [On(s, t, k, Checking(c))];
    path := Turn(path, max, s, t, k, Checking(c), k, Refunding(c, false));
    path := Return(path, max, s, t, k, Refunding(c, false), k.(refunds := k.refunds + 1, holder := Returned(t)));
  }

  /** A graceful close of a connection that is closing already ends at once. */
  lemma GraceCloseTwice(s: Server, max: int, t: nat, c: nat) returns (path: seq<Server>)
    requires t !in s.threads && c in s.conns && s.conns[c].state in {Hanged, Closed}
    ensures Alone(path, max, t) && path[0] == Next(s, max, Close(t, c, false))
    ensures Last(path) == s.(conns := s.conns[c := s.conns[c].(tried := true)])
  {
    CloseStarts(s, max, t, c, false);
    path := [On(s, t, s.conns[c], Hanging(c))];
    path := Return(path, max, s, t, s.conns[c], Hanging(c), s.conns[c].(tried := true));
  }

  /** A shutdown can begin at any time; a snapshot of a partition then lists what is registered in it, and nothing more. */
  lemma ShutdownLists(s: Server, max: int, p: nat, c: nat)
    requires p < PARTITIONS
    ensures var closing := Next(s, max, BeginShutdown);
            var listing := Next(closing, max, Snapshot(p));
            && closing == s.(closing := true)
            && listing == closing.(conns := listing.conns, snapped := s.snapped + {p})
            && listing.conns.Keys == s.conns.Keys
            && (c in s.conns ==>
                  var k := s.conns[c];
                  listing.conns[c] == k.(listed := k.listed || (k.registered && k.part == p)))
  {
  }

  /** There are ten partitions, and before a shutdown none is listed. */
  lemma NothingListedBefore(s: Server, max: int, p: nat)
    requires !s.closing || p >= 10
    ensures Next(s, max, Snapshot(p)) == s
  {
  }
}
