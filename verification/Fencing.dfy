/**
  Token checks at nodes and gates, and every run of the Redis store under them.

  The cluster holds one hash per UID, any number of gates and nodes, and any number of
  clients in the middle of an acquire. Clients race for ranges, crash, release; hashes
  get lost completely; requests and pushes are checked against the store at any time.
*/
module Fencing {
  import opened Prelude
  import opened Decimal
  import opened Ownership
  import opened RedisStore

  type CurrentReply = Result<Option<Token>, StoreError>

  datatype Verdict = Pass | Stale | Failed(error: StoreError)

  datatype Request = Request(gid: string, uid: int, token: Token)

  /** `Router.validateSession`. */
  function ValidateSession(req: Request, stateful: bool, hasStore: bool, current: int -> CurrentReply): Verdict {
    if !stateful || req.gid == "" || !hasStore then Pass
    else if req.uid <= 0 || req.token.uid != req.uid || req.token.generation == 0 then Stale
    else CompareWithStore(req.token, current(req.uid))
  }

  function CompareWithStore(token: Token, current: CurrentReply): Verdict {
    match current
    case Err(e) => Failed(e)
    case Ok(owner) => if owner == Some(token) then Pass else Stale
  }

  datatype Kind = ByConn | ByUser | Unknown

  /** The token check shared by the provider's `DisconnectCurrent` and its fenced `Push`. */
  function GateCheck(kind: Kind, target: int, token: Token, hasStore: bool, current: int -> CurrentReply): Verdict {
    if kind == Unknown || token.uid <= 0 || token.generation == 0 then Stale
    else if kind == ByUser && target != token.uid then Stale
    else if !hasStore then Pass
    else CompareWithStore(token, current(token.uid))
  }

  /** `Push` without a token is not fenced at all. */
  function PushCheck(kind: Kind, target: int, token: Token, hasStore: bool, current: int -> CurrentReply): Verdict {
    if token == ZERO_TOKEN then Pass else GateCheck(kind, target, token, hasStore, current)
  }

  // --- One UID ---

  datatype Reservation = Reservation(client: nat, floor: nat, first: nat, last: nat)

  /**
    `reserved` is the end of the highest range the allocator has committed, `pending` the
    reservation whose client holds the UID lock, `floors` the clients that were told to
    fetch a range.
  */
  datatype UserStore = UserStore(
    fields: Fields,
    reserved: nat,
    pending: Option<Reservation>,
    floors: map<nat, nat>,
    log: seq<Event>)

  const FRESH := UserStore(EMPTY, 0, None, map[], [])

  datatype Step =
    | Acquire(client: nat)
    | Reserve(client: nat, first: nat, last: nat)
    | Initialize
    | GiveUp(client: nat)
    | Release(generation: nat)
    | LoseHash

  /** The allocator's contract is the last conjunct of `Reserve`: a range above every earlier one. */
  predicate Enabled(u: UserStore, s: Step) {
    match s
    case Acquire(c) => c !in u.floors && (u.pending.Some? ==> u.pending.value.client != c)
    case Reserve(c, first, last) => c in u.floors && u.pending.None? && first > u.reserved
    case Initialize => u.pending.Some?
    case GiveUp(_) => true
    case Release(_) => true
    case LoseHash => true
  }

  function Max(a: nat, b: nat): nat {
    if a < b then b else a
  }

  /** The guard of the range callback in `Store.Acquire`. */
  predicate RangeUnusable(r: Reservation) {
    r.first <= r.floor || r.first == 0 || r.last < r.first || r.last > MAX_INT64
  }

  function Initialized(u: UserStore, outcome: (Fields, ScriptReply)): UserStore {
    if outcome.1.ScriptError? then u.(pending := None)
    else
      match DecodeRangeReply(outcome.1.values) {
        case Err(_) => u.(fields := outcome.0, pending := None)
        case Ok(RangeReply(g, _)) => u.(fields := outcome.0, pending := None, log := u.log + [Issued(g)])
      }
  }

  function Next(u: UserStore, s: Step): UserStore {
    match s
    case Acquire(c) =>
      var (f, reply) := AcquireScript(u.fields);
      if reply.ScriptError? then u
      else
        match DecodeRangeReply(reply.values) {
          case Err(_) => u.(fields := f)
          case Ok(RangeReply(g, needRange)) =>
            if !needRange then u.(fields := f, log := u.log + [Issued(g)])
            else if g == MAX_INT64 then u.(fields := f)
            else u.(fields := f, floors := u.floors[c := g])
        }
    case Reserve(c, first, last) =>
      if c in u.floors then
        u.(reserved := Max(u.reserved, last),
           pending := Some(Reservation(c, u.floors[c], first, last)),
           floors := u.floors - {c})
      else u
    case Initialize =>
      if u.pending.None? || RangeUnusable(u.pending.value) then u.(pending := None)
      else
        Initialized(u, InitializeScript(u.fields, FormatUint(u.pending.value.first), FormatUint(u.pending.value.last)))
    case GiveUp(c) =>
      u.(floors := u.floors - {c},
         pending := if u.pending.Some? && u.pending.value.client == c then None else u.pending)
    case Release(g) =>
      var (f, released) := ReleaseScript(u.fields, FormatUint(g));
      if released then u.(fields := f, log := u.log + [Freed(g)]) else u.(fields := f)
    case LoseHash => u.(fields := EMPTY, log := u.log + [Lost])
  }

  predicate Inv(u: UserStore) {
    && Sound(u.fields) && LawfulLog(u.log)
    && var l := Replay(u.log);
    && l.owner == Owner(u.fields)
    && (u.fields != EMPTY ==> Generation(u.fields) == l.newest)
    && l.newest <= u.reserved && l.newest <= MAX_INT64
    && RangeEnd(u.fields) <= u.reserved
    && (forall c | c in u.floors :: u.floors[c] <= l.newest)
    && (u.pending.Some? ==>
          var r := u.pending.value;
          r.floor <= l.newest < r.first && RangeEnd(u.fields) < r.first && r.last <= u.reserved)
  }

  lemma AcquireKeeps(u: UserStore, c: nat)
    requires Inv(u)
    ensures Inv(Next(u, Acquire(c)))
  {
    AcquireMeaning(u.fields);
    SoundIsReadable(u.fields);
    if Generation(u.fields) < RangeEnd(u.fields) {
      LogGrows(u.log, Issued(Generation(u.fields) + 1));
    }
  }

  lemma InitializedKeeps(u: UserStore, outcome: (Fields, ScriptReply), g: nat)
    requires Inv(u) && Sound(outcome.0) && outcome.0 != EMPTY
    requires Generation(outcome.0) == g && Owner(outcome.0) == Some(g)
    requires Replay(u.log).newest < g <= RangeEnd(outcome.0) <= u.reserved && g <= MAX_INT64
    requires outcome.1.Values? && DecodeRangeReply(outcome.1.values) == Ok(RangeReply(g, false))
    ensures Inv(Initialized(u, outcome))
  {
    LogGrows(u.log, Issued(g));
  }

  lemma InitializeKeeps(u: UserStore)
    requires Inv(u) && Enabled(u, Initialize)
    ensures Inv(Next(u, Initialize))
  {
    var r := u.pending.value;
    SoundIsReadable(u.fields);
    if !RangeUnusable(r) {
      InitializeMeaning(u.fields, r.first, r.last);
      var g := if Generation(u.fields) < RangeEnd(u.fields) then Generation(u.fields) + 1 else r.first;
      InitializedKeeps(u, InitializeScript(u.fields, FormatUint(r.first), FormatUint(r.last)), g);
    }
  }

  lemma ReleaseKeeps(u: UserStore, g: nat)
    requires Inv(u)
    ensures Inv(Next(u, Release(g)))
    ensures Replay(u.log).newest != g ==> Next(u, Release(g)) == u
  {
    ReleaseMeaning(u.fields, g);
    OwnerIsNewest(u.log);
    if Owner(u.fields) == Some(g) {
      LogGrows(u.log, Freed(g));
    }
  }

  lemma StepKeeps(u: UserStore, s: Step)
    requires Inv(u) && Enabled(u, s)
    ensures Inv(Next(u, s))
  {
    match s
    case Acquire(c) => AcquireKeeps(u, c);
    case Reserve(_, _, _) =>
    case Initialize => InitializeKeeps(u);
    case GiveUp(_) =>
    case Release(g) => ReleaseKeeps(u, g);
    case LoseHash => LogGrows(u.log, Lost);
  }

  /**
    In no run do the checks that `Store.Acquire` makes on a script reply fire: the acquire
    reply always decodes, and when the callback's range guard passes, the initialise reply
    is a generation above the floor the client started from.
  */
  lemma RepliesAreNeverRefused(u: UserStore)
    requires Inv(u)
    ensures AcquireScript(u.fields).1.Values? && DecodeRangeReply(AcquireScript(u.fields).1.values).Ok?
    ensures u.pending.Some? && !RangeUnusable(u.pending.value) ==>
              var r := u.pending.value;
              var reply := InitializeScript(u.fields, FormatUint(r.first), FormatUint(r.last)).1;
              && reply.Values? && DecodeRangeReply(reply.values).Ok?
              && !DecodeRangeReply(reply.values).value.needRange
              && DecodeRangeReply(reply.values).value.generation > r.floor
    ensures u.pending.Some? ==> (RangeUnusable(u.pending.value) <==>
                                 u.pending.value.last < u.pending.value.first || u.pending.value.last > MAX_INT64)
  {
    AcquireMeaning(u.fields);
    SoundIsReadable(u.fields);
    if u.pending.Some? && !RangeUnusable(u.pending.value) {
      InitializeMeaning(u.fields, u.pending.value.first, u.pending.value.last);
    }
  }

  /** A range callback that the store accepts. */
  predicate Usable(u: UserStore) {
    u.pending.Some? && !RangeUnusable(u.pending.value)
  }

  /**
    What a step should add to the history: an acquire issues the next generation exactly while
    the hash has a range left; an initialise with a usable reservation issues, from the range in
    force or from its own; a release frees exactly the owner.
  */
  function StepEvents(u: UserStore, s: Step): seq<Event>
    requires Sound(u.fields)
  {
    var l, left := Replay(u.log), Generation(u.fields) < RangeEnd(u.fields);
    match s
    case Acquire(_) => if left then [Issued(l.newest + 1)] else []
    case Initialize => if !Usable(u) then [] else [Issued(if left then l.newest + 1 else u.pending.value.first)]
    case Release(g) => if l.owner == Some(g) then [Freed(g)] else []
    case LoseHash => [Lost]
    case _ => []
  }

  lemma AcquireIssues(u: UserStore, c: nat)
    requires Inv(u)
    ensures Next(u, Acquire(c)).log == u.log + StepEvents(u, Acquire(c))
  {
    SoundIsReadable(u.fields);
    AcquireMeaning(u.fields);
  }

  lemma InitializeIssues(u: UserStore)
    requires Inv(u) && u.pending.Some?
    ensures Next(u, Initialize).log == u.log + StepEvents(u, Initialize)
  {
    SoundIsReadable(u.fields);
    if Usable(u) {
      InitializeMeaning(u.fields, u.pending.value.first, u.pending.value.last);
    }
  }

  lemma StepMeaning(u: UserStore, s: Step)
    requires Inv(u) && Enabled(u, s)
    ensures Next(u, s).log == u.log + StepEvents(u, s)
  {
    match s
    case Acquire(c) => AcquireIssues(u, c);
    case Initialize => InitializeIssues(u);
    case Release(g) => ReleaseMeaning(u.fields, g);
    case _ =>
  }

  /**
    What can happen at any time: a release, the loss of the hash, a client giving up, after which
    it can start again. A client waiting for a range, or holding the lock, starts no second acquire.
  */
  lemma WhatCanHappen(u: UserStore, c: nat, g: nat)
    ensures Enabled(u, Release(g)) && Enabled(u, LoseHash) && Enabled(u, GiveUp(c))
    ensures Enabled(Next(u, GiveUp(c)), Acquire(c))
    ensures c in u.floors ==> !Enabled(u, Acquire(c))
    ensures u.pending.Some? ==> Enabled(u, Initialize) && !Enabled(u, Acquire(u.pending.value.client))
    ensures c in u.floors && u.pending.None? && u.reserved < g ==> Enabled(u, Reserve(c, g, g))
  {
  }

  /**
    What a client is told: without a range left its acquire leaves it with the hash's generation
    as the floor, unless that is MaxInt64; a reservation is then what it asked for, above that
    floor; after an initialise nobody holds the lock; a lost hash is empty and keeps its ranges.
  */
  lemma ClientMeaning(u: UserStore, s: Step)
    requires Inv(u) && Enabled(u, s)
    ensures var u' := Next(u, s);
            match s
            case Acquire(c) =>
              && u'.pending == u.pending && u'.reserved == u.reserved
              && u'.floors == (if Generation(u.fields) < RangeEnd(u.fields) || Generation(u.fields) == MAX_INT64 then u.floors
                               else u.floors[c := Generation(u.fields)])
            case Reserve(c, first, last) =>
              && u'.pending == Some(Reservation(c, u.floors[c], first, last)) && c !in u'.floors
              && u'.reserved >= u.reserved && u'.reserved >= last && u'.fields == u.fields
            case Initialize => u'.pending == None && (!Usable(u) ==> u'.fields == u.fields)
            case GiveUp(c) => c !in u'.floors && (u'.pending.Some? ==> u'.pending.value.client != c) && u'.fields == u.fields
            case Release(_) => u'.pending == u.pending && u'.floors == u.floors
            case LoseHash => u'.fields == EMPTY && u'.reserved == u.reserved && u'.pending == u.pending
  {
    SoundIsReadable(u.fields);
    match s
    case Acquire(_) => AcquireMeaning(u.fields);
    case Initialize =>
      if Usable(u) {
        InitializeMeaning(u.fields, u.pending.value.first, u.pending.value.last);
      }
    case Release(g) => ReleaseMeaning(u.fields, g);
    case _ =>
  }

  // --- The cluster ---

  datatype Action =
    | Store(uid: int, step: Step)
    | RouteRequest(node: nat, req: Request, stateful: bool)
    | Push(gate: nat, kind: Kind, target: int, token: Token)
    | DisconnectCurrent(gate: nat, kind: Kind, target: int, token: Token)

  type Cluster = map<int, UserStore>

  function UserOf(c: Cluster, uid: int): UserStore {
    if uid in c then c[uid] else FRESH
  }

  function CurrentIn(c: Cluster): int -> CurrentReply {
    (uid: int) => Current(UserOf(c, uid).fields, uid)
  }

  function Note(c: Cluster, uid: int, e: Event): Cluster {
    c[uid := UserOf(c, uid).(log := UserOf(c, uid).log + [e])]
  }

  predicate Possible(c: Cluster, a: Action) {
    a.Store? ==> a.uid > 0 && Enabled(UserOf(c, a.uid), a.step)
  }

  /**
    A request from a gate on a stateful route is executed, a frame with a token is sent and a
    connection is closed only after the check. A push without a token accepts no generation.
  */
  function Act(c: Cluster, a: Action): Cluster {
    match a
    case Store(uid, step) => c[uid := Next(UserOf(c, uid), step)]
    case RouteRequest(node, req, stateful) =>
      if stateful && req.gid != "" && ValidateSession(req, stateful, true, CurrentIn(c)) == Pass
      then Note(c, req.uid, Accepted(Node(node), req.token.generation))
      else c
    case Push(gate, kind, target, token) =>
      if token != ZERO_TOKEN && PushCheck(kind, target, token, true, CurrentIn(c)) == Pass
      then Note(c, token.uid, Accepted(Gate(gate), token.generation))
      else c
    case DisconnectCurrent(gate, kind, target, token) =>
      if GateCheck(kind, target, token, true, CurrentIn(c)) == Pass
      then Note(c, token.uid, Accepted(Gate(gate), token.generation))
      else c
  }

  predicate ClusterInv(c: Cluster) {
    forall uid | uid in c :: uid > 0 && Inv(c[uid])
  }

  /** A check passes exactly for the token of the newest generation that is still owned. */
  lemma CheckMeaning(c: Cluster, token: Token)
    requires ClusterInv(c) && token.uid > 0
    ensures CompareWithStore(token, CurrentIn(c)(token.uid)) == Pass <==>
            Replay(UserOf(c, token.uid).log).owner == Some(token.generation)
  {
    CurrentMeaning(UserOf(c, token.uid).fields, token.uid);
    assert Inv(FRESH);
  }

  function OwnerOf(c: Cluster, uid: int): Option<nat> {
    Replay(UserOf(c, uid).log).owner
  }

  /** A gate lets a token through exactly if it owns its user and the target is not another user. */
  predicate GateMayPass(c: Cluster, kind: Kind, target: int, token: Token) {
    && kind != Unknown && token.uid > 0 && (kind == ByUser ==> target == token.uid)
    && OwnerOf(c, token.uid) == Some(token.generation)
  }

  /** A node lets a request through exactly if its token owns the user it claims. */
  predicate NodeMayPass(c: Cluster, req: Request) {
    req.uid > 0 && req.token.uid == req.uid && OwnerOf(c, req.uid) == Some(req.token.generation)
  }

  lemma OwnersArePositive(c: Cluster, uid: int)
    requires ClusterInv(c)
    ensures OwnerOf(c, uid) != Some(0)
  {
    assert Inv(FRESH);
    OwnerIsNewest(UserOf(c, uid).log);
    SoundIsReadable(UserOf(c, uid).fields);
  }

  lemma GateCheckMeaning(c: Cluster, kind: Kind, target: int, token: Token)
    requires ClusterInv(c)
    ensures GateCheck(kind, target, token, true, CurrentIn(c)) == if GateMayPass(c, kind, target, token) then Pass else Stale
    ensures PushCheck(kind, target, token, true, CurrentIn(c)) ==
            if token == ZERO_TOKEN || GateMayPass(c, kind, target, token) then Pass else Stale
  {
    OwnersArePositive(c, token.uid);
    if token.uid > 0 {
      CheckMeaning(c, token);
      CurrentMeaning(UserOf(c, token.uid).fields, token.uid);
    }
  }

  lemma NodeCheckMeaning(c: Cluster, req: Request, stateful: bool)
    requires ClusterInv(c)
    ensures ValidateSession(req, stateful, true, CurrentIn(c)) ==
            if !stateful || req.gid == "" || NodeMayPass(c, req) then Pass else Stale
  {
    OwnersArePositive(c, req.uid);
    if req.uid > 0 && req.token.uid == req.uid {
      CheckMeaning(c, req.token);
      CurrentMeaning(UserOf(c, req.uid).fields, req.uid);
    }
  }

  /** Without a store, or when the store fails, a check still refuses what is malformed, and passes on the store's error. */
  lemma CheckWithoutAnswer(kind: Kind, target: int, req: Request, current: int -> CurrentReply, e: StoreError)
    ensures var token := req.token;
            var formed := kind != Unknown && token.uid > 0 && token.generation > 0 && (kind == ByUser ==> target == token.uid);
            && (GateCheck(kind, target, token, false, current) == if formed then Pass else Stale)
            && (GateCheck(kind, target, token, true, current) == Failed(e) <==> formed && current(token.uid) == Err(e))
    ensures ValidateSession(req, true, false, current) == Pass
    ensures ValidateSession(req, true, true, current) == Failed(e) <==>
            && req.gid != "" && req.uid > 0 && req.token.uid == req.uid && req.token.generation > 0
            && current(req.uid) == Err(e)
  {
  }

  /** What an action should add to the history of `uid`: what passes is noted under its user and site, once. */
  ghost function ActEvents(c: Cluster, a: Action, uid: int): seq<Event>
    requires ClusterInv(c)
  {
    match a
    case Store(u, step) => if u == uid && Sound(UserOf(c, u).fields) then StepEvents(UserOf(c, u), step) else []
    case RouteRequest(node, req, stateful) =>
      if req.uid == uid && stateful && req.gid != "" && NodeMayPass(c, req)
      then [Accepted(Node(node), req.token.generation)] else []
    case Push(gate, kind, target, token) =>
      if token.uid == uid && GateMayPass(c, kind, target, token) then [Accepted(Gate(gate), token.generation)] else []
    case DisconnectCurrent(gate, kind, target, token) =>
      if token.uid == uid && GateMayPass(c, kind, target, token) then [Accepted(Gate(gate), token.generation)] else []
  }

  lemma ActMeaning(c: Cluster, a: Action, uid: int)
    requires ClusterInv(c) && Possible(c, a)
    ensures UserOf(Act(c, a), uid).log == UserOf(c, uid).log + ActEvents(c, a, uid)
  {
    match a
    case Store(u, step) =>
      assert Inv(FRESH);
      StepMeaning(UserOf(c, u), step);
    case RouteRequest(_, req, stateful) => NodeCheckMeaning(c, req, stateful);
    case Push(_, kind, target, token) => GateCheckMeaning(c, kind, target, token);
    case DisconnectCurrent(_, kind, target, token) => GateCheckMeaning(c, kind, target, token);
  }

  lemma NoteKeeps(c: Cluster, site: Site, token: Token)
    requires ClusterInv(c) && token.uid > 0
    requires CompareWithStore(token, CurrentIn(c)(token.uid)) == Pass
    ensures ClusterInv(Note(c, token.uid, Accepted(site, token.generation)))
  {
    CheckMeaning(c, token);
    LogGrows(UserOf(c, token.uid).log, Accepted(site, token.generation));
  }

  lemma ActKeeps(c: Cluster, a: Action)
    requires ClusterInv(c) && Possible(c, a)
    ensures ClusterInv(Act(c, a))
  {
    match a
    case Store(uid, step) =>
      assert Inv(FRESH);
      StepKeeps(UserOf(c, uid), step);
    case RouteRequest(node, req, stateful) =>
      if Act(c, a) != c {
        NoteKeeps(c, Node(node), req.token);
      }
    case Push(gate, kind, target, token) =>
      if Act(c, a) != c {
        NoteKeeps(c, Gate(gate), token);
      }
    case DisconnectCurrent(gate, kind, target, token) =>
      if Act(c, a) != c {
        NoteKeeps(c, Gate(gate), token);
      }
  }

  function Run(actions: seq<Action>): Cluster {
    if actions == [] then map[] else Act(Run(actions[..|actions| - 1]), actions[|actions| - 1])
  }

  predicate Legal(actions: seq<Action>) {
    actions == [] ||
    (Legal(actions[..|actions| - 1]) && Possible(Run(actions[..|actions| - 1]), actions[|actions| - 1]))
  }

  lemma {:induction false} RunKeeps(actions: seq<Action>)
    requires Legal(actions)
    ensures ClusterInv(Run(actions))
  {
    if actions != [] {
      RunKeeps(actions[..|actions| - 1]);
      ActKeeps(Run(actions[..|actions| - 1]), actions[|actions| - 1]);
    }
  }

  /**
    After every run, exactly what gates and nodes let through: a well-formed check of the token
    that owns its user, the target being that user or a connection; nothing fails otherwise.
  */
  lemma ChecksDecide(actions: seq<Action>, kind: Kind, target: int, token: Token, req: Request)
    requires Legal(actions) && token != ZERO_TOKEN && req.gid != ""
    ensures var c := Run(actions);
            && GateCheck(kind, target, token, true, CurrentIn(c)) == PushCheck(kind, target, token, true, CurrentIn(c))
               == (if GateMayPass(c, kind, target, token) then Pass else Stale)
            && ValidateSession(req, true, true, CurrentIn(c)) == (if NodeMayPass(c, req) then Pass else Stale)
            && (OwnerOf(c, token.uid) == Some(token.generation) ==> token.generation == Replay(UserOf(c, token.uid).log).newest)
  {
    RunKeeps(actions);
    GateCheckMeaning(Run(actions), kind, target, token);
    NodeCheckMeaning(Run(actions), req, true);
    assert Inv(FRESH);
    OwnerIsNewest(UserOf(Run(actions), token.uid).log);
  }

  /** Over every run every generation issued for any UID is positive and within MaxInt64. */
  lemma IssuedWithinMax(actions: seq<Action>, uid: int, i: nat)
    requires Legal(actions) && i < |UserOf(Run(actions), uid).log| && UserOf(Run(actions), uid).log[i].Issued?
    ensures 0 < UserOf(Run(actions), uid).log[i].generation <= MAX_INT64
  {
    RunKeeps(actions);
    OwnerIsNewest(UserOf(Run(actions), uid).log);
  }

  /**
    Over every run and for every UID: the generations issued strictly increase and stay
    within MaxInt64, and after one is issued nothing smaller is accepted by any gate or
    node, nor freed by any release.
  */
  lemma FencingHolds(actions: seq<Action>, uid: int, i: nat, j: nat)
    requires Legal(actions)
    requires i < j < |UserOf(Run(actions), uid).log|
    requires UserOf(Run(actions), uid).log[i].Issued?
    ensures var log := UserOf(Run(actions), uid).log;
            && log[i].generation <= MAX_INT64
            && (log[j].Issued? ==> log[i].generation < log[j].generation)
            && (log[j].Accepted? || log[j].Freed? ==> log[i].generation <= log[j].generation)
  {
    RunKeeps(actions);
    var log := UserOf(Run(actions), uid).log;
    OwnerIsNewest(log);
    if log[j].Issued? {
      IssuedStrictlyIncrease(log, i, j);
    } else if log[j].Accepted? || log[j].Freed? {
      NoStaleAcceptOrFree(log, i, j);
    }
  }

  /**
    After every run the hash names no owner or the newest generation ever issued, and a
    release that names an older generation leaves the UID's state as it was.
  */
  lemma CurrentIsNewestIssued(actions: seq<Action>, uid: int, stale: nat)
    requires Legal(actions) && uid > 0
    ensures var u := UserOf(Run(actions), uid);
            var newest := Replay(u.log).newest;
            && newest <= MAX_INT64
            && CurrentIn(Run(actions))(uid) in {Ok(None), Ok(Some(Token(uid, newest)))}
            && (forall k | 0 <= k < |u.log| && u.log[k].Issued? :: u.log[k].generation <= newest)
            && (stale != newest ==> Next(u, Release(stale)) == u)
  {
    RunKeeps(actions);
    assert Inv(FRESH);
    var u := UserOf(Run(actions), uid);
    OwnerIsNewest(u.log);
    CurrentMeaning(u.fields, uid);
    ReleaseKeeps(u, stale);
  }

  /**
    After every run: once the owner is released or its hash is lost, and until a new generation
    is issued for the user, nothing was accepted or freed since, the store names no owner, and
    no check of any token of that user at any gate or node passes.
  */
  lemma NothingPassesAfterRelease(actions: seq<Action>, uid: int, i: nat, token: Token)
    requires Legal(actions) && uid > 0 && token.uid == uid
    requires var log := UserOf(Run(actions), uid).log;
             && i < |log| && (log[i].Freed? || log[i].Lost?)
             && forall k | i < k < |log| :: !log[k].Issued?
    ensures var log := UserOf(Run(actions), uid).log;
            && (forall k | i < k < |log| :: !log[k].Accepted? && !log[k].Freed?)
            && CurrentIn(Run(actions))(uid) == Ok(None)
            && CompareWithStore(token, CurrentIn(Run(actions))(uid)) == Stale
  {
    RunKeeps(actions);
    var u := UserOf(Run(actions), uid);
    FreedStaysFreed(u.log, i, |u.log|);
    assert u.log[..|u.log|] == u.log;
    CurrentMeaning(u.fields, uid);
  }
}
