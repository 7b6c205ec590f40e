/**
  One bind racing with the disconnect of the same connection on a gate.

  `bindSession` and `handleDisconnect` are broken into the steps between which the other
  can run: every call on the session index or on the ownership store is one step. Other
  activity may happen in between, as long as it is not another bind of this connection or
  of this user: stores issue, free and lose other users' ownership, the rest of the index
  changes freely, and the connection itself is unbound by an unbind, or by a bind of the user
  it carries on another connection, both of which first end the ownership of its token.
*/
module BindRace {
  import opened Prelude
  import opened Ownership
  import opened SessionIndex

  datatype Bind =
    | Entered
    | LookedUp(local: Token)
    | LocallyCurrent(local: Token)
    | MustAcquire(local: Token)
    | Acquired(local: Token, token: Token)
    | Bound(local: Token, token: Token)
    | BindFailed(token: Token)
    | Returned(result: Option<Token>)

  datatype Disconnect =
    | Connected
    | Removed(uid: int, token: Token)
    | Finished

  type Ledgers = map<int, Ledger>

  /**
    `acquired` and `bound` record what the bind did, `unseated` that the connection was unbound
    since it was last bound; they steer nothing.
  */
  datatype World = World(
    store: Ledgers,
    index: Index,
    bind: Bind,
    disconnect: Disconnect,
    acquired: Option<Token>,
    bound: bool,
    unseated: bool)

  /** The bind of `uid` on connection `cid`; `carried` and `previous` are what the connection had before. */
  datatype Case = Case(cid: int, uid: int, carried: int, previous: Token)

  function LedgerOf(store: Ledgers, uid: int): Ledger {
    if uid in store then store[uid] else NOTHING_ISSUED
  }

  predicate Current(store: Ledgers, token: Token) {
    LedgerOf(store, token.uid).owner == Some(token.generation)
  }

  function Put(store: Ledgers, uid: int, e: Event): Ledgers {
    store[uid := Apply(LedgerOf(store, uid), e)]
  }

  /** `Release`: frees the owner if the caller names it. */
  function Free(store: Ledgers, token: Token): Ledgers {
    if Current(store, token) then Put(store, token.uid, Freed(token.generation)) else store
  }

  /** One step of `bindSession`; `issue` is the generation the store issues if it is asked. */
  function BindStep(c: Case, w: World, issue: nat): World {
    match w.bind
    case Entered =>
      if c.cid !in w.index.conns then w.(bind := Returned(None))
      else w.(bind := LookedUp(TokenOf(w.index, c.cid)))
    case LookedUp(local) =>
      if local.uid == c.uid && local.generation != 0 && IsCurrent(w.index, local)
      then w.(bind := LocallyCurrent(local))
      else w.(bind := MustAcquire(local))
    case LocallyCurrent(local) =>
      if Current(w.store, local) then w.(bind := Returned(Some(local))) else w.(bind := MustAcquire(local))
    case MustAcquire(local) =>
      var token := Token(c.uid, issue);
      w.(store := Put(w.store, c.uid, Issued(issue)), bind := Acquired(local, token), acquired := Some(token))
    case Acquired(local, token) =>
      (match BindToken(w.index, c.cid, c.uid, token)
       case Ok(ix) => w.(index := ix, bind := Bound(local, token), bound := true, unseated := false)
       case Err(_) => w.(bind := BindFailed(token)))
    case BindFailed(token) =>
      w.(store := Free(w.store, token), bind := Returned(None))
    case Bound(local, token) =>
      var store := if local.uid != 0 && local.generation != 0 && local.uid != c.uid then Free(w.store, local) else w.store;
      w.(store := store, bind := Returned(Some(token)))
    case Returned(_) => w
  }

  /** One step of `handleDisconnect`. */
  function DisconnectStep(c: Case, w: World): World {
    match w.disconnect
    case Connected =>
      var uid := if c.cid in w.index.conns then w.index.conns[c.cid] else 0;
      w.(index := RemConn(w.index, c.cid, uid), disconnect := Removed(uid, TokenOf(w.index, c.cid)))
    case Removed(uid, token) =>
      var release := uid != 0 && token.uid != 0 && token.generation != 0;
      w.(store := if release then Free(w.store, token) else w.store, disconnect := Finished)
    case Finished => w
  }

  datatype Step =
    | DoBind(issue: nat)
    | DoDisconnect
    | StoreElsewhere(uid: int, event: Event)
    | IndexElsewhere(index: Index)
    | Unseat(index: Index)

  predicate Enabled(c: Case, w: World, s: Step) {
    match s
    case DoBind(issue) => issue > LedgerOf(w.store, c.uid).newest
    case DoDisconnect => true
    case StoreElsewhere(uid, event) =>
      Lawful(LedgerOf(w.store, uid), event) && (event.Issued? ==> uid != c.uid)
    case IndexElsewhere(index) =>
      && (c.cid in index.conns <==> c.cid in w.index.conns)
      && (c.cid in index.conns ==> index.conns[c.cid] == w.index.conns[c.cid])
      && TokenOf(index, c.cid) == TokenOf(w.index, c.cid)
    case Unseat(index) =>
      && c.cid in w.index.conns && c.cid in index.conns && index.conns[c.cid] == 0
      && TokenOf(index, c.cid) == TokenOf(w.index, c.cid) && !Current(w.store, TokenOf(w.index, c.cid))
  }

  function Next(c: Case, w: World, s: Step): World {
    match s
    case DoBind(issue) => BindStep(c, w, issue)
    case DoDisconnect => DisconnectStep(c, w)
    case StoreElsewhere(uid, event) => w.(store := Put(w.store, uid, event))
    case IndexElsewhere(index) => w.(index := index)
    case Unseat(index) => w.(index := index, unseated := true)
  }

  predicate SoundStore(store: Ledgers) {
    forall uid | uid in store ::
      store[uid].owner == None || (store[uid].owner == Some(store[uid].newest) && store[uid].newest > 0)
  }

  /** The token is zero or was issued by the store at some time. */
  predicate Known(store: Ledgers, token: Token) {
    token.generation <= LedgerOf(store, token.uid).newest
  }

  /**
    Where both processes start: the connection is registered, a bound connection holds a
    token of its user, its token came from the store, and if the connection is unbound its
    retained token is not current.
  */
  predicate Start(c: Case, w: World) {
    && c.uid > 0 && SoundStore(w.store) && Known(w.store, c.previous)
    && w.bind == Entered && w.disconnect == Connected && w.acquired == None && !w.bound && !w.unseated
    && c.cid in w.index.conns && w.index.conns[c.cid] == c.carried && TokenOf(w.index, c.cid) == c.previous
    && (c.carried != 0 ==> c.previous.uid == c.carried && c.previous.generation > 0)
    && (c.carried == 0 ==> !Current(w.store, c.previous))
  }

  predicate BindInv(c: Case, w: World) {
    match w.bind
    case Entered => w.acquired == None && !w.bound
    case LookedUp(local) => local == c.previous && w.acquired == None && !w.bound
    case LocallyCurrent(local) => local == c.previous && w.acquired == None && !w.bound
    case MustAcquire(local) => local == c.previous && w.acquired == None && !w.bound
    case Acquired(local, token) => local == c.previous && w.acquired == Some(token) && !w.bound
    case Bound(local, token) => local == c.previous && w.acquired == Some(token) && w.bound
    case BindFailed(token) => w.acquired == Some(token) && !w.bound
    case Returned(result) =>
      && (w.bound ==> result == w.acquired && !Current(w.store, c.previous))
      && (!w.bound && w.acquired.Some? ==> !Current(w.store, w.acquired.value))
      && (!w.bound && result.Some? ==> result.value == c.previous)
  }

  predicate DisconnectInv(c: Case, w: World)
    requires w.bound ==> w.acquired.Some?
  {
    var token := if w.bound then w.acquired.value else c.previous;
    var uid := if w.unseated then 0 else if w.bound then c.uid else c.carried;
    && (w.unseated ==> !Current(w.store, token))
    &&
    match w.disconnect
    case Connected => c.cid in w.index.conns && w.index.conns[c.cid] == uid && TokenOf(w.index, c.cid) == token
    case Removed(u, t) => c.cid !in w.index.conns && u == uid && t == token
    case Finished => c.cid !in w.index.conns && (uid != 0 ==> !Current(w.store, token))
  }

  predicate Inv(c: Case, w: World) {
    && c.uid > 0 && SoundStore(w.store) && Known(w.store, c.previous)
    && (c.carried != 0 ==> c.previous.uid == c.carried && c.previous.generation > 0)
    && (c.carried == 0 ==> !Current(w.store, c.previous))
    && (w.bound ==> w.acquired.Some?)
    && (w.acquired.Some? ==>
          && w.acquired.value.uid == c.uid && w.acquired.value.generation > 0
          && Known(w.store, w.acquired.value)
          && (c.previous.uid == c.uid ==> !Current(w.store, c.previous)))
    && BindInv(c, w) && DisconnectInv(c, w)
  }

  /** No lawful store event makes an already issued token current again. */
  lemma StoreNeverRevives(store: Ledgers, uid: int, e: Event, token: Token)
    requires SoundStore(store) && Lawful(LedgerOf(store, uid), e) && Known(store, token)
    ensures SoundStore(Put(store, uid, e)) && Known(Put(store, uid, e), token)
    ensures Current(Put(store, uid, e), token) ==> Current(store, token)
  {
  }

  lemma FreeNeverRevives(store: Ledgers, freed: Token, token: Token)
    requires SoundStore(store) && Known(store, token)
    ensures SoundStore(Free(store, freed)) && Known(Free(store, freed), token)
    ensures Current(Free(store, freed), token) ==> Current(store, token)
    ensures !Current(Free(store, freed), freed)
  {
  }

  lemma BindTokenTakes(ix: Index, cid: int, uid: int, token: Token)
    requires uid > 0 && token.uid == uid && token.generation > 0
    ensures BindToken(ix, cid, uid, token).Ok? <==> cid in ix.conns
    ensures cid in ix.conns ==>
              var next := BindToken(ix, cid, uid, token).value;
              cid in next.conns && next.conns[cid] == uid && TokenOf(next, cid) == token
  {
  }

  lemma BindStepKeeps(c: Case, w: World, issue: nat)
    requires Inv(c, w) && Enabled(c, w, DoBind(issue))
    ensures Inv(c, BindStep(c, w, issue))
  {
    match w.bind
    case Entered =>
    case LookedUp(_) =>
    case LocallyCurrent(_) =>
    case MustAcquire(_) => StoreNeverRevives(w.store, c.uid, Issued(issue), c.previous);
    case Acquired(_, token) => BindTokenTakes(w.index, c.cid, c.uid, token);
    case BindFailed(token) =>
      FreeNeverRevives(w.store, token, token);
      FreeNeverRevives(w.store, token, c.previous);
    case Bound(local, token) =>
      FreeNeverRevives(w.store, local, token);
      FreeNeverRevives(w.store, local, c.previous);
      assert !Current(w.store, ZERO_TOKEN);
    case Returned(_) =>
  }

  lemma DisconnectStepKeeps(c: Case, w: World)
    requires Inv(c, w)
    ensures Inv(c, DisconnectStep(c, w))
  {
    if w.disconnect.Removed? {
      FreeNeverRevives(w.store, w.disconnect.token, c.previous);
      if w.acquired.Some? {
        FreeNeverRevives(w.store, w.disconnect.token, w.acquired.value);
      }
    }
  }

  lemma StepKeeps(c: Case, w: World, s: Step)
    requires Inv(c, w) && Enabled(c, w, s)
    ensures Inv(c, Next(c, w, s))
  {
    match s
    case DoBind(issue) => BindStepKeeps(c, w, issue);
    case DoDisconnect => DisconnectStepKeeps(c, w);
    case StoreElsewhere(uid, event) =>
      StoreNeverRevives(w.store, uid, event, c.previous);
      if w.acquired.Some? {
        StoreNeverRevives(w.store, uid, event, w.acquired.value);
      }
    case IndexElsewhere(_) =>
    case Unseat(_) =>
  }

  function Run(c: Case, w: World, steps: seq<Step>): World {
    if steps == [] then w else Next(c, Run(c, w, steps[..|steps| - 1]), steps[|steps| - 1])
  }

  predicate Legal(c: Case, w: World, steps: seq<Step>) {
    steps == [] ||
    (Legal(c, w, steps[..|steps| - 1]) && Enabled(c, Run(c, w, steps[..|steps| - 1]), steps[|steps| - 1]))
  }

  lemma {:induction false} RunKeeps(c: Case, w: World, steps: seq<Step>)
    requires Start(c, w) && Legal(c, w, steps)
    ensures Inv(c, Run(c, w, steps))
  {
    if steps != [] {
      RunKeeps(c, w, steps[..|steps| - 1]);
      StepKeeps(c, Run(c, w, steps[..|steps| - 1]), steps[|steps| - 1]);
    }
  }

  /**
    In every interleaving, once the bind has returned and the disconnect has finished,
    neither the connection's previous token nor the token the bind acquired is current.
  */
  lemma NothingLeaks(c: Case, w: World, steps: seq<Step>)
    requires Start(c, w) && Legal(c, w, steps)
    requires Run(c, w, steps).bind.Returned? && Run(c, w, steps).disconnect.Finished?
    ensures var end := Run(c, w, steps);
            && !Current(end.store, c.previous)
            && (end.acquired.Some? ==> !Current(end.store, end.acquired.value))
  {
    RunKeeps(c, w, steps);
  }

  /**
    While the connection stays up, a token the bind returns is the one the index holds for it,
    and the connection carries the user unless it was unbound, its token being no longer current.
  */
  lemma ReturnedTokenIsHeld(c: Case, w: World, steps: seq<Step>)
    requires Start(c, w) && Legal(c, w, steps)
    requires Run(c, w, steps).bind.Returned? && Run(c, w, steps).bind.result.Some? && Run(c, w, steps).disconnect.Connected?
    ensures var end := Run(c, w, steps);
            && c.cid in end.index.conns && TokenOf(end.index, c.cid) == end.bind.result.value
            && (end.bound ==> end.index.conns[c.cid] == if end.unseated then 0 else c.uid)
            && (end.unseated ==> !Current(end.store, end.bind.result.value))
  {
    RunKeeps(c, w, steps);
  }

  // --- Operations that nothing interrupts ---

  function Binds(c: Case, w: World, issue: nat, steps: nat): World
    decreases steps
  {
    if steps == 0 then w else Binds(c, BindStep(c, w, issue), issue, steps - 1)
  }

  lemma ThreeBinds(c: Case, w: World, issue: nat)
    ensures Binds(c, w, issue, 3) == BindStep(c, BindStep(c, BindStep(c, w, issue), issue), issue)
  {
    assert Binds(c, w, issue, 3) == Binds(c, BindStep(c, w, issue), issue, 2);
  }

  /** The connection has a token of the user that the index and the store both hold for current. */
  predicate HeldAlready(c: Case, w: World) {
    var local := TokenOf(w.index, c.cid);
    local.uid == c.uid && IsCurrent(w.index, local) && Current(w.store, local)
  }

  /** From the acquisition on: the token is bound, and the owner the connection had for another user is freed. */
  lemma AcquireAlone(c: Case, w: World, issue: nat, local: Token)
    requires w.bind == MustAcquire(local) && c.uid > 0 && issue > LedgerOf(w.store, c.uid).newest && c.cid in w.index.conns
    ensures var token := Token(c.uid, issue);
            var end := Binds(c, w, issue, 3);
            && end.bind == Returned(Some(token)) && end.acquired == Some(token)
            && BindToken(w.index, c.cid, c.uid, token) == Ok(end.index)
            && LedgerOf(end.store, c.uid) == Ledger(issue, Some(issue))
            && (forall u | u != c.uid && (u != local.uid || !Current(w.store, local) || u == 0 || local.generation == 0) ::
                  LedgerOf(end.store, u) == LedgerOf(w.store, u))
            && (local.uid != c.uid && local.uid != 0 && local.generation != 0 && Current(w.store, local) ==>
                  LedgerOf(end.store, local.uid) == Ledger(LedgerOf(w.store, local.uid).newest, None))
  {
    ThreeBinds(c, w, issue);
    BindTokenTakes(w.index, c.cid, c.uid, Token(c.uid, issue));
  }

  lemma {:induction false} ReturnedStays(c: Case, w: World, issue: nat, steps: nat)
    requires w.bind.Returned?
    ensures Binds(c, w, issue, steps) == w
  {
    if steps > 0 {
      ReturnedStays(c, w, issue, steps - 1);
    }
  }

  lemma {:induction false} BindsSplit(c: Case, w: World, issue: nat, m: nat, n: nat)
    ensures Binds(c, w, issue, m + n) == Binds(c, Binds(c, w, issue, m), issue, n)
    decreases m
  {
    if m > 0 {
      BindsSplit(c, BindStep(c, w, issue), issue, m - 1, n);
    }
  }

  /** The lookups change nothing; they return the token held already, or find that one must be acquired. */
  lemma LookupAlone(c: Case, w: World, issue: nat)
    requires w.bind == Entered && c.uid > 0 && c.cid in w.index.conns
    ensures var local := TokenOf(w.index, c.cid);
            var end := Binds(c, w, issue, 3);
            if HeldAlready(c, w) then end == w.(bind := Returned(Some(local)))
            else end == w.(bind := MustAcquire(local)) || end == BindStep(c, w.(bind := MustAcquire(local)), issue)
  {
    ThreeBinds(c, w, issue);
  }

  lemma ThreeTurnsMore(c: Case, w: World, issue: nat)
    requires w.bind == Entered && c.uid > 0 && c.cid in w.index.conns && issue > LedgerOf(w.store, c.uid).newest
    requires !HeldAlready(c, w)
    ensures Binds(c, w, issue, 6) == Binds(c, w.(bind := MustAcquire(TokenOf(w.index, c.cid))), issue, 3)
  {
    var start := w.(bind := MustAcquire(TokenOf(w.index, c.cid)));
    LookupAlone(c, w, issue);
    BindsSplit(c, w, issue, 3, 3);
    if Binds(c, w, issue, 3) != start {
      AcquireAlone(c, start, issue, TokenOf(w.index, c.cid));
      BindsSplit(c, start, issue, 3, 1);
      ReturnedStays(c, Binds(c, start, issue, 3), issue, 1);
      BindsSplit(c, start, issue, 1, 3);
    }
  }

  /**
    A bind that nothing interrupts. An unknown connection fails; a token that index and store
    both hold for current is returned as it is; else the store's next generation is bound in the
    index and returned as the user's owner, and of the other users at most the one the
    connection carried loses its owner, which was that very token.
  */
  lemma BindAlone(c: Case, w: World, issue: nat)
    requires w.bind == Entered && c.uid > 0 && issue > LedgerOf(w.store, c.uid).newest
    ensures var local := TokenOf(w.index, c.cid);
            var token := Token(c.uid, issue);
            var end := Binds(c, w, issue, 6);
            if c.cid !in w.index.conns then end == w.(bind := Returned(None))
            else if HeldAlready(c, w) then end == w.(bind := Returned(Some(local)))
            else
              && end.bind == Returned(Some(token)) && end.acquired == Some(token) && Current(end.store, token)
              && BindToken(w.index, c.cid, c.uid, token) == Ok(end.index)
              && (local.uid !in {0, c.uid} && local.generation != 0 ==> !Current(end.store, local))
              && forall u | u != c.uid ::
                   LedgerOf(end.store, u) ==
                   if u == local.uid != 0 && local.generation != 0 && Current(w.store, local)
                   then LedgerOf(w.store, u).(owner := None) else LedgerOf(w.store, u)
  {
    if c.cid !in w.index.conns {
      ReturnedStays(c, w.(bind := Returned(None)), issue, 5);
    } else if HeldAlready(c, w) {
      LookupAlone(c, w, issue);
      BindsSplit(c, w, issue, 3, 3);
      ReturnedStays(c, w.(bind := Returned(Some(TokenOf(w.index, c.cid)))), issue, 3);
    } else {
      ThreeTurnsMore(c, w, issue);
      AcquireAlone(c, w.(bind := MustAcquire(TokenOf(w.index, c.cid))), issue, TokenOf(w.index, c.cid));
    }
  }

  /**
    What others may do meanwhile: any lawful event of the store but an issue for this user, and
    any change of the index that leaves the connection's registration, user and token alone.
  */
  lemma OthersMayAct(c: Case, w: World, uid: int, e: Event, index: Index, u: int)
    ensures Enabled(c, w, StoreElsewhere(uid, e)) <==> Lawful(LedgerOf(w.store, uid), e) && !(e.Issued? && uid == c.uid)
    ensures var w' := Next(c, w, StoreElsewhere(uid, e));
            && w' == w.(store := w'.store)
            && LedgerOf(w'.store, u) == if u == uid then Apply(LedgerOf(w.store, u), e) else LedgerOf(w.store, u)
    ensures TokenOf(index, c.cid) == TokenOf(w.index, c.cid) && c.cid in index.conns && c.cid in w.index.conns
            && index.conns[c.cid] == w.index.conns[c.cid] ==>
              Enabled(c, w, IndexElsewhere(index)) && Next(c, w, IndexElsewhere(index)) == w.(index := index)
  {
  }

  /** A bind whose connection is gone by the time it binds gives its token back and fails. */
  lemma BindTooLate(c: Case, w: World, issue: nat)
    requires w.bind.Acquired? && w.bind.token.uid == c.uid > 0 && w.bind.token.generation > 0 && c.cid !in w.index.conns
    ensures var end := BindStep(c, BindStep(c, w, issue), issue);
            && end.bind == Returned(None) && end.index == w.index
            && !Current(end.store, w.bind.token)
            && (forall t: Token | t != w.bind.token :: Current(end.store, t) <==> Current(w.store, t))
  {
  }

  /** A disconnect that nothing interrupts removes the connection and ends the ownership of the token it carried. */
  lemma DisconnectAlone(c: Case, w: World)
    requires w.disconnect == Connected && c.cid in w.index.conns
    ensures Enabled(c, w, DoDisconnect) && Enabled(c, DisconnectStep(c, w), DoDisconnect)
    ensures var end := DisconnectStep(c, DisconnectStep(c, w));
            var token := TokenOf(w.index, c.cid);
            && end.disconnect == Finished && end.index == Disconnected(w.index, c.cid)
            && (forall t: Token ::
                  Current(end.store, t) <==>
                  Current(w.store, t) && !(t == token && w.index.conns[c.cid] != 0 && token.uid != 0 && token.generation != 0))
  {
  }
}
