/**
  The gate's local session index: connections, the user each one is bound to, and the
  token of every binding.

  The index is described as a value with one function per operation; GateSession holds the
  class that updates its maps and its connections in place.
*/
module SessionIndex {
  import opened Prelude
  import opened Ownership

  /** `conns` maps a registered connection to the UID it carries, 0 when unbound. */
  datatype Index = Index(
    conns: map<int, int>,
    users: map<int, int>,
    tokens: map<int, Token>,
    generations: map<int, nat>)

  const EMPTY := Index(map[], map[], map[], map[])

  function Generation(ix: Index, uid: int): nat {
    if uid in ix.generations then ix.generations[uid] else 0
  }

  function TokenOf(ix: Index, cid: int): Token {
    if cid in ix.tokens then ix.tokens[cid] else ZERO_TOKEN
  }

  function AddConn(ix: Index, cid: int, uid: int): Index {
    var registered := ix.(conns := ix.conns[cid := uid]);
    if uid == 0 then registered
    else
      var g := Generation(ix, uid) + 1;
      registered.(users := ix.users[uid := cid],
                  tokens := ix.tokens[cid := Token(uid, g)],
                  generations := ix.generations[uid := g])
  }

  /** `RemConnWithToken`, given the UID the connection object carries. */
  function RemConn(ix: Index, cid: int, uid: int): Index {
    ix.(conns := ix.conns - {cid},
        tokens := ix.tokens - {cid},
        users := if uid != 0 && uid in ix.users && ix.users[uid] == cid then ix.users - {uid} else ix.users)
  }

  /** `conn` takes the user over; the connection that had the user is left unbound. */
  function Taken(ix: Index, cid: int, uid: int, token: Token): Index {
    var conns :=
      if uid in ix.users && ix.users[uid] != cid && ix.users[uid] in ix.conns then ix.conns[ix.users[uid] := 0] else ix.conns;
    ix.(conns := conns[cid := uid], users := ix.users[uid := cid], tokens := ix.tokens[cid := token])
  }

  /** `bindToken`. */
  function Rebind(ix: Index, cid: int, uid: int, token: Token): Index
    requires cid in ix.conns
  {
    var oldUid := ix.conns[cid];
    if oldUid != 0 && oldUid == uid && uid in ix.users && ix.users[uid] == cid then
      ix.(tokens := ix.tokens[cid := token])
    else if oldUid != 0 && oldUid != uid && oldUid in ix.users && ix.users[oldUid] == cid then
      Taken(ix.(users := ix.users - {oldUid}), cid, uid, token)
    else
      Taken(ix, cid, uid, token)
  }

  datatype Error = NotFound | InvalidArgument | StaleSession

  function Bind(ix: Index, cid: int, uid: int): Result<Index, Error> {
    if cid !in ix.conns then Err(NotFound)
    else if ix.conns[cid] == uid then Ok(ix)
    else
      var g := Generation(ix, uid) + 1;
      Ok(Rebind(ix, cid, uid, Token(uid, g)).(generations := ix.generations[uid := g]))
  }

  function BindToken(ix: Index, cid: int, uid: int, token: Token): Result<Index, Error> {
    if uid <= 0 || token.uid != uid || token.generation == 0 then Err(InvalidArgument)
    else if cid !in ix.conns then Err(NotFound)
    else
      var bound := Rebind(ix, cid, uid, token);
      Ok(if token.generation > Generation(ix, uid) then bound.(generations := ix.generations[uid := token.generation]) else bound)
  }

  function Unbind(ix: Index, uid: int): Result<Index, Error> {
    if uid !in ix.users then Err(NotFound)
    else
      var cid := ix.users[uid];
      Ok(ix.(users := ix.users - {uid}, conns := if cid in ix.conns then ix.conns[cid := 0] else ix.conns))
  }

  predicate IsCurrent(ix: Index, token: Token) {
    token.uid != 0 && token.generation != 0 && token.uid in ix.users && TokenOf(ix, ix.users[token.uid]) == token
  }

  // --- The invariant of every run ---

  /**
    A user's connection is registered, carries that user and holds one of its tokens; a
    bound connection holds a token of the user it carries.
  */
  predicate Consistent(ix: Index) {
    && 0 !in ix.users
    && (forall uid | uid in ix.users ::
          && ix.users[uid] in ix.conns && ix.conns[ix.users[uid]] == uid
          && ix.users[uid] in ix.tokens)
    && (forall cid | cid in ix.conns && ix.conns[cid] != 0 :: cid in ix.tokens && ix.tokens[cid].uid == ix.conns[cid])
    && (forall cid | cid in ix.tokens ::
          && cid in ix.conns && ix.tokens[cid].generation > 0
          && ix.tokens[cid].generation <= Generation(ix, ix.tokens[cid].uid))
  }

  datatype Op =
    | Add(cid: int, uid: int)
    | Rem(cid: int, uid: int)
    | BindLocal(cid: int, uid: int)
    | BindExternal(cid: int, uid: int, token: Token)
    | UnbindUser(uid: int)

  /** The index together with every token that was ever bound in it. */
  datatype History = History(index: Index, bound: set<Token>)

  /**
    Connection ids are unique, so a registered id names one connection object with one UID;
    an external token was never bound here before.
  */
  predicate Possible(h: History, op: Op) {
    match op
    case Add(cid, uid) => cid in h.index.conns ==> uid == h.index.conns[cid]
    case Rem(cid, uid) => cid in h.index.conns ==> uid == h.index.conns[cid]
    case BindLocal(_, _) => true
    case BindExternal(_, _, token) => token !in h.bound
    case UnbindUser(_) => true
  }

  /** A local bind that names a real user, or changes nothing because the connection is unknown or unbound. */
  predicate Harmless(ix: Index, cid: int, uid: int) {
    uid != 0 || cid !in ix.conns || ix.conns[cid] == 0
  }

  /** A possible operation that does not bind user 0 on a bound connection. */
  predicate Admissible(h: History, op: Op) {
    Possible(h, op) && (op.BindLocal? ==> Harmless(h.index, op.cid, op.uid))
  }

  function IndexAfter(ix: Index, op: Op): Index {
    match op
    case Add(cid, uid) => AddConn(ix, cid, uid)
    case Rem(cid, uid) => RemConn(ix, cid, uid)
    case BindLocal(cid, uid) => (match Bind(ix, cid, uid) case Ok(next) => next case Err(_) => ix)
    case BindExternal(cid, uid, token) => (match BindToken(ix, cid, uid, token) case Ok(next) => next case Err(_) => ix)
    case UnbindUser(uid) => (match Unbind(ix, uid) case Ok(next) => next case Err(_) => ix)
  }

  function Held(ix: Index): set<Token> {
    set cid | cid in ix.tokens :: ix.tokens[cid]
  }

  function After(h: History, op: Op): History {
    var ix := IndexAfter(h.index, op);
    History(ix, h.bound + Held(ix))
  }

  /** Every token held was bound, and no bound token is ahead of its user's counter. */
  predicate Counted(h: History) {
    && Held(h.index) <= h.bound
    && (forall t | t in h.bound :: t.generation <= Generation(h.index, t.uid))
  }

  predicate Covers(generations: map<int, nat>, ix: Index, token: Token) {
    && (forall u | u in ix.generations :: u in generations && ix.generations[u] <= generations[u])
    && token.uid in generations && 0 < token.generation <= generations[token.uid]
  }

  lemma TakenConsistent(ix: Index, cid: int, uid: int, token: Token, generations: map<int, nat>)
    requires Consistent(ix) && cid in ix.conns && uid != 0
    requires token.uid == uid && Covers(generations, ix, token)
    requires forall u | u in ix.users && ix.users[u] == cid :: u == uid
    ensures Consistent(Taken(ix, cid, uid, token).(generations := generations))
  {
  }

  lemma RebindConsistent(ix: Index, cid: int, uid: int, token: Token, generations: map<int, nat>)
    requires Consistent(ix) && cid in ix.conns && uid != 0
    requires token.uid == uid && Covers(generations, ix, token)
    ensures Consistent(Rebind(ix, cid, uid, token).(generations := generations))
  {
    var oldUid := ix.conns[cid];
    if oldUid == 0 || oldUid !in ix.users || ix.users[oldUid] != cid {
      TakenConsistent(ix, cid, uid, token, generations);
    } else if oldUid != uid {
      TakenConsistent(ix.(users := ix.users - {oldUid}), cid, uid, token, generations);
    }
  }

  lemma RebindIgnoresGenerations(ix: Index, cid: int, uid: int, token: Token, generations: map<int, nat>)
    requires cid in ix.conns
    ensures Rebind(ix.(generations := generations), cid, uid, token) == Rebind(ix, cid, uid, token).(generations := generations)
  {
  }

  lemma AddConsistent(ix: Index, cid: int, uid: int)
    requires Consistent(ix) && (cid in ix.conns ==> uid == ix.conns[cid])
    ensures Consistent(AddConn(ix, cid, uid))
  {
    if uid != 0 {
      AddBoundConsistent(ix, cid, uid, Generation(ix, uid) + 1);
    }
  }

  lemma AddBoundConsistent(ix: Index, cid: int, uid: int, g: nat)
    requires Consistent(ix) && (cid in ix.conns ==> uid == ix.conns[cid]) && uid != 0 && g == Generation(ix, uid) + 1
    ensures Consistent(Index(ix.conns[cid := uid], ix.users[uid := cid], ix.tokens[cid := Token(uid, g)],
                             ix.generations[uid := g]))
  {
    assert forall u | u in ix.users && ix.users[u] == cid :: u == uid;
  }

  lemma RemConsistent(ix: Index, cid: int, uid: int)
    requires Consistent(ix) && (cid in ix.conns ==> uid == ix.conns[cid])
    ensures Consistent(RemConn(ix, cid, uid))
    ensures forall u | u in ix.users && ix.users[u] == cid :: u == uid && uid != 0
  {
  }

  lemma UnbindConsistent(ix: Index, uid: int)
    requires Consistent(ix) && uid in ix.users
    ensures Consistent(Unbind(ix, uid).value)
  {
  }

  lemma BindConsistent(ix: Index, cid: int, uid: int)
    requires Consistent(ix) && Harmless(ix, cid, uid)
    ensures Bind(ix, cid, uid).Ok? ==> Consistent(Bind(ix, cid, uid).value)
  {
    if cid in ix.conns && ix.conns[cid] != uid {
      var g := Generation(ix, uid) + 1;
      RebindConsistent(ix, cid, uid, Token(uid, g), ix.generations[uid := g]);
    }
  }

  lemma BindTokenConsistent(ix: Index, cid: int, uid: int, token: Token)
    requires Consistent(ix)
    ensures BindToken(ix, cid, uid, token).Ok? ==> Consistent(BindToken(ix, cid, uid, token).value)
  {
    if BindToken(ix, cid, uid, token).Ok? {
      var generations :=
        if token.generation > Generation(ix, uid) then ix.generations[uid := token.generation] else ix.generations;
      RebindConsistent(ix, cid, uid, token, generations);
      assert BindToken(ix, cid, uid, token).value == Rebind(ix, cid, uid, token).(generations := generations);
    }
  }

  lemma OpKeepsConsistent(h: History, op: Op)
    requires Consistent(h.index) && Admissible(h, op)
    ensures Consistent(IndexAfter(h.index, op))
  {
    var ix := h.index;
    match op
    case Add(cid, uid) => AddConsistent(ix, cid, uid);
    case Rem(cid, uid) => RemConsistent(ix, cid, uid);
    case BindLocal(cid, uid) => BindConsistent(ix, cid, uid);
    case BindExternal(cid, uid, token) => BindTokenConsistent(ix, cid, uid, token);
    case UnbindUser(uid) =>
      if uid in ix.users {
        UnbindConsistent(ix, uid);
      }
  }

  /** The one token an operation can newly attach to a connection. */
  function Attached(ix: Index, op: Op): Option<Token> {
    match op
    case Add(cid, uid) => if uid == 0 then None else Some(Token(uid, Generation(ix, uid) + 1))
    case Rem(_, _) => None
    case BindLocal(cid, uid) =>
      if cid !in ix.conns || ix.conns[cid] == uid then None else Some(Token(uid, Generation(ix, uid) + 1))
    case BindExternal(cid, uid, token) => if BindToken(ix, cid, uid, token).Ok? then Some(token) else None
    case UnbindUser(_) => None
  }

  lemma AttachedOnly(ix: Index, op: Op)
    ensures forall c | c in IndexAfter(ix, op).tokens ::
              (c in ix.tokens && ix.tokens[c] == IndexAfter(ix, op).tokens[c]) || Attached(ix, op) == Some(IndexAfter(ix, op).tokens[c])
    ensures forall uid :: Generation(ix, uid) <= Generation(IndexAfter(ix, op), uid)
    ensures Attached(ix, op).Some? ==> Attached(ix, op).value.generation <= Generation(IndexAfter(ix, op), Attached(ix, op).value.uid)
  {
  }

  lemma AttachedIsFresh(h: History, op: Op)
    requires Counted(h) && Possible(h, op)
    ensures Attached(h.index, op).Some? ==> Attached(h.index, op).value !in h.bound
  {
  }

  /** No operation at all loses count of the tokens. */
  lemma OpKeepsCounted(h: History, op: Op)
    requires Counted(h)
    ensures Counted(After(h, op))
  {
    var ix := IndexAfter(h.index, op);
    AttachedOnly(h.index, op);
    forall t | t in h.bound + Held(ix)
      ensures t.generation <= Generation(ix, t.uid)
    {
      if t !in h.bound {
        var c :| c in ix.tokens && ix.tokens[c] == t;
        assert c in h.index.tokens ==> h.index.tokens[c] in Held(h.index);
      }
    }
  }

  /** A token that becomes current in a step was never bound before that step. */
  lemma OnlyFreshBecomesCurrent(h: History, op: Op, token: Token)
    requires Counted(h) && Possible(h, op)
    requires token in h.bound && !IsCurrent(h.index, token)
    ensures !IsCurrent(IndexAfter(h.index, op), token)
  {
    AttachedIsFresh(h, op);
    var ix, ix' := h.index, IndexAfter(h.index, op);
    if IsCurrent(ix', token) {
      AttachedOnly(ix, op);
      var c := ix'.users[token.uid];
      assert ix'.tokens[c] == token && c in ix.tokens && ix.tokens[c] == token;
      NewUserHasNewToken(ix, op, token.uid);
    }
  }

  /** Whenever an operation gives a user a connection it did not have, that connection gets the new token. */
  lemma NewUserHasNewToken(ix: Index, op: Op, uid: int)
    requires uid in IndexAfter(ix, op).users
    requires uid !in ix.users || ix.users[uid] != IndexAfter(ix, op).users[uid]
    ensures var ix' := IndexAfter(ix, op);
            Attached(ix, op).Some? && ix'.users[uid] in ix'.tokens && Attached(ix, op) == Some(ix'.tokens[ix'.users[uid]])
  {
  }

  // --- Whole runs ---

  function Run(ops: seq<Op>): History {
    if ops == [] then History(EMPTY, {}) else After(Run(ops[..|ops| - 1]), ops[|ops| - 1])
  }

  predicate Legal(ops: seq<Op>) {
    ops == [] || (Legal(ops[..|ops| - 1]) && Possible(Run(ops[..|ops| - 1]), ops[|ops| - 1]))
  }

  /** A legal run in which nobody binds user 0 on a bound connection. */
  predicate Careful(ops: seq<Op>) {
    ops == [] || (Careful(ops[..|ops| - 1]) && Admissible(Run(ops[..|ops| - 1]), ops[|ops| - 1]))
  }

  /** Every careful run leaves the index consistent. */
  lemma {:induction false} RunKeeps(ops: seq<Op>)
    requires Careful(ops)
    ensures Consistent(Run(ops).index)
  {
    if ops != [] {
      RunKeeps(ops[..|ops| - 1]);
      OpKeepsConsistent(Run(ops[..|ops| - 1]), ops[|ops| - 1]);
    }
  }

  lemma {:induction false} RunCounts(ops: seq<Op>)
    ensures Counted(Run(ops))
  {
    if ops != [] {
      RunCounts(ops[..|ops| - 1]);
      OpKeepsCounted(Run(ops[..|ops| - 1]), ops[|ops| - 1]);
    }
  }

  lemma {:induction false} LegalPrefix(ops: seq<Op>, k: nat)
    requires Legal(ops) && k <= |ops|
    ensures Legal(ops[..k])
  {
    if k < |ops| {
      LegalPrefix(ops[..|ops| - 1], k);
      assert ops[..|ops| - 1][..k] == ops[..k];
    } else {
      assert ops[..k] == ops;
    }
  }

  lemma CurrentWasBound(h: History, token: Token)
    requires Counted(h) && IsCurrent(h.index, token)
    ensures token in h.bound
  {
    var cid := h.index.users[token.uid];
    assert h.index.tokens[cid] in Held(h.index);
  }

  lemma {:induction false} BoundStaysBound(ops: seq<Op>, i: nat, k: nat, token: Token)
    requires i <= k <= |ops| && token in Run(ops[..i]).bound
    ensures token in Run(ops[..k]).bound
  {
    if i < k {
      BoundStaysBound(ops, i, k - 1, token);
      assert ops[..k][..k - 1] == ops[..k - 1];
    }
  }

  lemma LastStep(ops: seq<Op>, k: nat)
    requires Legal(ops) && 0 < k <= |ops|
    ensures Possible(Run(ops[..k - 1]), ops[k - 1]) && Run(ops[..k]) == After(Run(ops[..k - 1]), ops[k - 1])
  {
    LegalPrefix(ops, k);
    assert ops[..k][..k - 1] == ops[..k - 1];
  }

  lemma CurrentStaysBound(ops: seq<Op>, i: nat, k: nat, token: Token)
    requires i <= k <= |ops| && IsCurrent(Run(ops[..i]).index, token)
    ensures token in Run(ops[..k]).bound
  {
    RunCounts(ops[..i]);
    CurrentWasBound(Run(ops[..i]), token);
    BoundStaysBound(ops, i, k, token);
  }

  lemma StaysStale(ops: seq<Op>, k: nat, token: Token)
    requires Legal(ops) && 0 < k <= |ops|
    requires token in Run(ops[..k - 1]).bound && !IsCurrent(Run(ops[..k - 1]).index, token)
    ensures !IsCurrent(Run(ops[..k]).index, token)
  {
    LastStep(ops, k);
    RunCounts(ops[..k - 1]);
    OnlyFreshBecomesCurrent(Run(ops[..k - 1]), ops[k - 1], token);
  }

  /** In every run, binds of user 0 included, a token that stops being current never becomes current again. */
  lemma {:induction false} NeverCurrentAgain(ops: seq<Op>, token: Token, i: nat, j: nat, k: nat)
    requires Legal(ops) && i <= j <= k <= |ops|
    requires IsCurrent(Run(ops[..i]).index, token) && !IsCurrent(Run(ops[..j]).index, token)
    ensures !IsCurrent(Run(ops[..k]).index, token)
    decreases k
  {
    if j < k {
      NeverCurrentAgain(ops, token, i, j, k - 1);
      CurrentStaysBound(ops, i, k - 1, token);
      StaysStale(ops, k, token);
    }
  }

  /** Every user's connection is registered, carries that user and holds one of its tokens. */
  predicate UsersServed(ix: Index) {
    forall uid | uid in ix.users ::
      && ix.users[uid] in ix.conns && ix.conns[ix.users[uid]] == uid
      && ix.users[uid] in ix.tokens && ix.tokens[ix.users[uid]].uid == uid
  }

  /** The disconnect of a connection: it is removed with the UID it carries. */
  function Disconnected(ix: Index, cid: int): Index {
    RemConn(ix, cid, if cid in ix.conns then ix.conns[cid] else 0)
  }

  lemma ConsistentServes(ix: Index)
    requires Consistent(ix)
    ensures UsersServed(ix)
  {
    forall uid | uid in ix.users ensures ix.tokens[ix.users[uid]].uid == uid {
      var cid := ix.users[uid];
      assert cid in ix.conns && ix.conns[cid] == uid && uid != 0;
      assert cid in ix.tokens && ix.tokens[cid].uid == ix.conns[cid];
    }
  }

  /**
    A local bind leaves every user served, whatever it binds. But binding user 0 on a bound
    connection is remembered under user 0, which no disconnect removes: once the connection is
    gone, user 0 names a connection that is not registered. That is the one case; after any
    other bind the disconnect leaves every user served.
  */
  lemma BindThenDisconnect(ix: Index, cid: int, uid: int)
    requires Consistent(ix)
    ensures var bound := IndexAfter(ix, BindLocal(cid, uid));
            && UsersServed(bound)
            && (UsersServed(Disconnected(bound, cid)) <==> Harmless(ix, cid, uid))
            && (!Harmless(ix, cid, uid) ==>
                  var gone := Disconnected(bound, cid);
                  0 in gone.users && gone.users[0] == cid && cid !in gone.conns && cid !in gone.tokens)
  {
    var bound := IndexAfter(ix, BindLocal(cid, uid));
    if Harmless(ix, cid, uid) {
      OpKeepsConsistent(History(ix, {}), BindLocal(cid, uid));
      RemConsistent(bound, cid, if cid in bound.conns then bound.conns[cid] else 0);
      ConsistentServes(bound);
      ConsistentServes(Disconnected(bound, cid));
    } else {
      ConsistentServes(ix);
      assert cid !in Disconnected(bound, cid).conns;
    }
  }

  /** Exactly the harmless binds keep the index consistent, which forbids an entry for user 0. */
  lemma BindConsistentIff(ix: Index, cid: int, uid: int)
    requires Consistent(ix)
    ensures Consistent(IndexAfter(ix, BindLocal(cid, uid))) <==> Harmless(ix, cid, uid)
  {
    if Harmless(ix, cid, uid) {
      OpKeepsConsistent(History(ix, {}), BindLocal(cid, uid));
    }
  }

  // --- What each operation does, connection by connection and user by user ---

  /** Of the users in `ix`, exactly those on another connection than `cid`, and `uid`, are in `users`; only `uid` moved. */
  ghost predicate UsersMoved(ix: Index, users: map<int, int>, cid: int, uid: int) {
    && uid in users && users[uid] == cid
    && forall u | u != uid ::
         && (u in users <==> u in ix.users && ix.users[u] != cid)
         && (u in users ==> users[u] == ix.users[u])
  }

  /** `cid` carries `uid`, the connection that had the user carries nobody, and no other connection changed. */
  predicate ConnsMoved(ix: Index, conns: map<int, int>, cid: int, uid: int) {
    && conns.Keys == ix.conns.Keys
    && cid in conns && conns[cid] == uid
    && forall d | d in conns && d != cid ::
         conns[d] == if uid in ix.users && ix.users[uid] == d then 0 else ix.conns[d]
  }

  /** `token` is its user's current token; of the other users' tokens exactly those on `cid` are no longer current. */
  ghost predicate TokensMoved(ix: Index, ix': Index, cid: int, token: Token) {
    forall t: Token ::
      IsCurrent(ix', t) <==>
      if t.uid == token.uid then t == token && token.uid != 0
      else IsCurrent(ix, t) && ix.users[t.uid] != cid
  }

  ghost predicate Moved(ix: Index, ix': Index, cid: int, token: Token) {
    && ConnsMoved(ix, ix'.conns, cid, token.uid)
    && UsersMoved(ix, ix'.users, cid, token.uid)
    && ix'.tokens == ix.tokens[cid := token]
    && TokensMoved(ix, ix', cid, token)
    && forall u :: Generation(ix', u) == if u == token.uid then Max(Generation(ix, u), token.generation) else Generation(ix, u)
  }

  function Max(a: nat, b: nat): nat {
    if a < b then b else a
  }

  lemma RebindMoves(ix: Index, cid: int, uid: int, token: Token)
    requires Consistent(ix) && cid in ix.conns && token.uid == uid && token.generation > 0
    ensures var next := Rebind(ix, cid, uid, token);
            && ConnsMoved(ix, next.conns, cid, uid) && UsersMoved(ix, next.users, cid, uid)
            && next.tokens == ix.tokens[cid := token]
  {
    RebindMovesUsers(ix, cid, uid, token);
    var next := Rebind(ix, cid, uid, token);
    assert next.conns.Keys == ix.conns.Keys;
  }

  lemma RebindMovesUsers(ix: Index, cid: int, uid: int, token: Token)
    requires Consistent(ix) && cid in ix.conns
    ensures UsersMoved(ix, Rebind(ix, cid, uid, token).users, cid, uid)
  {
    assert forall u | u in ix.users && ix.users[u] == cid :: u == ix.conns[cid] && u != 0;
  }

  lemma MovedTokens(ix: Index, ix': Index, cid: int, token: Token)
    requires token.generation > 0 && UsersMoved(ix, ix'.users, cid, token.uid) && ix'.tokens == ix.tokens[cid := token]
    ensures TokensMoved(ix, ix', cid, token)
  {
    forall t: Token
      ensures IsCurrent(ix', t) <==>
              if t.uid == token.uid then t == token && token.uid != 0
              else IsCurrent(ix, t) && ix.users[t.uid] != cid
    {
      assert t.uid != token.uid && t.uid in ix'.users ==> ix'.users[t.uid] == ix.users[t.uid] != cid;
    }
  }

  /**
    `Bind` fails exactly for an unknown connection and changes nothing when the connection
    carries the user already; otherwise the user moves to the connection with the next token.
  */
  lemma BindEffect(ix: Index, cid: int, uid: int)
    requires Consistent(ix)
    ensures Bind(ix, cid, uid) == Err(NotFound) <==> cid !in ix.conns
    ensures cid in ix.conns ==>
              && Bind(ix, cid, uid).Ok?
              && var next := Bind(ix, cid, uid).value;
                 if ix.conns[cid] == uid then next == ix else Moved(ix, next, cid, Token(uid, Generation(ix, uid) + 1))
  {
    if cid in ix.conns && ix.conns[cid] != uid {
      var token := Token(uid, Generation(ix, uid) + 1);
      RebindMoves(ix, cid, uid, token);
      MovedTokens(ix, Bind(ix, cid, uid).value, cid, token);
    }
  }

  /** The errors of `BindToken`, and otherwise the user moves to the connection with the token given. */
  lemma BindTokenEffect(ix: Index, cid: int, uid: int, token: Token)
    requires Consistent(ix)
    ensures BindToken(ix, cid, uid, token) == Err(InvalidArgument) <==> uid <= 0 || token.uid != uid || token.generation == 0
    ensures BindToken(ix, cid, uid, token) == Err(NotFound) <==>
            uid > 0 && token.uid == uid && token.generation > 0 && cid !in ix.conns
    ensures uid > 0 && token.uid == uid && token.generation > 0 && cid in ix.conns ==>
              BindToken(ix, cid, uid, token).Ok? && Moved(ix, BindToken(ix, cid, uid, token).value, cid, token)
  {
    if BindToken(ix, cid, uid, token).Ok? {
      RebindMoves(ix, cid, uid, token);
      MovedTokens(ix, BindToken(ix, cid, uid, token).value, cid, token);
    }
  }

  /** A user bound elsewhere is moved: the old connection carries nobody and the new one the user. */
  lemma BindTakesOver(ix: Index, cid: int, d: int, uid: int, token: Token)
    requires Consistent(ix) && cid in ix.conns && cid != d && uid in ix.users && ix.users[uid] == d
    ensures ix.conns[cid] != uid ==>
              && Bind(ix, cid, uid).Ok?
              && var next := Bind(ix, cid, uid).value;
                 && d in next.conns && next.conns[d] == 0 && cid in next.conns && next.conns[cid] == uid
                 && uid in next.users && next.users[uid] == cid
    ensures uid > 0 && token.uid == uid && token.generation > 0 ==>
              && BindToken(ix, cid, uid, token).Ok?
              && var next := BindToken(ix, cid, uid, token).value;
                 && d in next.conns && next.conns[d] == 0 && cid in next.conns && next.conns[cid] == uid
                 && uid in next.users && next.users[uid] == cid
  {
    BindEffect(ix, cid, uid);
    BindTokenEffect(ix, cid, uid, token);
  }

  /**
    `Unbind` fails exactly for a user without a connection. Otherwise the user is gone, its
    connection is registered and carries nobody, no token of the user is current, and every
    other connection, user and token is as before.
  */
  lemma UnbindEffect(ix: Index, uid: int)
    requires Consistent(ix)
    ensures Unbind(ix, uid) == Err(NotFound) <==> uid !in ix.users
    ensures uid in ix.users ==>
              && Unbind(ix, uid).Ok?
              && var next := Unbind(ix, uid).value;
                 && next.conns.Keys == ix.conns.Keys
                 && (forall d | d in next.conns :: next.conns[d] == if d == ix.users[uid] then 0 else ix.conns[d])
                 && next.users.Keys == ix.users.Keys - {uid}
                 && (forall u | u in next.users :: next.users[u] == ix.users[u])
                 && (forall t: Token :: IsCurrent(next, t) <==> IsCurrent(ix, t) && t.uid != uid)
                 && (forall u :: Generation(next, u) == Generation(ix, u))
  {
  }

  /** A connection is registered with the UID it carries; one that carries a user gets the user's next token. */
  lemma AddEffect(ix: Index, cid: int, uid: int)
    requires Consistent(ix) && (cid in ix.conns ==> uid == ix.conns[cid])
    ensures var next := AddConn(ix, cid, uid);
            && next.conns.Keys == ix.conns.Keys + {cid} && next.conns[cid] == uid
            && (forall d | d in ix.conns :: next.conns[d] == ix.conns[d])
            && (uid == 0 ==> next.users == ix.users && next.tokens == ix.tokens && next.generations == ix.generations)
            && (uid != 0 ==>
                  var token := Token(uid, Generation(ix, uid) + 1);
                  && UsersMoved(ix, next.users, cid, uid) && next.tokens == ix.tokens[cid := token]
                  && TokensMoved(ix, next, cid, token)
                  && forall u :: Generation(next, u) == Generation(ix, u) + if u == uid then 1 else 0)
  {
    if uid != 0 {
      AddMovesUsers(ix, cid, uid);
      MovedTokens(ix, AddConn(ix, cid, uid), cid, Token(uid, Generation(ix, uid) + 1));
    }
  }

  lemma AddMovesUsers(ix: Index, cid: int, uid: int)
    requires Consistent(ix) && uid != 0 && (cid in ix.conns ==> uid == ix.conns[cid])
    ensures UsersMoved(ix, AddConn(ix, cid, uid).users, cid, uid)
  {
    assert forall u | u in ix.users && ix.users[u] == cid :: u == uid;
  }

  /** A disconnect takes the connection, its token and the user it was the connection of, and nothing else. */
  lemma DisconnectEffect(ix: Index, cid: int)
    requires Consistent(ix)
    ensures var next := Disconnected(ix, cid);
            && next.conns == ix.conns - {cid} && next.tokens == ix.tokens - {cid} && next.generations == ix.generations
            && (forall u :: u in next.users <==> u in ix.users && ix.users[u] != cid)
            && (forall u | u in next.users :: next.users[u] == ix.users[u])
            && (forall t: Token :: IsCurrent(next, t) <==> IsCurrent(ix, t) && ix.users[t.uid] != cid)
  {
    RemConsistent(ix, cid, if cid in ix.conns then ix.conns[cid] else 0);
  }

  // --- Fenced delivery ---

  datatype Kind = Conn | User

  /** The connection `SendCurrent` and `CloseCurrent` act on. */
  function SendTarget(ix: Index, kind: Kind, target: int, token: Token): Result<int, Error> {
    if token.uid <= 0 || token.generation == 0 then Err(StaleSession)
    else if target !in (match kind case Conn => ix.conns.Keys case User => ix.users.Keys) then Err(NotFound)
    else
      var cid := match kind case Conn => target case User => ix.users[target];
      if token.uid !in ix.users || ix.users[token.uid] != cid || TokenOf(ix, cid) != token then Err(StaleSession) else Ok(cid)
  }

  function CloseTarget(ix: Index, kind: Kind, target: int, token: Token): Result<int, Error> {
    if token.uid > 0 && token.generation != 0 && kind == User && target != token.uid then Err(StaleSession)
    else SendTarget(ix, kind, target, token)
  }

  /**
    A fenced send reaches a connection exactly when the token is current and the target is
    that user or that user's connection. The extra guard of `CloseCurrent` never changes
    which connection is chosen.
  */
  lemma SendReachesOnlyCurrent(ix: Index, kind: Kind, target: int, token: Token, cid: int)
    requires Consistent(ix) && token.uid > 0
    ensures SendTarget(ix, kind, target, token) == Ok(cid) <==>
            IsCurrent(ix, token) && cid == ix.users[token.uid] && target == (if kind == Conn then cid else token.uid)
    ensures CloseTarget(ix, kind, target, token) == Ok(cid) <==> SendTarget(ix, kind, target, token) == Ok(cid)
  {
  }

  /** The errors of a fenced send or close: what was not found, and every other case in which nothing is reached is stale. */
  lemma SendErrors(ix: Index, kind: Kind, target: int, token: Token)
    requires Consistent(ix)
    ensures var formed := token.uid > 0 && token.generation > 0;
            var present := if kind == Conn then target in ix.conns else target in ix.users;
            && (SendTarget(ix, kind, target, token) == Err(NotFound) <==> formed && !present)
            && (SendTarget(ix, kind, target, token) == Err(StaleSession) <==>
                  || !formed
                  || (present && !(IsCurrent(ix, token) && target == if kind == Conn then ix.users[token.uid] else token.uid)))
            && (CloseTarget(ix, kind, target, token) ==
                if formed && kind == User && target != token.uid then Err(StaleSession) else SendTarget(ix, kind, target, token))
  {
  }
}
