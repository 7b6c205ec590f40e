/** The session index as the gate keeps it: maps and connection objects changed in place. */
module GateSession {
  import opened Prelude
  import opened Ownership
  import opened SessionIndex

  class Connection {
    const id: int
    var uid: int

    constructor (id: int)
      ensures this.id == id && uid == 0
    {
      this.id, uid := id, 0;
    }
  }

  class Session {
    var conns: map<int, Connection>
    var users: map<int, Connection>
    var tokens: map<int, Token>
    var generations: map<int, nat>

    /** The value the maps and the connections' UIDs stand for. */
    ghost var index: Index

    /** Connection ids are unique: a user's connection that is not registered may share its id with no other. */
    ghost predicate Valid()
      reads this, conns.Values
    {
      && (forall cid | cid in conns :: conns[cid].id == cid)
      && (forall uid | uid in users && users[uid].id in conns :: conns[users[uid].id] == users[uid])
      && (forall u, v | u in users && v in users && users[u].id == users[v].id :: users[u] == users[v])
      && conns.Keys == index.conns.Keys && (forall cid | cid in conns :: conns[cid].uid == index.conns[cid])
      && users.Keys == index.users.Keys && (forall uid | uid in users :: users[uid].id == index.users[uid])
      && tokens == index.tokens && generations == index.generations
      && tokens.Keys <= conns.Keys
    }

    /** No other connection of the session has this one's id. */
    ghost predicate Owns(conn: Connection)
      reads this
    {
      && (conn.id in conns ==> conns[conn.id] == conn)
      && (forall uid | uid in users && users[uid].id == conn.id :: users[uid] == conn)
    }

    constructor ()
      ensures Valid() && index == EMPTY
    {
      conns, users, tokens, generations := map[], map[], map[], map[];
      index := EMPTY;
    }

    method NextGeneration(uid: int) returns (generation: nat)
      modifies this`generations
      ensures generation == (if uid in old(generations) then old(generations[uid]) else 0) + 1
      ensures generations == old(generations)[uid := generation]
    {
      generation := (if uid in generations then generations[uid] else 0) + 1;
      generations := generations[uid := generation];
    }

    /** Puts a connection into the map of connections. */
    method Register(conn: Connection)
      requires Valid() && Owns(conn)
      modifies this`conns, this`index
      ensures Valid() && conns == old(conns)[conn.id := conn]
      ensures index == old(index).(conns := old(index).conns[conn.id := conn.uid])
    {
      conns := conns[conn.id := conn];
      index := index.(conns := index.conns[conn.id := conn.uid]);
    }

    method AddConn(conn: Connection)
      requires Valid() && Owns(conn)
      modifies this
      ensures Valid() && conns == old(conns)[conn.id := conn]
      ensures index == SessionIndex.AddConn(old(index), conn.id, conn.uid)
    {
      var uid := conn.uid;
      Register(conn);
      if uid != 0 {
        var generation := NextGeneration(uid);
        index := index.(generations := generations);
        Assign(conn, uid, Token(uid, generation));
      }
    }

    method RemConnWithToken(conn: Connection) returns (uid: int, token: Token)
      requires Valid() && Owns(conn)
      modifies this
      ensures Valid() && conns == old(conns) - {conn.id}
      ensures uid == conn.uid && token == TokenOf(old(index), conn.id)
      ensures index == RemConn(old(index), conn.id, conn.uid)
    {
      var cid := conn.id;
      uid := conn.uid;
      token := if cid in tokens then tokens[cid] else ZERO_TOKEN;
      Forget(conn);
    }

    /** Deletes the user's entry if it is this connection. */
    method DropUser(conn: Connection)
      requires Valid() && Owns(conn)
      modifies this`users, this`index
      ensures Valid()
      ensures index == old(index).(users := if conn.uid != 0 && conn.uid in old(index).users && old(index).users[conn.uid] == conn.id
                                            then old(index).users - {conn.uid} else old(index).users)
    {
      var uid := conn.uid;
      if uid != 0 && uid in users && users[uid] == conn {
        users := users - {uid};
        index := index.(users := index.users - {uid});
      }
    }

    /** The deletions of `RemConnWithToken`. */
    method Forget(conn: Connection)
      requires Valid() && Owns(conn)
      modifies this
      ensures Valid() && conns == old(conns) - {conn.id}
      ensures index == RemConn(old(index), conn.id, conn.uid)
    {
      var cid := conn.id;
      DropUser(conn);
      conns := conns - {cid};
      tokens := tokens - {cid};
      index := index.(conns := index.conns - {cid}, tokens := tokens);
    }

    /** `Bind` and `Unbind` on one connection; the index follows if it is registered. */
    method SetUid(conn: Connection, uid: int)
      requires Valid() && Owns(conn)
      modifies this`index, conn`uid
      ensures Valid() && conn.uid == uid
      ensures index == if conn.id in conns then old(index).(conns := old(index).conns[conn.id := uid]) else old(index)
    {
      if conn.id in conns {
        index := index.(conns := index.conns[conn.id := uid]);
      }
      conn.uid := uid;
    }

    method Assign(conn: Connection, uid: int, token: Token)
      requires Valid() && conn.id in conns && Owns(conn)
      modifies this`users, this`tokens, this`index
      ensures Valid()
      ensures index == old(index).(users := old(index).users[uid := conn.id], tokens := old(index).tokens[conn.id := token])
    {
      users := users[uid := conn];
      tokens := tokens[conn.id := token];
      index := index.(users := index.users[uid := conn.id], tokens := tokens);
    }

    /** The tail of `bindToken`: the user's previous connection is unbound and `conn` takes its place. */
    method TakeUser(conn: Connection, uid: int, token: Token)
      requires Valid() && conn.id in conns && Owns(conn)
      modifies this`users, this`tokens, this`index, conns.Values, users.Values
      ensures Valid() && conns == old(conns)
      ensures index == Taken(old(index), conn.id, uid, token)
    {
      if uid in users && users[uid] != conn {
        SetUid(users[uid], 0);
      }
      SetUid(conn, uid);
      Assign(conn, uid, token);
    }

    /** `bindToken`, on a connection taken from the index. */
    method Rebind(conn: Connection, uid: int, token: Token)
      requires Valid() && conn.id in conns && Owns(conn)
      modifies this`users, this`tokens, this`index, conns.Values, users.Values
      ensures Valid() && conns == old(conns)
      ensures index == SessionIndex.Rebind(old(index), conn.id, uid, token)
    {
      var oldUid := conn.uid;
      if oldUid != 0 {
        if oldUid == uid {
          if uid in users && users[uid] == conn {
            tokens := tokens[conn.id := token];
            index := index.(tokens := tokens);
            return;
          }
        } else if oldUid in users && users[oldUid] == conn {
          users := users - {oldUid};
          index := index.(users := index.users - {oldUid});
        }
      }
      TakeUser(conn, uid, token);
    }

    method Bind(cid: int, uid: int) returns (r: Option<Error>)
      requires Valid()
      modifies this, conns.Values, users.Values
      ensures Valid() && conns == old(conns)
      ensures match SessionIndex.Bind(old(index), cid, uid)
              case Ok(next) => r == None && index == next
              case Err(e) => r == Some(e) && index == old(index)
    {
      if cid !in conns {
        return Some(NotFound);
      }
      if conns[cid].uid == uid {
        return None;
      }
      var generation := NextGeneration(uid);
      RebindIgnoresGenerations(index, cid, uid, Token(uid, generation), generations);
      index := index.(generations := generations);
      Rebind(conns[cid], uid, Token(uid, generation));
      r := None;
    }

    method BindToken(cid: int, uid: int, token: Token) returns (r: Option<Error>)
      requires Valid()
      modifies this, conns.Values, users.Values
      ensures Valid() && conns == old(conns)
      ensures match SessionIndex.BindToken(old(index), cid, uid, token)
              case Ok(next) => r == None && index == next
              case Err(e) => r == Some(e) && index == old(index)
    {
      if uid <= 0 || token.uid != uid || token.generation == 0 {
        return Some(InvalidArgument);
      }
      if cid !in conns {
        return Some(NotFound);
      }
      Rebind(conns[cid], uid, token);
      if token.generation > (if uid in generations then generations[uid] else 0) {
        generations := generations[uid := token.generation];
        index := index.(generations := generations);
      }
      r := None;
    }

    method Unbind(uid: int) returns (r: Result<int, Error>)
      requires Valid()
      modifies this, conns.Values, users.Values
      ensures Valid() && conns == old(conns)
      ensures match SessionIndex.Unbind(old(index), uid)
              case Ok(next) => r == Ok(old(index).users[uid]) && index == next
              case Err(e) => r == Err(e) && index == old(index)
    {
      if uid !in users {
        return Err(NotFound);
      }
      var conn := users[uid];
      SetUid(conn, 0);
      users := users - {uid};
      index := index.(users := index.users - {uid});
      r := Ok(conn.id);
    }

    method IsCurrent(token: Token) returns (current: bool)
      requires Valid()
      ensures current <==> SessionIndex.IsCurrent(index, token)
    {
      if token.uid == 0 || token.generation == 0 || token.uid !in users {
        return false;
      }
      var cid := users[token.uid].id;
      current := cid in tokens && tokens[cid] == token;
    }

    /** The lookup of `SendCurrent`; `close` adds the guard of `CloseCurrent`. */
    method Resolve(kind: Kind, target: int, token: Token, close: bool) returns (r: Result<Connection, Error>)
      requires Valid()
      ensures match if close then CloseTarget(index, kind, target, token) else SendTarget(index, kind, target, token)
              case Ok(cid) => r.Ok? && r.value.id == cid && cid in conns && conns[cid] == r.value
              case Err(e) => r == Err(e)
    {
      if token.uid <= 0 || token.generation == 0 {
        return Err(StaleSession);
      }
      if close && kind == User && target != token.uid {
        return Err(StaleSession);
      }
      if (kind == Conn && target !in conns) || (kind == User && target !in users) {
        return Err(NotFound);
      }
      var conn := if kind == Conn then conns[target] else users[target];
      if token.uid !in users || users[token.uid] != conn || conn.id !in tokens || tokens[conn.id] != token {
        return Err(StaleSession);
      }
      r := Ok(conn);
    }
  }
}
