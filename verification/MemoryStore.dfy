/** The in-process ownership store: the simple implementation of the same promises. */
module MemoryStore {
  import opened Prelude
  import opened Ownership

  const MAX_UINT64: nat := 0xffff_ffff_ffff_ffff

  datatype StoreError = Cancelled | InvalidArgument | Exhausted

  class MemoryOwnershipStore {
    var owners: map<int, Token>
    var generations: map<int, nat>
    /** What happened to each UID so far. */
    ghost var logs: map<int, seq<Event>>

    ghost function Log(uid: int): seq<Event>
      reads this
    {
      if uid in logs then logs[uid] else []
    }

    /** The maps hold exactly the ledger that the lawful history of each UID leaves. */
    ghost predicate Valid()
      reads this
    {
      && (forall uid | uid in owners :: owners[uid].uid == uid)
      && (forall uid | uid in generations :: generations[uid] <= MAX_UINT64)
      && (forall uid :: Agrees(uid))
    }

    ghost predicate Agrees(uid: int)
      reads this
    {
      && LawfulLog(Log(uid))
      && Replay(Log(uid)).newest == (if uid in generations then generations[uid] else 0)
      && Replay(Log(uid)).owner == (if uid in owners then Some(owners[uid].generation) else None)
    }

    constructor ()
      ensures Valid() && logs == map[]
    {
      owners, generations, logs := map[], map[], map[];
    }

    /** Issues a generation above every earlier one, or fails and changes nothing. */
    method Acquire(uid: int, cancelled: bool) returns (r: Result<Token, StoreError>)
      requires Valid()
      modifies this
      ensures Valid()
      ensures r.Ok? <==> !cancelled && uid > 0 && old(Replay(Log(uid)).newest) < MAX_UINT64
      ensures r.Ok? ==>
                && r.value == Token(uid, old(Replay(Log(uid)).newest) + 1)
                && logs == old(logs)[uid := old(Log(uid)) + [Issued(r.value.generation)]]
      ensures r.Err? ==> logs == old(logs)
      ensures r == Err(Cancelled) <==> cancelled
      ensures r == Err(InvalidArgument) <==> !cancelled && uid <= 0
    {
      if cancelled {
        return Err(Cancelled);
      }
      if uid <= 0 {
        return Err(InvalidArgument);
      }
      assert Agrees(uid);
      var currentGeneration := if uid in generations then generations[uid] else 0;
      if currentGeneration == MAX_UINT64 {
        return Err(Exhausted);
      }
      var token := Token(uid, currentGeneration + 1);
      LogGrows(Log(uid), Issued(token.generation));
      generations := generations[uid := token.generation];
      owners := owners[uid := token];
      logs := logs[uid := Log(uid) + [Issued(token.generation)]];
      forall u | u != uid
        ensures Agrees(u)
      {
        assert old(Agrees(u));
      }
      r := Ok(token);
    }

    method Current(uid: int, cancelled: bool) returns (r: Result<Option<Token>, StoreError>)
      requires Valid()
      ensures r.Ok? <==> !cancelled && uid > 0
      ensures r.Ok? ==> forall g: nat :: r.value == Some(Token(uid, g)) <==> Replay(Log(uid)).owner == Some(g)
      ensures r.Ok? && r.value.Some? ==> r.value.value.uid == uid
      ensures r == Err(Cancelled) <==> cancelled
    {
      if cancelled {
        return Err(Cancelled);
      }
      if uid <= 0 {
        return Err(InvalidArgument);
      }
      assert Agrees(uid);
      r := Ok(if uid in owners then Some(owners[uid]) else None);
    }

    /** Frees the owner exactly when the caller names it. */
    method Release(uid: int, token: Token, cancelled: bool) returns (r: Result<bool, StoreError>)
      requires Valid()
      modifies this
      ensures Valid()
      ensures r.Ok? <==> !cancelled && uid > 0 && token.uid == uid && token.generation != 0
      ensures r == Err(Cancelled) <==> cancelled
      ensures r == Ok(true) <==> r.Ok? && old(Replay(Log(uid)).owner) == Some(token.generation)
      ensures logs == if r == Ok(true) then old(logs)[uid := old(Log(uid)) + [Freed(token.generation)]] else old(logs)
    {
      if cancelled {
        return Err(Cancelled);
      }
      if uid <= 0 || token.uid != uid || token.generation == 0 {
        return Err(InvalidArgument);
      }
      assert Agrees(uid);
      if uid !in owners || owners[uid] != token {
        return Ok(false);
      }
      LogGrows(Log(uid), Freed(token.generation));
      owners := owners - {uid};
      logs := logs[uid := Log(uid) + [Freed(token.generation)]];
      forall u | u != uid
        ensures Agrees(u)
      {
        assert old(Agrees(u));
      }
      r := Ok(true);
    }
  }
}
