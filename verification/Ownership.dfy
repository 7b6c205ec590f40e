/**
  What an OwnershipStore promises for one UID, whichever implementation serves it.

  A store issues generations, frees the current one on request, can lose it, and lets
  gates and nodes check a token. The history of one UID is a log of such events; a log
  is lawful when every event fits the ledger that the earlier events leave behind.
*/
module Ownership {
  import opened Prelude

  /** session.Token; generation 0 is never current. */
  datatype Token = Token(uid: int, generation: nat)

  const ZERO_TOKEN := Token(0, 0)

  datatype Site = Gate(id: nat) | Node(id: nat)

  datatype Event =
    | Issued(generation: nat)
    | Freed(generation: nat)
    | Lost
    | Accepted(site: Site, generation: nat)

  datatype Ledger = Ledger(newest: nat, owner: Option<nat>)

  const NOTHING_ISSUED := Ledger(0, None)

  predicate Lawful(l: Ledger, e: Event) {
    match e
    case Issued(g) => g > l.newest
    case Freed(g) => l.owner == Some(g)
    case Lost => true
    case Accepted(_, g) => l.owner == Some(g)
  }

  function Apply(l: Ledger, e: Event): Ledger {
    match e
    case Issued(g) => Ledger(g, Some(g))
    case Freed(_) => l.(owner := None)
    case Lost => l.(owner := None)
    case Accepted(_, _) => l
  }

  function Replay(log: seq<Event>): Ledger {
    if log == [] then NOTHING_ISSUED else Apply(Replay(log[..|log| - 1]), log[|log| - 1])
  }

  predicate LawfulLog(log: seq<Event>) {
    log == [] || (LawfulLog(log[..|log| - 1]) && Lawful(Replay(log[..|log| - 1]), log[|log| - 1]))
  }

  lemma LogGrows(log: seq<Event>, e: Event)
    requires LawfulLog(log) && Lawful(Replay(log), e)
    ensures LawfulLog(log + [e]) && Replay(log + [e]) == Apply(Replay(log), e)
  {
    assert (log + [e])[..|log|] == log;
  }

  /** The owner is absent or the newest generation, and everything issued is at most the newest. */
  lemma {:induction false} OwnerIsNewest(log: seq<Event>)
    requires LawfulLog(log)
    ensures Replay(log).owner in {None, Some(Replay(log).newest)}
    ensures forall i | 0 <= i < |log| && log[i].Issued? :: 0 < log[i].generation <= Replay(log).newest
  {
    if log != [] {
      var before := log[..|log| - 1];
      OwnerIsNewest(before);
      forall i | 0 <= i < |log| && log[i].Issued?
        ensures 0 < log[i].generation <= Replay(log).newest
      {
        if i < |before| {
          assert before[i] == log[i];
        }
      }
    }
  }

  lemma {:induction false} PrefixIsLawful(log: seq<Event>, k: nat)
    requires LawfulLog(log) && k <= |log|
    ensures LawfulLog(log[..k])
  {
    if k < |log| {
      PrefixIsLawful(log[..|log| - 1], k);
      assert log[..|log| - 1][..k] == log[..k];
    } else {
      assert log[..k] == log;
    }
  }

  lemma LawfulAt(log: seq<Event>, j: nat)
    requires LawfulLog(log) && j < |log|
    ensures LawfulLog(log[..j]) && Lawful(Replay(log[..j]), log[j])
  {
    PrefixIsLawful(log, j + 1);
    assert log[..j + 1][..j] == log[..j];
  }

  /** Each generation issued for a UID is above every generation issued before it. */
  lemma IssuedStrictlyIncrease(log: seq<Event>, i: nat, j: nat)
    requires LawfulLog(log) && i < j < |log|
    requires log[i].Issued? && log[j].Issued?
    ensures log[i].generation < log[j].generation
  {
    LawfulAt(log, j);
    OwnerIsNewest(log[..j]);
    assert log[..j][i] == log[i];
  }

  /**
    Fencing: once a generation is issued, no later check at any gate or node accepts a
    smaller one, and no later release frees a smaller one.
  */
  lemma NoStaleAcceptOrFree(log: seq<Event>, i: nat, j: nat)
    requires LawfulLog(log) && i < j < |log| && log[i].Issued?
    requires log[j].Accepted? || log[j].Freed?
    ensures log[j].generation >= log[i].generation
  {
    LawfulAt(log, j);
    OwnerIsNewest(log[..j]);
    assert log[..j][i] == log[i];
  }

  /** After an owner is freed or lost, nothing is accepted until a newer generation is issued. */
  lemma {:induction false} FreedStaysFreed(log: seq<Event>, i: nat, j: nat)
    requires LawfulLog(log) && i < j <= |log|
    requires log[i].Freed? || log[i].Lost?
    requires forall k | i < k < j :: !log[k].Issued?
    ensures Replay(log[..j]).owner == None
    ensures forall k | i < k < j :: !log[k].Accepted? && !log[k].Freed?
    decreases j
  {
    LawfulAt(log, j - 1);
    assert log[..j][..j - 1] == log[..j - 1];
    if i < j - 1 {
      FreedStaysFreed(log, i, j - 1);
    }
  }
}
