/**
  The scheduler of one node: registration, removal and teardown of actors.

  Any number of goroutines spawn, kill, release and bind actors at the same time. A
  goroutine inside an operation is a thread with a program counter; `mu` is the scheduler's
  lock. The release of an idle actor may be attempted for any actor at any time; when it is
  justified is the subject of ActorIdle. The node is Shut when it is made, and its state may
  be set to Shut and back at any time.
*/
module ActorScheduler {
  import opened Prelude

  datatype Status = Started | Destroyed

  /**
    The fields after `binds` are history: who spawns and who tears the actor down, whether
    `addWait` and registration happened, how often `Destroy` ran, whether the kill is over, and
    whether `addWait` and `doneWait` were called for it but did nothing, the node being Shut.
  */
  datatype Actor = Actor(
    pid: string,
    kind: string,
    wait: bool,
    status: Status,
    binds: set<int>,
    spawner: Option<nat>,
    counted: bool,
    registered: bool,
    reaper: Option<nat>,
    destroys: nat,
    finished: bool,
    addSkipped: bool,
    doneSkipped: bool)

  datatype Pc =
    // spawnObserved
    | Spawning(a: nat)
    | SpawnHeld(a: nat)
    | Counting(a: nat, skip: bool)
    | SpawnWaited(a: nat)
    // kill and killActor, then destroy
    | KillHeld(a: nat)
    | Unlinking(a: nat)
    | Destroying(a: nat)
    // killIdleActor
    | CommitMu(a: nat)
    | CommitHeld(a: nat)
    | CommitUnlinked(a: nat)
    // finishDestroy and doneWait
    | Finishing(a: nat)
    | Unbinding(a: nat)
    | Waiting(a: nat)
    | Uncounting(a: nat, skip: bool)
    // bindActor
    | Marking(a: nat, uid: int)
    | Relating(a: nat, uid: int)

  predicate HoldsMu(pc: Pc) {
    || pc.SpawnHeld? || pc.Counting? || pc.SpawnWaited? || pc.KillHeld? || pc.Unlinking?
    || pc.CommitMu? || pc.CommitHeld? || pc.CommitUnlinked?
  }

  type Relations = map<(int, string), nat>

  datatype System = System(
    actors: map<nat, Actor>,
    registry: map<string, nat>,
    relations: Relations,
    mu: Option<nat>,
    threads: map<nat, Pc>,
    wait: int,
    shut: bool)

  const MADE := System(map[], map[], map[], None, map[], 0, true)

  datatype Step =
    | Spawn(t: nat, a: nat, pid: string, kind: string, wait: bool)
    | Kill(t: nat, pid: string)
    | KillThis(t: nat, a: nat)
    | ReleaseIdle(t: nat, a: nat)
    | BindUser(t: nat, uid: int, pid: string)
    | UnbindUser(t: nat, uid: int, kind: string)
    | Advance(t: nat, current: bool)
    | SetNode(shut: bool)

  predicate Enabled(s: System, step: Step) {
    match step
    case Spawn(t, a, _, _, _) => t !in s.threads && a !in s.actors
    case Kill(t, _) => t !in s.threads && s.mu.None?
    case KillThis(t, a) => t !in s.threads && s.mu.None? && a in s.actors
    case ReleaseIdle(t, a) => t !in s.threads && s.mu.None? && a in s.actors
    case BindUser(t, _, _) => t !in s.threads
    case UnbindUser(t, _, _) => t !in s.threads
    case Advance(t, _) => t in s.threads && s.threads[t].a in s.actors && (s.threads[t].Spawning? ==> s.mu.None?)
    case SetNode(_) => true
  }

  /** Replaces actor `a` and moves thread `t`, which leaves when it has no next program counter. */
  function Move(s: System, t: nat, a: nat, x: Actor, pc: Option<Pc>): System {
    s.(actors := s.actors[a := x], threads := if pc.Some? then s.threads[t := pc.value] else s.threads - {t})
  }

  /** The relations that do not point at actor `a`. */
  function Without(relations: Relations, a: nat): Relations {
    map r | r in relations && relations[r] != a :: relations[r]
  }

  /** The relations without those of the users in `binds` that point at actor `a`. */
  function WithoutBinds(relations: Relations, a: nat, x: Actor): Relations {
    map r | r in relations && !(r.0 in x.binds && r.1 == x.kind && relations[r] == a) :: relations[r]
  }

  function Linked(s: System, a: nat): bool
    requires a in s.actors
  {
    s.actors[a].pid in s.registry && s.registry[s.actors[a].pid] == a
  }

  // --- The pieces of work between lock operations ---

  /** Under the lock: an actor with the same PID makes the spawn fail. */
  function SpawnLock(s: System, t: nat, a: nat, x: Actor): System {
    if x.pid in s.registry then Move(s, t, a, x, None) else Move(s, t, a, x, Some(SpawnHeld(a))).(mu := Some(t))
  }

  /** `addWait` after its test of the node's state, which is a step of its own; `skip` is what it found. */
  function SpawnWait(s: System, t: nat, a: nat, x: Actor, skip: bool): System {
    Move(s, t, a, x.(counted := true, addSkipped := x.wait && skip), Some(SpawnWaited(a)))
      .(wait := s.wait + if x.wait && !skip then 1 else 0)
  }

  function SpawnStore(s: System, t: nat, a: nat, x: Actor): System {
    Move(s, t, a, x.(registered := true, spawner := None), None).(registry := s.registry[x.pid := a], mu := None)
  }

  /** The first half of `removeActorLocked`. */
  function Unlink(s: System, t: nat, a: nat, x: Actor, pc: Pc): System {
    Move(s, t, a, x.(reaper := Some(t)), Some(pc)).(registry := s.registry - {x.pid})
  }

  /** Its second half, and the end of the critical section. */
  function Unrelate(s: System, t: nat, a: nat, x: Actor, pc: Pc): System {
    Move(s, t, a, x, Some(pc)).(relations := Without(s.relations, a), mu := None)
  }

  /** `destroy`: only the started-to-destroyed transition goes on to the teardown. */
  function Destroy(s: System, t: nat, a: nat, x: Actor): System {
    if x.status == Started then Move(s, t, a, x.(status := Destroyed), Some(Finishing(a))) else Move(s, t, a, x, Some(Waiting(a)))
  }

  /** `killIdleActor` decides under the lock; `current` is the outcome of its generation check. */
  function Commit(s: System, t: nat, a: nat, x: Actor, current: bool): System {
    if x.pid in s.registry && s.registry[x.pid] == a && current && x.status == Started
    then Move(s, t, a, x.(status := Destroyed, reaper := Some(t)), Some(CommitHeld(a)))
    else Move(s, t, a, x, None).(mu := None)
  }

  function RunDestroy(s: System, t: nat, a: nat, x: Actor): System {
    Move(s, t, a, x.(destroys := x.destroys + 1), Some(Unbinding(a)))
  }

  function Unbind(s: System, t: nat, a: nat, x: Actor): System {
    Move(s, t, a, x, Some(Waiting(a))).(relations := WithoutBinds(s.relations, a, x))
  }

  /** `doneWait`, likewise. */
  function DoneWait(s: System, t: nat, a: nat, x: Actor, skip: bool): System {
    Move(s, t, a, x.(finished := true, doneSkipped := x.wait && skip), None)
      .(wait := s.wait - if x.wait && !skip then 1 else 0)
  }

  function Continue(s: System, t: nat, current: bool): System
    requires t in s.threads && s.threads[t].a in s.actors
  {
    var a := s.threads[t].a;
    var x := s.actors[a];
    match s.threads[t]
    case Spawning(_) => SpawnLock(s, t, a, x)
    case SpawnHeld(_) => Move(s, t, a, x, Some(Counting(a, s.shut)))
    case Counting(_, skip) => SpawnWait(s, t, a, x, skip)
    case SpawnWaited(_) => SpawnStore(s, t, a, x)
    case KillHeld(_) => Unlink(s, t, a, x, Unlinking(a))
    case Unlinking(_) => Unrelate(s, t, a, x, Destroying(a))
    case Destroying(_) => Destroy(s, t, a, x)
    case CommitMu(_) => Commit(s, t, a, x, current)
    case CommitHeld(_) => Unlink(s, t, a, x, CommitUnlinked(a))
    case CommitUnlinked(_) => Unrelate(s, t, a, x, Finishing(a))
    case Finishing(_) => RunDestroy(s, t, a, x)
    case Unbinding(_) => Unbind(s, t, a, x)
    case Waiting(_) => Move(s, t, a, x, Some(Uncounting(a, s.shut)))
    case Uncounting(_, skip) => DoneWait(s, t, a, x, skip)
    case Marking(_, uid) => Move(s, t, a, x.(binds := x.binds + {uid}), Some(Relating(a, uid)))
    case Relating(_, uid) => Move(s, t, a, x, None).(relations := s.relations[(uid, x.kind) := a])
  }

  // --- The beginnings of operations ---

  /** Takes the lock for a kill or a release of a known actor. */
  function Lock(s: System, t: nat, a: nat, x: Actor, pc: Pc): System {
    Move(s, t, a, x, Some(pc)).(mu := Some(t))
  }

  function NewActor(t: nat, pid: string, kind: string, wait: bool): Actor {
    Actor(pid, kind, wait, Started, {}, Some(t), false, false, None, 0, false, false, false)
  }

  /** `unbindActor`. */
  function UnbindOne(s: System, t: nat, uid: int, kind: string): System {
    if (uid, kind) in s.relations && s.relations[(uid, kind)] in s.actors && uid in s.actors[s.relations[(uid, kind)]].binds then
      var a := s.relations[(uid, kind)];
      Move(s, t, a, s.actors[a].(binds := s.actors[a].binds - {uid}), None).(relations := s.relations - {(uid, kind)})
    else s
  }

  function Next(s: System, step: Step): System
    requires Enabled(s, step)
  {
    match step
    case Spawn(t, a, pid, kind, wait) => Move(s, t, a, NewActor(t, pid, kind, wait), Some(Spawning(a)))
    case Kill(t, pid) =>
      if pid in s.registry && s.registry[pid] in s.actors
      then Lock(s, t, s.registry[pid], s.actors[s.registry[pid]], KillHeld(s.registry[pid])) else s
    case KillThis(t, a) => if Linked(s, a) then Lock(s, t, a, s.actors[a], KillHeld(a)) else s
    case ReleaseIdle(t, a) => Lock(s, t, a, s.actors[a], CommitMu(a))
    case BindUser(t, uid, pid) =>
      if uid != 0 && pid in s.registry && s.registry[pid] in s.actors
      then Move(s, t, s.registry[pid], s.actors[s.registry[pid]], Some(Marking(s.registry[pid], uid))) else s
    case UnbindUser(t, uid, kind) => UnbindOne(s, t, uid, kind)
    case Advance(t, current) => Continue(s, t, current)
    case SetNode(shut) => s.(shut := shut)
  }

  // --- The invariant ---

  predicate ActorInv(s: System, a: nat, x: Actor) {
    && (x.reaper.None? ==> x.status == Started && !x.finished)
    && (x.status == Started ==> x.destroys == 0) && x.destroys <= 1
    && (x.registered && x.reaper.None? ==> x.pid in s.registry && s.registry[x.pid] == a)
    && (x.registered ==> x.spawner.None? && x.counted)
    && (x.reaper.Some? ==> x.registered)
    && (x.addSkipped ==> x.wait && x.counted) && (x.doneSkipped ==> x.wait && x.finished)
  }

  /** A registered actor is nobody's to tear down, except while an idle release still holds the lock. */
  predicate RegistryInv(s: System, pid: string)
    requires pid in s.registry
  {
    var a := s.registry[pid];
    && a in s.actors && s.actors[a].pid == pid && s.actors[a].registered
    && (s.actors[a].reaper.Some? ==>
          s.mu == s.actors[a].reaper && s.mu.value in s.threads && s.threads[s.mu.value] == CommitHeld(a))
  }

  predicate Reaping(x: Actor, t: nat, status: Status, destroys: nat) {
    x.reaper == Some(t) && x.status == status && x.destroys == destroys && !x.finished
  }

  predicate ThreadInv(s: System, t: nat, pc: Pc) {
    && pc.a in s.actors && (HoldsMu(pc) ==> s.mu == Some(t))
    && var x := s.actors[pc.a];
    match pc
    case Spawning(_) => x.spawner == Some(t) && !x.counted
    case SpawnHeld(_) => x.spawner == Some(t) && !x.counted && x.pid !in s.registry
    case Counting(_, _) => x.spawner == Some(t) && !x.counted && x.pid !in s.registry
    case SpawnWaited(_) => x.spawner == Some(t) && x.counted && x.pid !in s.registry
    case KillHeld(a) => Linked(s, a) && x.reaper.None?
    case Unlinking(_) => Reaping(x, t, Started, 0)
    case Destroying(_) => Reaping(x, t, Started, 0)
    case CommitMu(_) => true
    case CommitHeld(a) => Linked(s, a) && Reaping(x, t, Destroyed, 0)
    case CommitUnlinked(_) => Reaping(x, t, Destroyed, 0)
    case Finishing(_) => Reaping(x, t, Destroyed, 0)
    case Unbinding(_) => Reaping(x, t, Destroyed, 1)
    case Waiting(_) => Reaping(x, t, Destroyed, 1)
    case Uncounting(_, _) => Reaping(x, t, Destroyed, 1)
    case Marking(_, _) => true
    case Relating(_, _) => true
  }

  predicate IsAwaited(x: Actor) {
    x.wait && x.counted && !x.finished
  }

  /** Waiting actors that passed `addWait` and have not passed `doneWait`. */
  function Awaited(s: System): set<nat> {
    set a | a in s.actors && IsAwaited(s.actors[a])
  }

  /** Waiting actors whose `addWait` found the node Shut. */
  function AddSkipped(s: System): set<nat> {
    set a | a in s.actors && s.actors[a].addSkipped
  }

  /** Waiting actors whose `doneWait` found the node Shut. */
  function DoneSkipped(s: System): set<nat> {
    set a | a in s.actors && s.actors[a].doneSkipped
  }

  predicate WaitBalances(s: System) {
    s.wait == |Awaited(s)| - |AddSkipped(s)| + |DoneSkipped(s)|
  }

  predicate Inv(s: System) {
    && (forall a | a in s.actors :: ActorInv(s, a, s.actors[a]))
    && (forall pid | pid in s.registry :: RegistryInv(s, pid))
    && (forall t | t in s.threads :: ThreadInv(s, t, s.threads[t]))
    && (s.mu.Some? ==> s.mu.value in s.threads && HoldsMu(s.threads[s.mu.value]))
    && WaitBalances(s)
  }

  // --- What one step leaves alone ---

  /** A step of thread `t` about actor `a`: other actors, threads and registrations stay. */
  predicate Frame(s: System, s': System, t: nat, a: nat) {
    && (forall b | b in s.actors && b != a :: b in s'.actors && s'.actors[b] == s.actors[b])
    && (forall b | b in s'.actors && b != a :: b in s.actors)
    && (forall u | u in s.threads && u != t :: u in s'.threads && s'.threads[u] == s.threads[u])
    && (forall u | u in s'.threads && u != t :: u in s.threads)
    && (t in s.threads ==> s.threads[t].a == a)
    && (forall pid | pid in s.registry && s.registry[pid] != a :: pid in s'.registry && s'.registry[pid] == s.registry[pid])
    && (forall pid | pid in s'.registry && s'.registry[pid] != a :: pid in s.registry && s.registry[pid] == s'.registry[pid])
    && (s.mu.Some? && s.mu.value != t ==> s'.mu == s.mu && s'.registry == s.registry)
    && (s'.mu.Some? && s'.mu.value != t ==> s.mu == s'.mu)
  }

  /** How a step of thread `t` may change its actor under the eyes of the others. */
  predicate Considerate(s: System, x: Actor, x': Actor, t: nat) {
    && x'.pid == x.pid && x'.wait == x.wait
    && (x.reaper.Some? && x.reaper.value != t ==>
          x'.reaper == x.reaper && x'.status == x.status && x'.destroys == x.destroys && x'.finished == x.finished)
    && (x.spawner.Some? && x.spawner.value != t ==> x'.spawner == x.spawner && x'.counted == x.counted)
    && (s.mu.Some? && s.mu.value != t ==> x'.reaper == x.reaper)
  }

  /** The invariant at the places a step touches. */
  predicate Local(s: System, t: nat, a: nat) {
    && a in s.actors && ActorInv(s, a, s.actors[a])
    && (t in s.threads ==> ThreadInv(s, t, s.threads[t]))
    && (forall pid | pid in s.registry && s.registry[pid] == a :: RegistryInv(s, pid))
    && (s.mu == Some(t) ==> t in s.threads && HoldsMu(s.threads[t]))
  }

  lemma OtherThread(s: System, s': System, t: nat, a: nat, u: nat)
    requires Inv(s) && Frame(s, s', t, a) && a in s'.actors && u in s.threads && u != t
    requires a in s.actors ==> Considerate(s, s.actors[a], s'.actors[a], t)
    ensures u in s'.threads && ThreadInv(s', u, s'.threads[u])
  {
    assert ThreadInv(s, u, s.threads[u]);
  }

  lemma OtherRegistration(s: System, s': System, t: nat, a: nat, pid: string)
    requires Inv(s) && Frame(s, s', t, a) && pid in s'.registry && s'.registry[pid] != a
    ensures RegistryInv(s', pid)
  {
    assert RegistryInv(s, pid);
  }

  lemma StepKeepsInv(s: System, s': System, t: nat, a: nat)
    requires Inv(s) && Frame(s, s', t, a) && Local(s', t, a)
    requires a in s.actors ==> Considerate(s, s.actors[a], s'.actors[a], t)
    requires WaitBalances(s')
    ensures Inv(s')
  {
    forall b | b in s'.actors ensures ActorInv(s', b, s'.actors[b]) {
      assert b != a ==> ActorInv(s, b, s.actors[b]);
    }
    forall pid | pid in s'.registry ensures RegistryInv(s', pid) {
      if s'.registry[pid] != a {
        OtherRegistration(s, s', t, a, pid);
      }
    }
    forall u | u in s'.threads ensures ThreadInv(s', u, s'.threads[u]) {
      if u != t {
        OtherThread(s, s', t, a, u);
      }
    }
  }

  /** The part of the invariant that a step of thread `t` about actor `a` relies on. */
  predicate Premise(s: System, t: nat, a: nat, x: Actor) {
    && a in s.actors && s.actors[a] == x && ActorInv(s, a, x)
    && (t in s.threads ==> s.threads[t].a == a && ThreadInv(s, t, s.threads[t]))
    && (forall pid | pid in s.registry && s.registry[pid] == a :: RegistryInv(s, pid))
    && (s.mu == Some(t) ==> t in s.threads && HoldsMu(s.threads[t]))
  }

  predicate Preserved(s: System, s': System, t: nat, a: nat, x: Actor) {
    Frame(s, s', t, a) && Local(s', t, a) && a in s'.actors && Considerate(s, x, s'.actors[a], t)
  }

  lemma SpawnLockLocally(s: System, t: nat, a: nat, x: Actor)
    requires Premise(s, t, a, x) && t in s.threads && s.threads[t] == Spawning(a) && s.mu.None?
    ensures Preserved(s, SpawnLock(s, t, a, x), t, a, x)
  {
  }

  /** The tests of the node's state in `addWait` and `doneWait`. */
  lemma TestLocally(s: System, t: nat, a: nat, x: Actor, pc: Pc)
    requires Premise(s, t, a, x) && t in s.threads
    requires (s.threads[t] == SpawnHeld(a) && pc == Counting(a, s.shut)) || (s.threads[t] == Waiting(a) && pc == Uncounting(a, s.shut))
    ensures Preserved(s, Move(s, t, a, x, Some(pc)), t, a, x)
  {
  }

  lemma SpawnWaitLocally(s: System, t: nat, a: nat, x: Actor, skip: bool)
    requires Premise(s, t, a, x) && t in s.threads && s.threads[t] == Counting(a, skip)
    ensures Preserved(s, SpawnWait(s, t, a, x, skip), t, a, x)
  {
  }

  lemma SpawnStoreLocally(s: System, t: nat, a: nat, x: Actor)
    requires Premise(s, t, a, x) && t in s.threads && s.threads[t] == SpawnWaited(a)
    ensures Preserved(s, SpawnStore(s, t, a, x), t, a, x)
  {
  }

  lemma UnlinkLocally(s: System, t: nat, a: nat, x: Actor, pc: Pc)
    requires Premise(s, t, a, x) && t in s.threads
    requires (s.threads[t] == KillHeld(a) && pc == Unlinking(a)) || (s.threads[t] == CommitHeld(a) && pc == CommitUnlinked(a))
    ensures Preserved(s, Unlink(s, t, a, x, pc), t, a, x)
  {
  }

  lemma UnrelateLocally(s: System, t: nat, a: nat, x: Actor, pc: Pc)
    requires Premise(s, t, a, x) && t in s.threads
    requires (s.threads[t] == Unlinking(a) && pc == Destroying(a)) || (s.threads[t] == CommitUnlinked(a) && pc == Finishing(a))
    ensures Preserved(s, Unrelate(s, t, a, x, pc), t, a, x)
  {
  }

  lemma DestroyLocally(s: System, t: nat, a: nat, x: Actor)
    requires Premise(s, t, a, x) && t in s.threads && s.threads[t] == Destroying(a)
    ensures Preserved(s, Destroy(s, t, a, x), t, a, x)
  {
  }

  lemma CommitLocally(s: System, t: nat, a: nat, x: Actor, current: bool)
    requires Premise(s, t, a, x) && t in s.threads && s.threads[t] == CommitMu(a)
    ensures Preserved(s, Commit(s, t, a, x, current), t, a, x)
  {
  }

  lemma RunDestroyLocally(s: System, t: nat, a: nat, x: Actor)
    requires Premise(s, t, a, x) && t in s.threads && s.threads[t] == Finishing(a)
    ensures Preserved(s, RunDestroy(s, t, a, x), t, a, x)
  {
  }

  lemma UnbindLocally(s: System, t: nat, a: nat, x: Actor)
    requires Premise(s, t, a, x) && t in s.threads && s.threads[t] == Unbinding(a)
    ensures Preserved(s, Unbind(s, t, a, x), t, a, x)
  {
  }

  lemma DoneWaitLocally(s: System, t: nat, a: nat, x: Actor, skip: bool)
    requires Premise(s, t, a, x) && t in s.threads && s.threads[t] == Uncounting(a, skip)
    ensures Preserved(s, DoneWait(s, t, a, x, skip), t, a, x)
  {
  }

  lemma LockLocally(s: System, t: nat, a: nat, x: Actor, pc: Pc)
    requires Premise(s, t, a, x) && t !in s.threads && s.mu.None?
    requires pc == CommitMu(a) || (pc == KillHeld(a) && Linked(s, a))
    ensures Preserved(s, Lock(s, t, a, x, pc), t, a, x)
  {
  }

  /** Steps that only move a thread of `bindActor` or change an actor's binds. */
  lemma BindMovesLocally(s: System, t: nat, a: nat, x: Actor, binds: set<int>, pc: Pc)
    requires Premise(s, t, a, x) && (t in s.threads ==> s.threads[t].Marking?)
    requires pc.a == a && (pc.Marking? || pc.Relating?)
    ensures Preserved(s, Move(s, t, a, x.(binds := binds), Some(pc)), t, a, x)
  {
  }

  lemma BindLeavesLocally(s: System, t: nat, a: nat, x: Actor, binds: set<int>, relations: Relations)
    requires Premise(s, t, a, x) && (t in s.threads ==> s.threads[t].Relating?)
    ensures Preserved(s, Move(s, t, a, x.(binds := binds), None).(relations := relations), t, a, x)
  {
  }

  // --- Every step keeps the invariant ---

  lemma InvGivesPremise(s: System, t: nat, a: nat)
    requires Inv(s) && a in s.actors && (t in s.threads ==> s.threads[t].a == a)
    ensures Premise(s, t, a, s.actors[a])
  {
    assert ActorInv(s, a, s.actors[a]);
  }

  function One(b: bool): nat {
    if b then 1 else 0
  }

  lemma SizeChange(before: set<nat>, after: set<nat>, a: nat)
    requires before - {a} == after - {a}
    ensures |after| == |before| - One(a in before) + One(a in after)
  {
    assert |before| == |before - {a}| + One(a in before) by {
      assert a !in before ==> before - {a} == before;
    }
    assert |after| == |after - {a}| + One(a in after) by {
      assert a !in after ==> after - {a} == after;
    }
  }

  /** The three counts after one actor changed from `x` to `x'`, or appeared. */
  lemma BooksAfter(s: System, s': System, a: nat, x': Actor)
    requires s'.actors == s.actors[a := x']
    ensures var known := a in s.actors;
            && |Awaited(s')| == |Awaited(s)| - One(known && IsAwaited(s.actors[a])) + One(IsAwaited(x'))
            && |AddSkipped(s')| == |AddSkipped(s)| - One(known && s.actors[a].addSkipped) + One(x'.addSkipped)
            && |DoneSkipped(s')| == |DoneSkipped(s)| - One(known && s.actors[a].doneSkipped) + One(x'.doneSkipped)
  {
    SizeChange(Awaited(s), Awaited(s'), a);
    SizeChange(AddSkipped(s), AddSkipped(s'), a);
    SizeChange(DoneSkipped(s), DoneSkipped(s'), a);
  }

  predicate SameBooks(x: Actor, x': Actor) {
    && x'.wait == x.wait && x'.counted == x.counted && x'.finished == x.finished
    && x'.addSkipped == x.addSkipped && x'.doneSkipped == x.doneSkipped
  }

  /** A step that changes nothing the wait count depends on. */
  lemma Conclude(s: System, s': System, t: nat, a: nat)
    requires Inv(s) && a in s.actors && Preserved(s, s', t, a, s.actors[a])
    requires s'.wait == s.wait && SameBooks(s.actors[a], s'.actors[a])
    ensures Inv(s')
  {
    assert s'.actors == s.actors[a := s'.actors[a]];
    BooksAfter(s, s', a, s'.actors[a]);
    StepKeepsInv(s, s', t, a);
  }

  lemma SpawnWaitKeeps(s: System, t: nat, a: nat, skip: bool)
    requires Inv(s) && t in s.threads && s.threads[t] == Counting(a, skip) && a in s.actors
    ensures Inv(SpawnWait(s, t, a, s.actors[a], skip))
  {
    var x, s' := s.actors[a], SpawnWait(s, t, a, s.actors[a], skip);
    InvGivesPremise(s, t, a);
    SpawnWaitLocally(s, t, a, x, skip);
    BooksAfter(s, s', a, s'.actors[a]);
    StepKeepsInv(s, s', t, a);
  }

  lemma DoneWaitKeeps(s: System, t: nat, a: nat, skip: bool)
    requires Inv(s) && t in s.threads && s.threads[t] == Uncounting(a, skip) && a in s.actors
    ensures Inv(DoneWait(s, t, a, s.actors[a], skip))
  {
    var x, s' := s.actors[a], DoneWait(s, t, a, s.actors[a], skip);
    InvGivesPremise(s, t, a);
    DoneWaitLocally(s, t, a, x, skip);
    BooksAfter(s, s', a, s'.actors[a]);
    StepKeepsInv(s, s', t, a);
  }

  lemma ContinueKeeps(s: System, t: nat, current: bool)
    requires Inv(s) && Enabled(s, Advance(t, current))
    ensures Inv(Continue(s, t, current))
  {
    var a, s' := s.threads[t].a, Continue(s, t, current);
    var x := s.actors[a];
    if s.threads[t].Counting? {
      SpawnWaitKeeps(s, t, a, s.threads[t].skip);
    } else if s.threads[t].Uncounting? {
      DoneWaitKeeps(s, t, a, s.threads[t].skip);
    } else {
      InvGivesPremise(s, t, a);
      ContinueLocally(s, t, a, x, current);
      Conclude(s, s', t, a);
    }
  }

  predicate Quiet(s: System, s': System, t: nat, a: nat, x: Actor) {
    Preserved(s, s', t, a, x) && s'.wait == s.wait && SameBooks(x, s'.actors[a])
  }

  lemma ContinueLocally(s: System, t: nat, a: nat, x: Actor, current: bool)
    requires Premise(s, t, a, x) && Enabled(s, Advance(t, current)) && !s.threads[t].Counting? && !s.threads[t].Uncounting?
    ensures Quiet(s, Continue(s, t, current), t, a, x)
  {
    var pc := s.threads[t];
    if pc.KillHeld? || pc.Unlinking? || pc.CommitHeld? || pc.CommitUnlinked? {
      RemoveLocally(s, t, a, x, current);
    } else if pc.Spawning? || pc.SpawnWaited? || pc.Marking? || pc.Relating? {
      ArriveLocally(s, t, a, x, current);
    } else if pc.SpawnHeld? {
      TestLocally(s, t, a, x, Counting(a, s.shut));
    } else if pc.Waiting? {
      TestLocally(s, t, a, x, Uncounting(a, s.shut));
    } else {
      DestroyingLocally(s, t, a, x, current);
    }
  }

  lemma RemoveLocally(s: System, t: nat, a: nat, x: Actor, current: bool)
    requires Premise(s, t, a, x) && t in s.threads
    requires s.threads[t].KillHeld? || s.threads[t].Unlinking? || s.threads[t].CommitHeld? || s.threads[t].CommitUnlinked?
    ensures Quiet(s, Continue(s, t, current), t, a, x)
  {
    match s.threads[t]
    case KillHeld(_) => UnlinkLocally(s, t, a, x, Unlinking(a));
    case Unlinking(_) => UnrelateLocally(s, t, a, x, Destroying(a));
    case CommitHeld(_) => UnlinkLocally(s, t, a, x, CommitUnlinked(a));
    case CommitUnlinked(_) => UnrelateLocally(s, t, a, x, Finishing(a));
  }

  lemma ArriveLocally(s: System, t: nat, a: nat, x: Actor, current: bool)
    requires Premise(s, t, a, x) && t in s.threads && (s.threads[t].Spawning? ==> s.mu.None?)
    requires s.threads[t].Spawning? || s.threads[t].SpawnWaited? || s.threads[t].Marking? || s.threads[t].Relating?
    ensures Quiet(s, Continue(s, t, current), t, a, x)
  {
    match s.threads[t]
    case Spawning(_) => SpawnLockLocally(s, t, a, x);
    case SpawnWaited(_) => SpawnStoreLocally(s, t, a, x);
    case Marking(_, uid) => BindMovesLocally(s, t, a, x, x.binds + {uid}, Relating(a, uid));
    case Relating(_, uid) => BindLeavesLocally(s, t, a, x, x.binds, s.relations[(uid, x.kind) := a]);
  }

  lemma DestroyingLocally(s: System, t: nat, a: nat, x: Actor, current: bool)
    requires Premise(s, t, a, x) && t in s.threads
    requires s.threads[t].Destroying? || s.threads[t].CommitMu? || s.threads[t].Finishing? || s.threads[t].Unbinding?
    ensures Quiet(s, Continue(s, t, current), t, a, x)
  {
    match s.threads[t]
    case Destroying(_) => DestroyLocally(s, t, a, x);
    case CommitMu(_) => CommitLocally(s, t, a, x, current);
    case Finishing(_) => RunDestroyLocally(s, t, a, x);
    case Unbinding(_) => UnbindLocally(s, t, a, x);
  }

  lemma LockKeeps(s: System, t: nat, a: nat, pc: Pc)
    requires Inv(s) && t !in s.threads && s.mu.None? && a in s.actors
    requires pc == CommitMu(a) || (pc == KillHeld(a) && Linked(s, a))
    ensures Inv(Lock(s, t, a, s.actors[a], pc))
  {
    InvGivesPremise(s, t, a);
    LockLocally(s, t, a, s.actors[a], pc);
    Conclude(s, Lock(s, t, a, s.actors[a], pc), t, a);
  }

  lemma SpawnKeeps(s: System, t: nat, a: nat, pid: string, kind: string, wait: bool)
    requires Inv(s) && t !in s.threads && a !in s.actors
    ensures Inv(Move(s, t, a, NewActor(t, pid, kind, wait), Some(Spawning(a))))
  {
    var s' := Move(s, t, a, NewActor(t, pid, kind, wait), Some(Spawning(a)));
    BooksAfter(s, s', a, NewActor(t, pid, kind, wait));
    forall p | p in s.registry ensures s.registry[p] != a {
      assert RegistryInv(s, p);
    }
    StepKeepsInv(s, s', t, a);
  }

  lemma BindKeeps(s: System, t: nat, uid: int, a: nat)
    requires Inv(s) && t !in s.threads && a in s.actors
    ensures Inv(Move(s, t, a, s.actors[a], Some(Marking(a, uid))))
  {
    InvGivesPremise(s, t, a);
    BindMovesLocally(s, t, a, s.actors[a], s.actors[a].binds, Marking(a, uid));
    Conclude(s, Move(s, t, a, s.actors[a], Some(Marking(a, uid))), t, a);
  }

  lemma UnbindKeeps(s: System, t: nat, uid: int, kind: string)
    requires Inv(s) && t !in s.threads
    ensures Inv(UnbindOne(s, t, uid, kind))
  {
    if (uid, kind) in s.relations && s.relations[(uid, kind)] in s.actors && uid in s.actors[s.relations[(uid, kind)]].binds {
      var a := s.relations[(uid, kind)];
      var x := s.actors[a];
      InvGivesPremise(s, t, a);
      BindLeavesLocally(s, t, a, x, x.binds - {uid}, s.relations - {(uid, kind)});
      Conclude(s, UnbindOne(s, t, uid, kind), t, a);
    }
  }

  lemma SetNodeKeeps(s: System, shut: bool)
    requires Inv(s)
    ensures Inv(s.(shut := shut))
  {
    var s' := s.(shut := shut);
    forall pid | pid in s'.registry ensures RegistryInv(s', pid) {
      assert RegistryInv(s, pid);
    }
    forall t | t in s'.threads ensures ThreadInv(s', t, s'.threads[t]) {
      assert ThreadInv(s, t, s.threads[t]);
    }
  }

  lemma StepKeeps(s: System, step: Step)
    requires Inv(s) && Enabled(s, step)
    ensures Inv(Next(s, step))
  {
    match step
    case Spawn(t, a, pid, kind, wait) => SpawnKeeps(s, t, a, pid, kind, wait);
    case Kill(t, pid) =>
      if pid in s.registry {
        assert RegistryInv(s, pid);
        LockKeeps(s, t, s.registry[pid], KillHeld(s.registry[pid]));
      }
    case KillThis(t, a) =>
      if Linked(s, a) {
        LockKeeps(s, t, a, KillHeld(a));
      }
    case ReleaseIdle(t, a) => LockKeeps(s, t, a, CommitMu(a));
    case BindUser(t, uid, pid) =>
      if pid in s.registry && s.registry[pid] in s.actors {
        BindKeeps(s, t, uid, s.registry[pid]);
      }
    case UnbindUser(t, uid, kind) => UnbindKeeps(s, t, uid, kind);
    case Advance(t, current) => ContinueKeeps(s, t, current);
    case SetNode(shut) => SetNodeKeeps(s, shut);
  }

  // --- Whole runs ---

  /** A run: the states of the node, one step apart, from the moment it is made. */
  ghost predicate IsRun(states: seq<System>) {
    && |states| > 0 && states[0] == MADE
    && forall i | 0 < i < |states| :: Follows(states[i - 1], states[i])
  }

  ghost predicate Follows(s: System, s': System) {
    exists step :: Enabled(s, step) && s' == Next(s, step)
  }

  lemma {:induction false} RunKeeps(states: seq<System>, i: nat)
    requires IsRun(states) && i < |states|
    ensures Inv(states[i])
  {
    if i > 0 {
      RunKeeps(states, i - 1);
      assert Follows(states[i - 1], states[i]);
      var step :| Enabled(states[i - 1], step) && states[i] == Next(states[i - 1], step);
      StepKeeps(states[i - 1], step);
    }
  }

  /** An idle release of actor `a` is past its commit and still holds the scheduler's lock. */
  predicate CommitInProgress(s: System, a: nat) {
    s.mu.Some? && s.mu.value in s.threads && s.threads[s.mu.value] == CommitHeld(a)
  }

  lemma RegisteredIsStartedIff(s: System, pid: string)
    requires Inv(s) && pid in s.registry
    ensures var a := s.registry[pid];
            && a in s.actors && s.actors[a].pid == pid
            && (s.actors[a].status == Started <==> !CommitInProgress(s, a))
  {
    assert RegistryInv(s, pid);
    assert ActorInv(s, s.registry[pid], s.actors[s.registry[pid]]);
    if s.mu.Some? {
      assert ThreadInv(s, s.mu.value, s.threads[s.mu.value]);
    }
  }

  /**
    At every moment of every run: a registered actor carries the PID it is registered under
    and is started, except exactly while an idle release of that very actor holds the lock, so
    always when the lock is free; and `Destroy` ran at most once on each actor and only after it
    left the started state.
  */
  lemma LifecycleHolds(states: seq<System>, i: nat)
    requires IsRun(states) && i < |states|
    ensures var s := states[i];
            && (forall pid | pid in s.registry ::
                  && s.registry[pid] in s.actors && s.actors[s.registry[pid]].pid == pid
                  && (s.actors[s.registry[pid]].status == Started <==> !CommitInProgress(s, s.registry[pid]))
                  && (s.mu.None? ==> s.actors[s.registry[pid]].status == Started))
            && (forall a | a in s.actors ::
                  s.actors[a].destroys <= 1 && (s.actors[a].status == Started ==> s.actors[a].destroys == 0))
  {
    RunKeeps(states, i);
    var s := states[i];
    forall pid | pid in s.registry
      ensures && s.registry[pid] in s.actors && s.actors[s.registry[pid]].pid == pid
              && (s.actors[s.registry[pid]].status == Started <==> !CommitInProgress(s, s.registry[pid]))
    {
      RegisteredIsStartedIff(s, pid);
    }
    forall a | a in s.actors
      ensures s.actors[a].destroys <= 1 && (s.actors[a].status == Started ==> s.actors[a].destroys == 0)
    {
      assert ActorInv(s, a, s.actors[a]);
    }
  }

  /**
    The wait count at every moment of every run, whatever the node's state was and is: the
    waiting actors between `addWait` and `doneWait`, less those whose `addWait` found the node
    Shut, plus those whose `doneWait` did. So it is the number of waiting actors not yet fully
    killed exactly when equally many of the two calls were skipped.
  */
  lemma WaitCountHolds(states: seq<System>, i: nat)
    requires IsRun(states) && i < |states|
    ensures var s := states[i];
            && s.wait == |Awaited(s)| - |AddSkipped(s)| + |DoneSkipped(s)|
            && (s.wait == |Awaited(s)| <==> |AddSkipped(s)| == |DoneSkipped(s)|)
            && (forall a | a in AddSkipped(s) :: s.actors[a].wait && s.actors[a].counted)
            && (forall a | a in DoneSkipped(s) :: s.actors[a].wait && s.actors[a].finished)
  {
    RunKeeps(states, i);
    var s := states[i];
    forall a | a in s.actors
      ensures s.actors[a].addSkipped ==> s.actors[a].wait && s.actors[a].counted
      ensures s.actors[a].doneSkipped ==> s.actors[a].wait && s.actors[a].finished
    {
      assert ActorInv(s, a, s.actors[a]);
    }
  }

  /** The step by which `addWait` or `doneWait`, having found the node Shut, passes over a waiting actor. */
  predicate Skips(s: System, step: Step) {
    && step.Advance? && step.t in s.threads && s.threads[step.t].a in s.actors
    && (s.threads[step.t].Counting? || s.threads[step.t].Uncounting?)
    && s.actors[s.threads[step.t].a].wait && s.threads[step.t].skip
  }

  /** A run with its steps. */
  ghost predicate Traced(states: seq<System>, steps: seq<Step>) {
    && |states| == |steps| + 1 && states[0] == MADE
    && forall i | 0 <= i < |steps| :: Enabled(states[i], steps[i]) && states[i + 1] == Next(states[i], steps[i])
  }

  /** A run with its steps, none of which skips a count. */
  ghost predicate Unskipped(states: seq<System>, steps: seq<Step>) {
    Traced(states, steps) && forall i | 0 <= i < |steps| :: !Skips(states[i], steps[i])
  }

  lemma ContinueSkips(s: System, t: nat, current: bool)
    requires t in s.threads && s.threads[t].a in s.actors
    ensures var a := s.threads[t].a;
            var x, s' := s.actors[a], Continue(s, t, current);
            && a in s'.actors && s'.actors == s.actors[a := s'.actors[a]]
            && s'.actors[a].addSkipped == (if s.threads[t].Counting? then x.wait && s.threads[t].skip else x.addSkipped)
            && s'.actors[a].doneSkipped == (if s.threads[t].Uncounting? then x.wait && s.threads[t].skip else x.doneSkipped)
  {
    match s.threads[t] {
      case Destroying(_) =>
      case CommitMu(_) =>
      case Spawning(_) =>
      case _ =>
    }
  }

  /** How far the wait count is from the number of waiting actors not yet fully killed. */
  function Drift(s: System): int {
    s.wait - |Awaited(s)|
  }

  /** The count goes wrong, by one, in exactly the steps that skip: down by `addWait`, up by `doneWait`. */
  lemma DriftsIff(s: System, step: Step)
    requires Inv(s) && Enabled(s, step)
    ensures Drift(Next(s, step)) == Drift(s) +
            (if !Skips(s, step) then 0 else if s.threads[step.t].Counting? then -1 else 1)
  {
    StepKeeps(s, step);
    if step.Advance? {
      var a := s.threads[step.t].a;
      var s' := Next(s, step);
      assert ThreadInv(s, step.t, s.threads[step.t]) && ActorInv(s, a, s.actors[a]);
      ContinueSkips(s, step.t, step.current);
      BooksAfter(s, s', a, s'.actors[a]);
    } else {
      OthersSkipNothing(s, step);
    }
  }

  lemma SameSkips(s: System, s': System, a: nat, x': Actor)
    requires s'.actors == s.actors[a := x']
    requires x'.addSkipped == (a in s.actors && s.actors[a].addSkipped)
    requires x'.doneSkipped == (a in s.actors && s.actors[a].doneSkipped)
    ensures AddSkipped(s') == AddSkipped(s) && DoneSkipped(s') == DoneSkipped(s)
  {
  }

  lemma OthersSkipNothing(s: System, step: Step)
    requires Inv(s) && Enabled(s, step) && !step.Advance?
    ensures AddSkipped(Next(s, step)) == AddSkipped(s) && DoneSkipped(Next(s, step)) == DoneSkipped(s)
  {
    var s' := Next(s, step);
    match step
    case Spawn(t, a, pid, kind, wait) => SameSkips(s, s', a, NewActor(t, pid, kind, wait));
    case Kill(_, pid) =>
      if s' != s {
        SameSkips(s, s', s.registry[pid], s.actors[s.registry[pid]]);
      }
    case KillThis(_, a) => SameSkips(s, s', a, s.actors[a]);
    case ReleaseIdle(_, a) => SameSkips(s, s', a, s.actors[a]);
    case BindUser(_, _, pid) =>
      if s' != s {
        SameSkips(s, s', s.registry[pid], s.actors[s.registry[pid]]);
      }
    case UnbindUser(_, uid, kind) =>
      if s' != s {
        SameSkips(s, s', s.relations[(uid, kind)], s'.actors[s.relations[(uid, kind)]]);
      }
    case SetNode(_) =>
  }

  /** No call for any actor was skipped. */
  predicate Clean(s: System) {
    forall a | a in s.actors :: !s.actors[a].addSkipped && !s.actors[a].doneSkipped
  }

  lemma CleanKept(s: System, step: Step)
    requires Clean(s) && Enabled(s, step) && !Skips(s, step)
    ensures Clean(Next(s, step))
  {
    if step.Advance? {
      ContinueSkips(s, step.t, step.current);
    }
  }

  /** As long as no waiting actor is spawned or killed under a Shut node, the count is exact, also after restarts. */
  lemma {:induction false} WaitIsExact(states: seq<System>, steps: seq<Step>, i: nat)
    requires Unskipped(states, steps) && i < |states|
    ensures Inv(states[i]) && Clean(states[i]) && states[i].wait == |Awaited(states[i])|
  {
    if i > 0 {
      WaitIsExact(states, steps, i - 1);
      StepKeeps(states[i - 1], steps[i - 1]);
      CleanKept(states[i - 1], steps[i - 1]);
    }
    assert AddSkipped(states[i]) == {} && DoneSkipped(states[i]) == {};
  }

  // --- Runs that show the exceptions ---

  lemma Extend(states: seq<System>, step: Step) returns (longer: seq<System>)
    requires IsRun(states) && Enabled(states[|states| - 1], step)
    ensures IsRun(longer) && longer[|longer| - 1] == Next(states[|states| - 1], step)
  {
    longer := states + [Next(states[|states| - 1], step)];
    assert Follows(states[|states| - 1], longer[|states|]);
    forall i | 0 < i < |longer| ensures Follows(longer[i - 1], longer[i]) {
      assert i < |states| ==> Follows(states[i - 1], states[i]);
    }
  }

  /** One waiting actor, spawned in an Init hook and registered; the node is Shut. */
  function Early(status: Status, reaper: Option<nat>, destroys: nat, finished: bool): map<nat, Actor> {
    map[0 := Actor("p", "k", true, status, {}, None, true, true, reaper, destroys, finished, true, false)]
  }

  lemma SpawnedEarly() returns (states: seq<System>)
    ensures IsRun(states)
    ensures states[|states| - 1] ==
            System(Early(Started, None, 0, false), map["p" := 0], map[], None, map[], 0, true)
  {
    states := [MADE];
    states := Extend(states, Spawn(0, 0, "p", "k", true));
    states := Extend(states, Advance(0, true));
    states := Extend(states, Advance(0, true));
    states := Extend(states, Advance(0, true));
    states := Extend(states, Advance(0, true));
    assert states[|states| - 1].threads == map[];
  }

  lemma KilledLate() returns (states: seq<System>)
    ensures IsRun(states)
    ensures states[|states| - 1] ==
            System(Early(Destroyed, Some(0), 1, false), map[], map[], None, map[0 := Waiting(0)], 0, false)
  {
    states := RemovedLate();
    states := Extend(states, Advance(0, true));
    states := Extend(states, Advance(0, true));
    states := Extend(states, Advance(0, true));
    assert states[|states| - 1].relations == map[];
  }

  lemma RemovedLate() returns (states: seq<System>)
    ensures IsRun(states)
    ensures states[|states| - 1] ==
            System(Early(Started, Some(0), 0, false), map[], map[], None, map[0 := Destroying(0)], 0, false)
  {
    states := SpawnedEarly();
    states := Extend(states, SetNode(false));
    states := Extend(states, Kill(0, "p"));
    states := Extend(states, Advance(0, true));
    states := Extend(states, Advance(0, true));
    assert states[|states| - 1].relations == map[];
    assert states[|states| - 1].registry == map[];
  }

  /** An actor spawned before the node starts and killed after takes the wait count below zero. */
  lemma EarlySpawnBreaksWait() returns (states: seq<System>)
    ensures IsRun(states)
    ensures var s := states[|states| - 1];
            !s.shut && s.wait == -1 && Awaited(s) == {} && s.threads == map[] && s.registry == map[]
  {
    states := KilledLate();
    states := Extend(states, Advance(0, true));
    states := Extend(states, Advance(0, true));
    assert states[|states| - 1].threads == map[];
  }

  /** While an idle release holds the lock, a registered actor can be destroyed already. */
  lemma CommittedIsStillRegistered() returns (states: seq<System>)
    ensures IsRun(states)
    ensures var s := states[|states| - 1];
            "p" in s.registry && s.registry["p"] in s.actors && s.actors[s.registry["p"]].status == Destroyed
  {
    states := SpawnedEarly();
    states := Extend(states, ReleaseIdle(0, 0));
    states := Extend(states, Advance(0, true));
  }

  /**
    The compare-and-swap in `destroy` never fails: whoever removed an actor is the one that
    tears it down, so `kill` reports success and each removal reaches `doneWait` once.
  */
  lemma RemoverDestroys(states: seq<System>, i: nat, t: nat)
    requires IsRun(states) && i < |states| && t in states[i].threads && states[i].threads[t].Destroying?
    ensures states[i].threads[t].a in states[i].actors
    ensures states[i].actors[states[i].threads[t].a].status == Started
  {
    RunKeeps(states, i);
    assert ThreadInv(states[i], t, states[i].threads[t]);
  }

  predicate TearsDown(pc: Pc) {
    pc.KillHeld? || pc.Unlinking? || pc.Destroying? || pc.CommitMu? || pc.CommitHeld? || pc.CommitUnlinked? ||
    pc.Finishing? || pc.Unbinding? || pc.Waiting? || pc.Uncounting?
  }

  /**
    Removing and tearing down one instance never touches another: at each of its steps every
    registration and every relation of other actors stays, a replacement with the same PID
    included, and nothing new appears.
  */
  lemma TeardownTouchesOnlyItself(states: seq<System>, i: nat, t: nat, current: bool)
    requires IsRun(states) && i < |states| && Enabled(states[i], Advance(t, current)) && TearsDown(states[i].threads[t])
    ensures var s, s', a := states[i], Continue(states[i], t, current), states[i].threads[t].a;
            && (forall pid | pid in s.registry && s.registry[pid] != a :: pid in s'.registry && s'.registry[pid] == s.registry[pid])
            && (forall pid | pid in s'.registry :: pid in s.registry && s'.registry[pid] == s.registry[pid])
            && (forall r | r in s.relations && s.relations[r] != a :: r in s'.relations && s'.relations[r] == s.relations[r])
            && (forall r | r in s'.relations :: r in s.relations && s'.relations[r] == s.relations[r])
            && (forall b | b in s.actors && b != a :: b in s'.actors && s'.actors[b] == s.actors[b])
  {
    RunKeeps(states, i);
    assert ThreadInv(states[i], t, states[i].threads[t]);
  }

  // --- Who is killed ---

  /**
    What an operation works on: a kill by PID on the instance registered under it, a kill of an
    instance on that instance and only if the registry still names it, a bind on the instance
    registered under the PID. Otherwise nothing changes.
  */
  lemma OperationsChoose(s: System, step: Step)
    requires Inv(s) && Enabled(s, step)
    ensures var s' := Next(s, step);
            match step
            case Kill(t, pid) =>
              if pid in s.registry then s' == s.(threads := s.threads[t := KillHeld(s.registry[pid])], mu := Some(t)) else s' == s
            case KillThis(t, a) =>
              if exists pid :: pid in s.registry && s.registry[pid] == a
              then s' == s.(threads := s.threads[t := KillHeld(a)], mu := Some(t)) else s' == s
            case ReleaseIdle(t, a) => s' == s.(threads := s.threads[t := CommitMu(a)], mu := Some(t))
            case BindUser(t, uid, pid) =>
              if uid != 0 && pid in s.registry
              then s' == s.(threads := s.threads[t := Marking(s.registry[pid], uid)]) else s' == s
            case _ => true
  {
    match step
    case Kill(t, pid) =>
      if pid in s.registry {
        assert RegistryInv(s, pid);
        assert s.actors[s.registry[pid] := s.actors[s.registry[pid]]] == s.actors;
      }
    case KillThis(t, a) =>
      assert s.actors[a := s.actors[a]] == s.actors;
      forall pid | pid in s.registry && s.registry[pid] == a ensures Linked(s, a) {
        assert RegistryInv(s, pid);
      }
      assert Linked(s, a) ==> s.actors[a].pid in s.registry && s.registry[s.actors[a].pid] == a;
    case ReleaseIdle(t, a) => assert s.actors[a := s.actors[a]] == s.actors;
    case BindUser(t, uid, pid) =>
      if uid != 0 && pid in s.registry {
        assert RegistryInv(s, pid);
        assert s.actors[s.registry[pid] := s.actors[s.registry[pid]]] == s.actors;
      }
    case _ =>
  }

  /** The registry after a turn: a spawn adds its PID, the two removals take theirs away. */
  lemma RegistryMoves(s: System, t: nat, current: bool)
    requires t in s.threads && s.threads[t].a in s.actors
    ensures var (pc, pid) := (s.threads[t], s.actors[s.threads[t].a].pid);
            Continue(s, t, current).registry ==
            if pc.SpawnWaited? then s.registry[pid := pc.a]
            else if pc.KillHeld? || pc.CommitHeld? then s.registry - {pid}
            else s.registry
  {
    match s.threads[t] {
      case Spawning(_) =>
      case Destroying(_) =>
      case CommitMu(_) =>
      case _ =>
    }
  }

  /** An instance leaves the registry only in the turn of a thread that has chosen it. */
  lemma OnlyChosenLeave(s: System, step: Step, pid: string)
    requires Inv(s) && Enabled(s, step) && pid in s.registry
    requires pid !in Next(s, step).registry || Next(s, step).registry[pid] != s.registry[pid]
    ensures step.Advance? && s.threads[step.t] in {KillHeld(s.registry[pid]), CommitHeld(s.registry[pid])}
  {
    if step.Advance? {
      assert ThreadInv(s, step.t, s.threads[step.t]);
      RegistryMoves(s, step.t, step.current);
    }
  }

  /** Where a thread that may remove an instance came from. */
  lemma ChoiceBefore(s: System, step: Step, t: nat, a: nat)
    requires Inv(s) && Enabled(s, step) && t in Next(s, step).threads
    ensures Next(s, step).threads[t] == KillHeld(a) ==>
              || (t in s.threads && s.threads[t] == KillHeld(a))
              || (step.Kill? && step.t == t && step.pid in s.registry && s.registry[step.pid] == a)
              || step == KillThis(t, a)
    ensures Next(s, step).threads[t] == CommitMu(a) ==>
              (t in s.threads && s.threads[t] == CommitMu(a)) || step == ReleaseIdle(t, a)
    ensures Next(s, step).threads[t] == CommitHeld(a) ==>
              t in s.threads && (s.threads[t] == CommitHeld(a) || s.threads[t] == CommitMu(a))
  {
    if step.Advance? {
      ThreadsMove(s, step.t, step.current, t);
    }
  }

  lemma ThreadsMove(s: System, u: nat, current: bool, t: nat)
    requires u in s.threads && s.threads[u].a in s.actors && t in Continue(s, u, current).threads
    ensures t in s.threads && (t != u ==> Continue(s, u, current).threads[t] == s.threads[t])
    ensures t == u ==> !Continue(s, u, current).threads[t].KillHeld? && !Continue(s, u, current).threads[t].CommitMu?
    ensures t == u && Continue(s, u, current).threads[t].CommitHeld? ==>
              s.threads[t] == CommitMu(Continue(s, u, current).threads[t].a)
  {
    match s.threads[u] {
      case Spawning(_) =>
      case Destroying(_) =>
      case CommitMu(_) =>
      case _ =>
    }
  }

  /** The step by which thread `t` chose instance `a` to be removed. */
  predicate Chooses(s: System, step: Step, t: nat, a: nat) {
    || (step.Kill? && step.t == t && step.pid in s.registry && s.registry[step.pid] == a)
    || step == KillThis(t, a)
    || step == ReleaseIdle(t, a)
  }

  lemma {:induction false} ChosenEarlier(states: seq<System>, steps: seq<Step>, i: nat, t: nat, a: nat) returns (j: nat)
    requires Traced(states, steps) && i < |states| && t in states[i].threads
    requires states[i].threads[t] in {KillHeld(a), CommitMu(a), CommitHeld(a)}
    ensures j < i && Chooses(states[j], steps[j], t, a)
    decreases i
  {
    TracedIsRun(states, steps);
    assert i > 0;
    RunKeeps(states, i - 1);
    ChoiceBefore(states[i - 1], steps[i - 1], t, a);
    if Chooses(states[i - 1], steps[i - 1], t, a) {
      j := i - 1;
    } else {
      j := ChosenEarlier(states, steps, i - 1, t, a);
    }
  }

  lemma TracedIsRun(states: seq<System>, steps: seq<Step>)
    requires Traced(states, steps)
    ensures IsRun(states)
  {
    forall i | 0 < i < |states| ensures Follows(states[i - 1], states[i]) {
      assert Enabled(states[i - 1], steps[i - 1]) && states[i] == Next(states[i - 1], steps[i - 1]);
    }
  }

  /**
    In every run, an instance leaves the registry only by an operation that named it: a kill of its
    PID while it was the one registered, a kill of the instance itself, or its idle release. So a
    replacement with the same PID is never removed by an operation on its predecessor.
  */
  lemma LeavesOnlyWhenNamed(states: seq<System>, steps: seq<Step>, i: nat, pid: string) returns (j: nat, t: nat)
    requires Traced(states, steps) && i < |steps| && pid in states[i].registry
    requires pid !in states[i + 1].registry || states[i + 1].registry[pid] != states[i].registry[pid]
    ensures j < i && steps[i].Advance? && steps[i].t == t && Chooses(states[j], steps[j], t, states[i].registry[pid])
  {
    TracedIsRun(states, steps);
    RunKeeps(states, i);
    OnlyChosenLeave(states[i], steps[i], pid);
    t := steps[i].t;
    j := ChosenEarlier(states, steps, i, t, states[i].registry[pid]);
  }

  // --- Operations that nothing interrupts ---

  predicate TurnTo(s: System, t: nat, s': System) {
    Enabled(s, Advance(t, true)) && s' == Continue(s, t, true)
  }

  predicate Link(path: seq<System>, t: nat, i: nat)
    requires 0 < i < |path|
  {
    TurnTo(path[i - 1], t, path[i])
  }

  /** Only thread `t` moves from state to state. */
  predicate Alone(path: seq<System>, t: nat) {
    |path| > 0 && forall i | 0 < i < |path| :: Link(path, t, i)
  }

  function Last(path: seq<System>): System
    requires path != []
  {
    path[|path| - 1]
  }

  lemma Turn(path: seq<System>, t: nat, s': System) returns (longer: seq<System>)
    requires Alone(path, t) && TurnTo(Last(path), t, s')
    ensures Alone(longer, t) && longer[0] == path[0] && Last(longer) == s'
  {
    longer := path + [s'];
    forall i | 0 < i < |longer| ensures Link(longer, t, i) {
      assert i < |path| ==> Link(path, t, i);
    }
  }

  /** Thread `t` at `pc`, about actor `a` in state `x`; everything else is as in `s`. */
  function Busy(s: System, t: nat, a: nat, x: Actor, pc: Pc): System {
    s.(actors := s.actors[a := x], threads := s.threads[t := pc])
  }

  lemma BusyMoves(s: System, t: nat, a: nat, x: Actor, pc: Pc, y: Actor, pc': Pc)
    ensures Move(Busy(s, t, a, x, pc), t, a, y, Some(pc')) == Busy(s, t, a, y, pc')
    ensures t !in s.threads ==> Move(Busy(s, t, a, x, pc), t, a, y, None) == s.(actors := s.actors[a := y])
  {
    assert s.actors[a := x][a := y] == s.actors[a := y];
    assert s.threads[t := pc][t := pc'] == s.threads[t := pc'];
    assert t !in s.threads ==> s.threads[t := pc] - {t} == s.threads;
  }

  lemma SpawnTakesLock(s: System, t: nat, a: nat, x: Actor)
    requires s.mu.None? && t !in s.threads
    ensures x.pid !in s.registry ==>
              TurnTo(Busy(s, t, a, x, Spawning(a)), t, Busy(s.(mu := Some(t)), t, a, x, SpawnHeld(a)))
    ensures x.pid in s.registry ==> TurnTo(Busy(s, t, a, x, Spawning(a)), t, s.(actors := s.actors[a := x]))
  {
    BusyMoves(s, t, a, x, Spawning(a), x, SpawnHeld(a));
  }

  lemma SpawnTests(s: System, t: nat, a: nat, x: Actor)
    ensures TurnTo(Busy(s, t, a, x, SpawnHeld(a)), t, Busy(s, t, a, x, Counting(a, s.shut)))
  {
    BusyMoves(s, t, a, x, SpawnHeld(a), x, Counting(a, s.shut));
  }

  lemma SpawnCounts(s: System, t: nat, a: nat, x: Actor, skip: bool)
    ensures TurnTo(Busy(s, t, a, x, Counting(a, skip)), t,
                   Busy(s.(wait := s.wait + One(x.wait && !skip)), t, a,
                        x.(counted := true, addSkipped := x.wait && skip), SpawnWaited(a)))
  {
    BusyMoves(s, t, a, x, Counting(a, skip), x.(counted := true, addSkipped := x.wait && skip), SpawnWaited(a));
  }

  lemma SpawnRegisters(s: System, t: nat, a: nat, x: Actor)
    requires t !in s.threads
    ensures var y := x.(registered := true, spawner := None);
            TurnTo(Busy(s, t, a, x, SpawnWaited(a)), t,
                   s.(actors := s.actors[a := y], registry := s.registry[x.pid := a], mu := None))
  {
    BusyMoves(s, t, a, x, SpawnWaited(a), x.(registered := true, spawner := None), SpawnWaited(a));
  }

  /** A spawn of a free PID ends with the new actor registered, started and counted. */
  lemma SpawnAlone(s: System, t: nat, a: nat, pid: string, kind: string, wait: bool) returns (path: seq<System>)
    requires s.mu.None? && t !in s.threads && a !in s.actors && pid !in s.registry
    ensures Alone(path, t) && path[0] == Next(s, Spawn(t, a, pid, kind, wait))
    ensures var x := Actor(pid, kind, wait, Started, {}, None, true, true, None, 0, false, wait && s.shut, false);
            Last(path) ==
            s.(actors := s.actors[a := x], registry := s.registry[pid := a], wait := s.wait + One(wait && !s.shut))
  {
    var x, locked := NewActor(t, pid, kind, wait), s.(mu := Some(t));
    var y, counted := x.(counted := true, addSkipped := wait && s.shut), locked.(wait := s.wait + One(wait && !s.shut));
    path := [Busy(s, t, a, x, Spawning(a))];
    SpawnTakesLock(s, t, a, x);
    path := Turn(path, t, Busy(locked, t, a, x, SpawnHeld(a)));
    SpawnTests(locked, t, a, x);
    path := Turn(path, t, Busy(locked, t, a, x, Counting(a, s.shut)));
    SpawnCounts(locked, t, a, x, s.shut);
    path := Turn(path, t, Busy(counted, t, a, y, SpawnWaited(a)));
    SpawnRegisters(counted, t, a, y);
    path := Turn(path, t, counted.(actors := s.actors[a := y.(registered := true, spawner := None)],
                                   registry := s.registry[pid := a], mu := None));
  }

  /** A spawn of a PID that is taken leaves registry, relations, lock and wait count as they were. */
  lemma SpawnRefused(s: System, t: nat, a: nat, pid: string, kind: string, wait: bool)
    requires s.mu.None? && t !in s.threads && a !in s.actors && pid in s.registry
    ensures TurnTo(Next(s, Spawn(t, a, pid, kind, wait)), t, s.(actors := s.actors[a := NewActor(t, pid, kind, wait)]))
  {
    SpawnTakesLock(s, t, a, NewActor(t, pid, kind, wait));
  }

  lemma KillUnlinks(s: System, t: nat, a: nat, x: Actor)
    ensures TurnTo(Busy(s, t, a, x, KillHeld(a)), t,
                   Busy(s.(registry := s.registry - {x.pid}), t, a, x.(reaper := Some(t)), Unlinking(a)))
  {
    BusyMoves(s, t, a, x, KillHeld(a), x.(reaper := Some(t)), Unlinking(a));
  }

  lemma KillUnrelates(s: System, t: nat, a: nat, x: Actor)
    ensures TurnTo(Busy(s, t, a, x, Unlinking(a)), t,
                   Busy(s.(relations := Without(s.relations, a), mu := None), t, a, x, Destroying(a)))
  {
    BusyMoves(s, t, a, x, Unlinking(a), x, Destroying(a));
  }

  lemma KillDestroys(s: System, t: nat, a: nat, x: Actor)
    requires x.status == Started
    ensures TurnTo(Busy(s, t, a, x, Destroying(a)), t, Busy(s, t, a, x.(status := Destroyed), Finishing(a)))
  {
    BusyMoves(s, t, a, x, Destroying(a), x.(status := Destroyed), Finishing(a));
  }

  lemma TeardownRuns(s: System, t: nat, a: nat, x: Actor)
    ensures TurnTo(Busy(s, t, a, x, Finishing(a)), t, Busy(s, t, a, x.(destroys := x.destroys + 1), Unbinding(a)))
  {
    BusyMoves(s, t, a, x, Finishing(a), x.(destroys := x.destroys + 1), Unbinding(a));
  }

  lemma TeardownUnbinds(s: System, t: nat, a: nat, x: Actor)
    ensures TurnTo(Busy(s, t, a, x, Unbinding(a)), t,
                   Busy(s.(relations := WithoutBinds(s.relations, a, x)), t, a, x, Waiting(a)))
  {
    BusyMoves(s, t, a, x, Unbinding(a), x, Waiting(a));
  }

  lemma TeardownTests(s: System, t: nat, a: nat, x: Actor)
    ensures TurnTo(Busy(s, t, a, x, Waiting(a)), t, Busy(s, t, a, x, Uncounting(a, s.shut)))
  {
    BusyMoves(s, t, a, x, Waiting(a), x, Uncounting(a, s.shut));
  }

  lemma TeardownCounts(s: System, t: nat, a: nat, x: Actor, skip: bool)
    requires t !in s.threads
    ensures TurnTo(Busy(s, t, a, x, Uncounting(a, skip)), t,
                   s.(actors := s.actors[a := x.(finished := true, doneSkipped := x.wait && skip)],
                      wait := s.wait - One(x.wait && !skip)))
  {
    BusyMoves(s, t, a, x, Uncounting(a, skip), x.(finished := true, doneSkipped := x.wait && skip), Waiting(a));
  }

  /** The state a teardown leaves. */
  function TornDown(s: System, a: nat, x: Actor): System {
    var y := x.(destroys := x.destroys + 1);
    s.(actors := s.actors[a := y.(finished := true, doneSkipped := y.wait && s.shut)],
       relations := WithoutBinds(s.relations, a, y), wait := s.wait - One(y.wait && !s.shut))
  }

  /** From the call of `Destroy` on: it runs once, the relations of the users bound go, the count falls. */
  lemma TeardownAlone(begun: seq<System>, s: System, t: nat, a: nat, x: Actor) returns (path: seq<System>)
    requires t !in s.threads && Alone(begun, t) && Last(begun) == Busy(s, t, a, x, Finishing(a))
    ensures Alone(path, t) && path[0] == begun[0] && Last(path) == TornDown(s, a, x)
  {
    var y := x.(destroys := x.destroys + 1);
    var unbound := s.(relations := WithoutBinds(s.relations, a, y));
    TeardownRuns(s, t, a, x);
    path := Turn(begun, t, Busy(s, t, a, y, Unbinding(a)));
    TeardownUnbinds(s, t, a, y);
    path := Turn(path, t, Busy(unbound, t, a, y, Waiting(a)));
    TeardownTests(unbound, t, a, y);
    path := Turn(path, t, Busy(unbound, t, a, y, Uncounting(a, s.shut)));
    TeardownCounts(unbound, t, a, y, s.shut);
    path := Turn(path, t, unbound.(actors := s.actors[a := y.(finished := true, doneSkipped := y.wait && s.shut)],
                                   wait := s.wait - One(y.wait && !s.shut)));
  }

  /** A kill takes exactly the instance it chose and its relations out, and then destroys it. */
  lemma RemovalAlone(s: System, t: nat, a: nat, x: Actor) returns (path: seq<System>)
    requires x.status == Started
    ensures Alone(path, t) && path[0] == Busy(s.(mu := Some(t)), t, a, x, KillHeld(a))
    ensures Last(path) == Busy(s.(registry := s.registry - {x.pid}, relations := Without(s.relations, a), mu := None), t, a,
                               x.(reaper := Some(t), status := Destroyed), Finishing(a))
  {
    var locked, y := s.(mu := Some(t)), x.(reaper := Some(t));
    var unlinked := locked.(registry := s.registry - {x.pid});
    var unrelated := unlinked.(relations := Without(s.relations, a), mu := None);
    path := [Busy(locked, t, a, x, KillHeld(a))];
    KillUnlinks(locked, t, a, x);
    path := Turn(path, t, Busy(unlinked, t, a, y, Unlinking(a)));
    KillUnrelates(unlinked, t, a, y);
    path := Turn(path, t, Busy(unrelated, t, a, y, Destroying(a)));
    KillDestroys(unrelated, t, a, y);
    path := Turn(path, t, Busy(unrelated, t, a, y.(status := Destroyed), Finishing(a)));
  }

  /**
    The teardown of an instance deletes exactly the relations of its marked users under its kind
    that name it, those that a bind wrote after its removal included.
  */
  lemma MarkedRelationsGo(s: System, a: nat, x: Actor, uid: int, kind: string)
    ensures var relations, left := s.relations, TornDown(s, a, x).relations;
            && ((uid, kind) in left <==>
                  (uid, kind) in relations && (uid in x.binds && kind == x.kind ==> relations[(uid, kind)] != a))
            && ((uid, kind) in left ==> left[(uid, kind)] == relations[(uid, kind)])
  {
  }

  /** What is left of the relations when an instance has been removed and torn down. */
  lemma RelationsLeft(relations: Relations, a: nat, x: Actor)
    ensures WithoutBinds(Without(relations, a), a, x) == Without(relations, a)
    ensures forall r | r in Without(relations, a) :: relations[r] != a && Without(relations, a)[r] == relations[r]
    ensures forall r | r in relations && relations[r] != a :: r in Without(relations, a)
  {
  }

  /**
    A kill of a registered PID that nothing interrupts: the PID is free, the instance that had it
    was destroyed once and is fully killed, no relation points at it, and all else is as before.
  */
  lemma KillAlone(s: System, t: nat, pid: string) returns (path: seq<System>)
    requires Inv(s) && s.mu.None? && t !in s.threads && pid in s.registry
    ensures Alone(path, t) && path[0] == Next(s, Kill(t, pid))
    ensures var a := s.registry[pid];
            && a in s.actors && s.actors[a].destroys == 0
            && Last(path) == TornDown(s.(registry := s.registry - {pid}, relations := Without(s.relations, a)), a,
                                      s.actors[a].(reaper := Some(t), status := Destroyed))
  {
    var a := s.registry[pid];
    RegisteredIsStartedIff(s, pid);
    var x := s.actors[a];
    assert ActorInv(s, a, x);
    path := RemovalAlone(s, t, a, x);
    path := TeardownAlone(path, s.(registry := s.registry - {pid}, relations := Without(s.relations, a), mu := None), t, a,
                          x.(reaper := Some(t), status := Destroyed));
  }

  /** What the teardown of a killed instance leaves, read off. */
  lemma TornDownMeaning(s: System, a: nat, x: Actor)
    requires x.destroys == 0
    ensures var s' := TornDown(s.(relations := Without(s.relations, a)), a, x);
            && a in s'.actors && s'.actors[a].destroys == 1 && s'.actors[a].finished && s'.actors[a].status == x.status
            && (forall r | r in s'.relations :: s'.relations[r] != a)
            && (forall r | r in s.relations && s.relations[r] != a :: r in s'.relations && s'.relations[r] == s.relations[r])
            && s'.wait == s.wait - One(x.wait && !s.shut)
            && s'.registry == s.registry && s'.threads == s.threads && s'.mu == s.mu
  {
    RelationsLeft(s.relations, a, x.(destroys := 1));
  }

  lemma BindMarks(s: System, t: nat, uid: int, a: nat, x: Actor)
    ensures TurnTo(Busy(s, t, a, x, Marking(a, uid)), t, Busy(s, t, a, x.(binds := x.binds + {uid}), Relating(a, uid)))
  {
    BusyMoves(s, t, a, x, Marking(a, uid), x.(binds := x.binds + {uid}), Relating(a, uid));
  }

  lemma BindRelates(s: System, t: nat, uid: int, a: nat, x: Actor)
    requires t !in s.threads
    ensures TurnTo(Busy(s, t, a, x, Relating(a, uid)), t,
                   s.(actors := s.actors[a := x], relations := s.relations[(uid, x.kind) := a]))
  {
    BusyMoves(s, t, a, x, Relating(a, uid), x, Marking(a, uid));
  }

  /** A bind relates the user to the registered instance and changes nothing else. */
  lemma BindAlone(s: System, t: nat, uid: int, pid: string) returns (path: seq<System>)
    requires Inv(s) && t !in s.threads && uid != 0 && pid in s.registry
    ensures Alone(path, t) && path[0] == Next(s, BindUser(t, uid, pid))
    ensures var a := s.registry[pid];
            && a in s.actors
            && Last(path) == s.(actors := s.actors[a := s.actors[a].(binds := s.actors[a].binds + {uid})],
                                relations := s.relations[(uid, s.actors[a].kind) := a])
  {
    assert RegistryInv(s, pid);
    var a := s.registry[pid];
    var x := s.actors[a];
    var y := x.(binds := x.binds + {uid});
    path := [Busy(s, t, a, x, Marking(a, uid))];
    BindMarks(s, t, uid, a, x);
    path := Turn(path, t, Busy(s, t, a, y, Relating(a, uid)));
    BindRelates(s, t, uid, a, y);
    path := Turn(path, t, s.(actors := s.actors[a := y], relations := s.relations[(uid, x.kind) := a]));
  }

  lemma UnbindAlone(s: System, t: nat, uid: int, kind: string)
    requires Inv(s) && t !in s.threads
    ensures var s' := Next(s, UnbindUser(t, uid, kind));
            if (uid, kind) in s.relations && s.relations[(uid, kind)] in s.actors
               && uid in s.actors[s.relations[(uid, kind)]].binds
            then
              var a := s.relations[(uid, kind)];
              s' == s.(actors := s.actors[a := s.actors[a].(binds := s.actors[a].binds - {uid})],
                       relations := s.relations - {(uid, kind)})
            else s' == s
  {
    assert s.threads - {t} == s.threads;
  }

  /** An idle release commits exactly on the registered, started instance of its generation; otherwise it leaves no trace. */
  lemma ReleaseCommitsIff(s: System, t: nat, a: nat, current: bool)
    requires Inv(s) && s.mu.None? && t !in s.threads && a in s.actors
    ensures var s' := Continue(Next(s, ReleaseIdle(t, a)), t, current);
            if current && exists pid :: pid in s.registry && s.registry[pid] == a
            then
              && s'.threads == s.threads[t := CommitHeld(a)] && s'.mu == Some(t) && s'.registry == s.registry
              && s'.actors == s.actors[a := s.actors[a].(status := Destroyed, reaper := Some(t))]
            else s' == s
  {
    OperationsChoose(s, ReleaseIdle(t, a));
    assert s.actors[a := s.actors[a]] == s.actors;
    assert s.threads[t := CommitMu(a)] - {t} == s.threads;
    assert s.threads[t := CommitMu(a)][t := CommitHeld(a)] == s.threads[t := CommitHeld(a)];
    forall pid | pid in s.registry && s.registry[pid] == a ensures Linked(s, a) && s.actors[a].status == Started {
      RegisteredIsStartedIff(s, pid);
    }
    assert Linked(s, a) ==> s.actors[a].pid in s.registry && s.registry[s.actors[a].pid] == a;
  }
}
