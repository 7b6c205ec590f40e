/**
  The idle release of one actor instance.

  Goroutines interleave at the granularity of the lifecycle lock `life`. The actor's state
  is changed by compare-and-swap outside that lock, so a section that has seen a started
  actor is split before its effects. Timers fire at any time unless they are stopped first,
  and the release guard answers as it likes. The scheduler's lock matters in one place: the
  spawn holds it from the end of the creator until the actor is stored, so no release commits
  while the actor initialises.
*/
module ActorIdle {
  import opened Prelude

  datatype Status = Started | Destroyed

  /**
    Where the spawn has got to: the creator runs, `Init` runs under the scheduler's lock, the
    scheduler knows the actor, or it does not, having removed it or refused its PID.
  */
  datatype Place = Creating | Initialising | Registered | Removed

  /** What the lifecycle calls did, in the order in which they took effect. */
  datatype Effect = Activated | Idled(generation: nat, place: Place)

  datatype Pc =
    // Active and Idle, past the state check
    | Activating
    | Idling
    // releaseIdleGeneration and killIdleActor
    | Fired(g: nat)
    | Checked(g: nat)
    | Guarding(g: nat)
    | Denied(g: nat)
    | Rearming(g: nat)
    | Committing(g: nat)
    // destroy, by whoever removed the actor from the scheduler
    | Destroying
    | Cancelling

  predicate HoldsLife(pc: Pc) {
    pc.Activating? || pc.Idling? || pc.Checked? || pc.Rearming?
  }

  predicate NeedsLife(pc: Pc) {
    pc.Fired? || pc.Denied? || pc.Committing? || pc.Cancelling?
  }

  /** A release callback for generation `pc.g` is still running. */
  predicate IsCallback(pc: Pc) {
    pc.Fired? || pc.Checked? || pc.Guarding? || pc.Denied? || pc.Rearming? || pc.Committing?
  }

  /** What keeps an idle release going. */
  datatype Cover = Nothing | ByTimer(timer: nat) | ByThread(thread: nat)

  /**
    `armed` maps each running timer to its generation. The last five fields are history:
    effects, what covers the latest `Idle`, the generation whose release destroyed the actor, the
    generations whose release `killIdleActor` refused while the creator ran, and the thread that
    destroyed the actor and has yet to cancel its idle release.
  */
  datatype Actor = Actor(
    status: Status,
    place: Place,
    generation: nat,
    timer: Option<nat>,
    armed: map<nat, nat>,
    nextTimer: nat,
    life: Option<nat>,
    threads: map<nat, Pc>,
    effects: seq<Effect>,
    cover: Cover,
    released: Option<nat>,
    refused: set<nat>,
    canceller: Option<nat>)

  const CREATED := Actor(Started, Creating, 0, None, map[], 0, None, map[], [], Nothing, None, {}, None)

  datatype Step =
    | EndCreator
    | RefusePid
    | Register
    | Active(t: nat)
    | Idle(t: nat)
    | Fire(t: nat, timer: nat)
    | Remove(t: nat)
    | Advance(t: nat, allow: bool)

  predicate Enabled(x: Actor, s: Step) {
    match s
    case EndCreator => x.place == Creating
    case RefusePid => x.place == Creating
    case Register => x.place == Initialising
    case Active(t) => t !in x.threads && x.life.None?
    case Idle(t) => t !in x.threads && x.life.None?
    case Fire(t, timer) => t !in x.threads && timer in x.armed
    case Remove(t) => t !in x.threads && x.place == Registered
    case Advance(t, _) =>
      && t in x.threads
      && (NeedsLife(x.threads[t]) ==> x.life.None?)
      && (x.threads[t].Committing? ==> x.place != Initialising)
  }

  function Go(x: Actor, t: nat, pc: Pc): Actor {
    x.(threads := x.threads[t := pc])
  }

  function Leave(x: Actor, t: nat): Actor {
    x.(threads := x.threads - {t})
  }

  /** Stops the actor's timer, if it has one, and moves to the next generation. */
  function Supersede(x: Actor): Actor {
    x.(generation := x.generation + 1,
       timer := None,
       armed := if x.timer.Some? then x.armed - {x.timer.value} else x.armed)
  }

  /** `scheduleIdleReleaseLocked`. */
  function Arm(x: Actor, g: nat): Actor {
    x.(timer := Some(x.nextTimer),
       armed := x.armed[x.nextTimer := g],
       nextTimer := x.nextTimer + 1,
       cover := ByTimer(x.nextTimer))
  }

  /** Takes the lifecycle lock if the actor is started, of generation `g` where one is expected. */
  function Enter(x: Actor, t: nat, pc: Pc): Actor {
    if x.status == Started && (IsCallback(pc) ==> x.generation == pc.g) then Go(x, t, pc).(life := Some(t)) else Leave(x, t)
  }

  function FireTimer(x: Actor, t: nat, timer: nat, g: nat): Actor {
    Go(x, t, Fired(g)).(armed := x.armed - {timer}, cover := if x.cover == ByTimer(timer) then ByThread(t) else x.cover)
  }

  /** The decision of `killIdleActor`, taken under the scheduler's and the lifecycle lock. */
  function Commit(x: Actor, t: nat, g: nat): Actor {
    if x.place == Registered && x.generation == g && x.status == Started
    then Leave(Supersede(x), t).(status := Destroyed, place := Removed, released := Some(g))
    else Leave(x, t).(refused := if x.place == Creating then x.refused + {g} else x.refused)
  }

  function Continue(x: Actor, t: nat, allow: bool): Actor
    requires t in x.threads
  {
    match x.threads[t]
    case Activating => Leave(Supersede(x), t).(life := None, effects := x.effects + [Activated])
    case Idling =>
      Leave(Arm(Supersede(x), x.generation + 1), t).(life := None, effects := x.effects + [Idled(x.generation + 1, x.place)])
    case Fired(g) => Enter(x, t, Checked(g))
    case Checked(g) => Go(x, t, Guarding(g)).(timer := None, life := None)
    case Guarding(g) => Go(x, t, if allow then Committing(g) else Denied(g))
    case Denied(g) => Enter(x, t, Rearming(g))
    case Rearming(g) => Leave(Arm(x, g), t).(life := None)
    case Committing(g) => Commit(x, t, g)
    case Destroying => if x.status == Started then Go(x, t, Cancelling).(status := Destroyed, canceller := Some(t)) else Leave(x, t)
    case Cancelling => Leave(Supersede(x), t).(canceller := None)
  }

  function Next(x: Actor, s: Step): Actor {
    match s
    case EndCreator => x.(place := Initialising)
    case RefusePid => x.(place := Removed)
    case Register => x.(place := Registered)
    case Active(t) => Enter(x, t, Activating)
    case Idle(t) => Enter(x, t, Idling)
    case Fire(t, timer) => if timer in x.armed then FireTimer(x, t, timer, x.armed[timer]) else x
    case Remove(t) => Go(x, t, Destroying).(place := Removed)
    case Advance(t, allow) => if t in x.threads then Continue(x, t, allow) else x
  }

  // --- The invariant ---

  function LastIdle(x: Actor): Option<Effect> {
    if x.effects != [] && x.effects[|x.effects| - 1].Idled? then Some(x.effects[|x.effects| - 1]) else None
  }

  /** Generation `g` came from an `Idle`, and if it is still current nothing took effect after that. */
  predicate FromIdle(x: Actor, g: nat) {
    g <= x.generation && (g == x.generation ==> LastIdle(x).Some? && LastIdle(x).value.generation == g)
  }

  /** The last call that took effect was an `Idle`, and the actor has not left the scheduler. */
  predicate Resting(x: Actor) {
    x.place != Removed && LastIdle(x).Some?
  }

  predicate Covered(x: Actor) {
    match x.cover
    case Nothing => false
    case ByTimer(timer) => timer in x.armed && x.armed[timer] == x.generation
    case ByThread(t) => t in x.threads && IsCallback(x.threads[t]) && x.threads[t].g == x.generation
  }

  /** Nothing but the cover works for the current generation. */
  predicate OnlyCover(x: Actor) {
    && (forall m | m in x.armed && x.armed[m] == x.generation :: x.cover == ByTimer(m))
    && (forall t | t in x.threads && IsCallback(x.threads[t]) && x.threads[t].g == x.generation :: x.cover == ByThread(t))
  }

  predicate ThreadInv(x: Actor, t: nat)
    requires t in x.threads
  {
    var pc := x.threads[t];
    && (HoldsLife(pc) ==> x.life == Some(t))
    && (IsCallback(pc) ==> FromIdle(x, pc.g))
    && (pc.Checked? || pc.Rearming? ==> pc.g == x.generation)
    && (pc.Destroying? || pc.Cancelling? ==> x.place == Removed && x.released.None?)
    && (pc.Cancelling? <==> x.canceller == Some(t))
    && (pc.Idling? || pc.Rearming? ==> !Gone(x))
  }

  /** Destroyed, with the cancellation of the idle release done. */
  predicate Gone(x: Actor) {
    x.status == Destroyed && x.canceller.None?
  }

  predicate Inv(x: Actor) {
    && (x.life.Some? ==> x.life.value in x.threads && HoldsLife(x.threads[x.life.value]))
    && (x.timer.Some? ==> x.timer.value < x.nextTimer)
    && (forall m | m in x.armed ::
          m < x.nextTimer && FromIdle(x, x.armed[m]) && x.timer == Some(m) && x.armed[m] == x.generation)
    && (Gone(x) ==> x.armed == map[])
    && (x.canceller.Some? ==> x.status == Destroyed && x.canceller.value in x.threads)
    && (forall t | t in x.threads :: ThreadInv(x, t))
    && (x.place != Removed ==> x.status == Started)
    && (LastIdle(x).Some? ==> LastIdle(x).value.generation <= x.generation)
    && (x.place == Creating && LastIdle(x).Some? ==> LastIdle(x).value.place == Creating)
    && (forall g | g in x.refused :: FromIdle(x, g))
    && (x.generation in x.refused ==> LastIdle(x).Some? && LastIdle(x).value.place == Creating)
    && (Resting(x) ==>
          && LastIdle(x).value.generation == x.generation
          && (Covered(x) <==> x.generation !in x.refused))
    && OnlyCover(x)
    && (x.released.Some? ==>
          && x.status == Destroyed && x.place == Removed && x.life.None?
          && LastIdle(x).Some? && LastIdle(x).value.generation == x.released.value)
  }

  lemma LeaveKeeps(x: Actor, t: nat)
    requires Inv(x) && (t in x.threads ==> !HoldsLife(x.threads[t]) && !x.threads[t].Cancelling?)
    requires (Resting(x) && Covered(x) ==> x.cover != ByThread(t))
    ensures Inv(Leave(x, t))
  {
  }

  lemma LockKeeps(x: Actor, t: nat, pc: Pc)
    requires Inv(x) && x.life.None? && x.status == Started && HoldsLife(pc)
    requires if IsCallback(pc) then t in x.threads && IsCallback(x.threads[t]) && x.threads[t].g == pc.g == x.generation
             else t !in x.threads
    ensures Inv(Go(x, t, pc).(life := Some(t)))
  {
    assert t in x.threads ==> ThreadInv(x, t);
  }

  lemma EnterKeeps(x: Actor, t: nat, pc: Pc)
    requires Inv(x) && x.life.None? && HoldsLife(pc)
    requires if IsCallback(pc) then t in x.threads && IsCallback(x.threads[t]) && x.threads[t].g == pc.g else t !in x.threads
    ensures Inv(Enter(x, t, pc))
  {
    if x.status == Started && (IsCallback(pc) ==> x.generation == pc.g) {
      LockKeeps(x, t, pc);
    } else {
      LeaveKeeps(x, t);
    }
  }

  lemma ActivateKeeps(x: Actor, t: nat)
    requires Inv(x) && t in x.threads && x.threads[t] == Activating
    ensures Inv(Continue(x, t, true))
  {
    assert ThreadInv(x, t);
  }

  lemma IdleKeeps(x: Actor, t: nat)
    requires Inv(x) && t in x.threads && x.threads[t] == Idling
    ensures Inv(Continue(x, t, true))
  {
    assert ThreadInv(x, t);
  }

  lemma RearmKeeps(x: Actor, t: nat, g: nat)
    requires Inv(x) && t in x.threads && x.threads[t] == Rearming(g)
    ensures Inv(Continue(x, t, true))
  {
    assert ThreadInv(x, t);
  }

  lemma CommitKeeps(x: Actor, t: nat, g: nat)
    requires Inv(x) && t in x.threads && x.threads[t] == Committing(g) && x.life.None? && x.place != Initialising
    ensures Inv(Commit(x, t, g))
  {
    assert ThreadInv(x, t);
    if x.place == Registered && x.generation == g && x.status == Started {
      ReleaseKeeps(x, t, g);
    } else {
      RefuseKeeps(x, t, g);
    }
  }

  lemma ReleaseKeeps(x: Actor, t: nat, g: nat)
    requires Inv(x) && t in x.threads && x.threads[t] == Committing(g) && x.life.None?
    requires x.place == Registered && x.generation == g && x.status == Started
    ensures Inv(Leave(Supersede(x), t).(status := Destroyed, place := Removed, released := Some(g)))
  {
    assert ThreadInv(x, t);
  }

  lemma RefuseKeeps(x: Actor, t: nat, g: nat)
    requires Inv(x) && t in x.threads && x.threads[t] == Committing(g) && x.life.None? && x.place != Initialising
    requires !(x.place == Registered && x.generation == g && x.status == Started)
    ensures Inv(Leave(x, t).(refused := if x.place == Creating then x.refused + {g} else x.refused))
  {
    assert ThreadInv(x, t);
  }

  lemma DestroyKeeps(x: Actor, t: nat)
    requires Inv(x) && t in x.threads && x.threads[t] == Destroying
    ensures Inv(Continue(x, t, true))
  {
    assert ThreadInv(x, t);
    if x.status == Started {
      CancelNext(x, t);
    } else {
      LeaveKeeps(x, t);
    }
  }

  lemma CancelNext(x: Actor, t: nat)
    requires Inv(x) && t in x.threads && x.threads[t] == Destroying && x.place == Removed && x.status == Started
    ensures Inv(Go(x, t, Cancelling).(status := Destroyed, canceller := Some(t)))
  {
    assert ThreadInv(x, t);
  }

  lemma CancelKeeps(x: Actor, t: nat)
    requires Inv(x) && t in x.threads && x.threads[t] == Cancelling && x.life.None?
    ensures Inv(Continue(x, t, true))
  {
    assert ThreadInv(x, t);
  }

  lemma MoveKeeps(x: Actor, t: nat, allow: bool)
    requires Inv(x) && t in x.threads && (x.threads[t].Checked? || x.threads[t].Guarding?)
    ensures Inv(Continue(x, t, allow))
  {
    assert ThreadInv(x, t);
    if x.threads[t].Checked? {
      UnlockKeeps(x, t, x.threads[t].g);
    } else {
      AnswerKeeps(x, t, if allow then Committing(x.threads[t].g) else Denied(x.threads[t].g));
    }
  }

  lemma UnlockKeeps(x: Actor, t: nat, g: nat)
    requires Inv(x) && t in x.threads && x.threads[t] == Checked(g)
    ensures Inv(Go(x, t, Guarding(g)).(timer := None, life := None))
  {
    assert ThreadInv(x, t);
  }

  lemma AnswerKeeps(x: Actor, t: nat, pc: Pc)
    requires Inv(x) && t in x.threads && x.threads[t].Guarding? && (pc.Committing? || pc.Denied?) && pc.g == x.threads[t].g
    ensures Inv(Go(x, t, pc))
  {
    assert ThreadInv(x, t);
  }

  lemma FireKeeps(x: Actor, t: nat, timer: nat)
    requires Inv(x) && t !in x.threads && timer in x.armed
    ensures Inv(FireTimer(x, t, timer, x.armed[timer]))
  {
  }

  lemma SpawnKeeps(x: Actor, place: Place)
    requires Inv(x) && x.place in {Creating, Initialising} && place != Creating
    ensures Inv(x.(place := place))
  {
  }

  lemma RemoveKeeps(x: Actor, t: nat)
    requires Inv(x) && x.place == Registered && t !in x.threads
    ensures Inv(Go(x, t, Destroying).(place := Removed))
  {
  }

  lemma StepKeeps(x: Actor, s: Step)
    requires Inv(x) && Enabled(x, s)
    ensures Inv(Next(x, s))
  {
    match s
    case EndCreator => SpawnKeeps(x, Initialising);
    case RefusePid => SpawnKeeps(x, Removed);
    case Register => SpawnKeeps(x, Registered);
    case Fire(t, timer) => FireKeeps(x, t, timer);
    case Remove(t) => RemoveKeeps(x, t);
    case Active(t) => EnterKeeps(x, t, Activating);
    case Idle(t) => EnterKeeps(x, t, Idling);
    case Advance(t, allow) =>
      match x.threads[t] {
        case Activating => ActivateKeeps(x, t);
        case Idling => IdleKeeps(x, t);
        case Fired(g) => EnterKeeps(x, t, Checked(g));
        case Denied(g) => EnterKeeps(x, t, Rearming(g));
        case Rearming(g) => RearmKeeps(x, t, g);
        case Committing(g) => CommitKeeps(x, t, g);
        case Destroying => DestroyKeeps(x, t);
        case Cancelling => CancelKeeps(x, t);
        case Checked(_) => MoveKeeps(x, t, allow);
        case Guarding(_) => MoveKeeps(x, t, allow);
      }
  }

  // --- Whole runs ---

  function Run(steps: seq<Step>): Actor {
    if steps == [] then CREATED else Next(Run(steps[..|steps| - 1]), steps[|steps| - 1])
  }

  predicate Legal(steps: seq<Step>) {
    steps == [] || (Legal(steps[..|steps| - 1]) && Enabled(Run(steps[..|steps| - 1]), steps[|steps| - 1]))
  }

  lemma {:induction false} RunKeeps(steps: seq<Step>)
    requires Legal(steps)
    ensures Inv(Run(steps))
  {
    if steps != [] {
      RunKeeps(steps[..|steps| - 1]);
      StepKeeps(Run(steps[..|steps| - 1]), steps[|steps| - 1]);
    }
  }

  /**
    An idle release destroys the actor only if the last lifecycle call that took effect is
    the very `Idle` its timer was armed for: no `Active` and no newer `Idle` came after it,
    and none takes effect once the actor is destroyed.
  */
  lemma ReleaseIsNeverStale(steps: seq<Step>)
    requires Legal(steps) && Run(steps).released.Some?
    ensures var x := Run(steps);
            x.status == Destroyed && x.effects != [] && x.effects[|x.effects| - 1].Idled?
            && x.effects[|x.effects| - 1].generation == x.released.value
  {
    RunKeeps(steps);
  }

  /** At most one timer is armed, for the current generation, and none once the actor is destroyed and cancelled. */
  lemma TimersAreCurrent(steps: seq<Step>, m: nat, n: nat)
    requires Legal(steps) && m in Run(steps).armed && n in Run(steps).armed
    ensures m == n && Run(steps).armed[m] == Run(steps).generation && !Gone(Run(steps))
  {
    RunKeeps(steps);
  }

  lemma Prefix(steps: seq<Step>)
    requires Legal(steps) && steps != []
    ensures var init := steps[..|steps| - 1];
            && Legal(init) && Enabled(Run(init), steps[|steps| - 1])
            && Run(steps) == Next(Run(init), steps[|steps| - 1])
  {
  }

  lemma OthersStay(x: Actor, u: nat, allow: bool, t: nat)
    requires u in x.threads && t != u && t in Continue(x, u, allow).threads
    ensures t in x.threads && Continue(x, u, allow).threads[t] == x.threads[t]
  {
    match x.threads[u] {
      case Fired(_) =>
      case Denied(_) =>
      case Committing(_) =>
      case _ =>
    }
  }

  lemma OwnCommit(x: Actor, t: nat, allow: bool, g: nat)
    requires t in x.threads && t in Continue(x, t, allow).threads && Continue(x, t, allow).threads[t] == Committing(g)
    ensures allow && x.threads[t] == Guarding(g)
  {
    match x.threads[t] {
      case Fired(_) =>
      case Denied(_) =>
      case Committing(_) =>
      case _ =>
    }
  }

  lemma OnlyAllowedCommits(x: Actor, s: Step, t: nat, g: nat)
    requires Enabled(x, s) && t in Next(x, s).threads && Next(x, s).threads[t] == Committing(g)
    ensures || (t in x.threads && x.threads[t] == Committing(g))
            || (s == Advance(t, true) && t in x.threads && x.threads[t] == Guarding(g))
  {
    if s.Advance? && s.t != t {
      OthersStay(x, s.t, s.allow, t);
    } else if s.Advance? {
      OwnCommit(x, t, s.allow, g);
    }
  }

  lemma RemovedIsKept(x: Actor, s: Step)
    requires x.place == Removed && Enabled(x, s)
    ensures Next(x, s).place == Removed && Next(x, s).released == x.released
  {
  }

  /** An actor that is refused for its PID, or removed, never comes into the scheduler again, and no idle release destroys it. */
  lemma {:induction false} RemovedStaysOut(steps: seq<Step>, i: nat)
    requires Legal(steps) && i < |steps| && (steps[i].RefusePid? || steps[i].Remove?)
    ensures Run(steps).place == Removed && Run(steps).released == Run(steps[..i]).released
  {
    var init := steps[..|steps| - 1];
    Prefix(steps);
    if i < |init| {
      RemovedStaysOut(init, i);
      assert init[..i] == steps[..i];
      RemovedIsKept(Run(init), steps[|steps| - 1]);
    } else {
      assert steps[..i] == init;
    }
  }

  /** A callback comes to its commit only by an answer of the guard that allowed it. */
  lemma {:induction false} CommitWasAllowed(steps: seq<Step>, t: nat, g: nat) returns (i: nat)
    requires Legal(steps) && t in Run(steps).threads && Run(steps).threads[t] == Committing(g)
    ensures i < |steps| && steps[i] == Advance(t, true)
    ensures t in Run(steps[..i]).threads && Run(steps[..i]).threads[t] == Guarding(g)
  {
    var init := steps[..|steps| - 1];
    Prefix(steps);
    OnlyAllowedCommits(Run(init), steps[|steps| - 1], t, g);
    if t in Run(init).threads && Run(init).threads[t] == Committing(g) {
      i := CommitWasAllowed(init, t, g);
      assert init[..i] == steps[..i];
    } else {
      i := |steps| - 1;
    }
  }

  /** In every run an idle release destroys the actor only after the guard allowed the release of that generation. */
  lemma {:induction false} ReleaseWasAllowed(steps: seq<Step>) returns (i: nat, t: nat)
    requires Legal(steps) && Run(steps).released.Some?
    ensures i < |steps| && steps[i] == Advance(t, true)
    ensures t in Run(steps[..i]).threads && Run(steps[..i]).threads[t] == Guarding(Run(steps).released.value)
  {
    var init := steps[..|steps| - 1];
    Prefix(steps);
    if Run(init).released == Run(steps).released {
      i, t := ReleaseWasAllowed(init);
    } else {
      t := steps[|steps| - 1].t;
      i := CommitWasAllowed(init, t, Run(steps).released.value);
    }
    assert init[..i] == steps[..i];
  }

  // --- Calls that nothing interrupts ---

  /** Two turns of one thread. */
  function Twice(x: Actor, t: nat, first: bool, second: bool): Actor {
    Next(Next(x, Advance(t, first)), Advance(t, second))
  }

  /** `Active` on a started actor starts a generation without a timer; on a destroyed one it does nothing. */
  lemma ActiveTakesEffect(x: Actor, t: nat)
    requires Inv(x) && t !in x.threads && x.life.None?
    ensures Next(Next(x, Active(t)), Advance(t, true)) ==
            if x.status == Destroyed then x
            else x.(generation := x.generation + 1, timer := None, armed := map[], effects := x.effects + [Activated])
  {
    assert x.threads[t := Activating] - {t} == x.threads && x.threads - {t} == x.threads;
    assert forall m | m in x.armed :: x.timer == Some(m);
    assert x.timer.Some? ==> x.armed - {x.timer.value} == map[];
    assert x.timer.None? ==> x.armed == map[];
  }

  /** `Idle` on a started actor starts a generation and arms its one timer; on a destroyed one it does nothing. */
  lemma IdleTakesEffect(x: Actor, t: nat)
    requires Inv(x) && t !in x.threads && x.life.None?
    ensures Next(Next(x, Idle(t)), Advance(t, true)) ==
            if x.status == Destroyed then x
            else
              var g, m := x.generation + 1, x.nextTimer;
              x.(generation := g, timer := Some(m), armed := map[m := g], nextTimer := m + 1, cover := ByTimer(m),
                 effects := x.effects + [Idled(g, x.place)])
  {
    assert x.threads[t := Idling] - {t} == x.threads && x.threads - {t} == x.threads;
    assert forall m | m in x.armed :: x.timer == Some(m);
    assert x.timer.Some? ==> x.armed - {x.timer.value} == map[];
    assert x.timer.None? ==> x.armed == map[];
  }

  /** A timer that fires on a started actor of its generation comes to the guard. */
  lemma FiredReachesGuard(x: Actor, t: nat, m: nat)
    requires Inv(x) && t !in x.threads && x.life.None? && m in x.armed && x.status == Started
    ensures var x' := Next(Next(Next(x, Fire(t, m)), Advance(t, true)), Advance(t, true));
            x' == Go(x, t, Guarding(x.generation)).(armed := map[], timer := None,
                     cover := if x.cover == ByTimer(m) then ByThread(t) else x.cover)
  {
    assert x.armed - {m} == map[];
    assert x.threads[t := Fired(x.generation)][t := Checked(x.generation)][t := Guarding(x.generation)]
           == x.threads[t := Guarding(x.generation)];
  }

  /**
    After an answer that allows, a registered actor of that generation is destroyed and out of
    the scheduler; in any other case the callback ends and changes nothing.
  */
  lemma AllowedDestroys(x: Actor, t: nat, g: nat)
    requires Inv(x) && t in x.threads && x.threads[t] == Guarding(g) && x.life.None? && x.status == Started
    ensures var x' := Twice(x, t, true, true);
            if x.place == Registered && g == x.generation then
              x'.status == Destroyed && x'.place == Removed && x'.released == Some(g) && x'.armed == map[]
            else
              && x'.status == Started && x'.place == x.place && x'.released == x.released && x'.armed == x.armed
              && x'.generation == x.generation && x'.threads == x.threads - {t}
  {
    assert forall m | m in x.armed :: x.timer == Some(m);
    assert x.threads[t := Committing(g)] - {t} == x.threads - {t};
  }

  /**
    After an answer that denies, a timer of the same generation is armed and nothing else changes;
    a generation that is not current any more ends without one.
  */
  lemma DeniedRearms(x: Actor, t: nat, g: nat)
    requires Inv(x) && t in x.threads && x.threads[t] == Guarding(g) && x.life.None? && x.status == Started
    ensures g == x.generation ==>
              Next(Twice(x, t, false, true), Advance(t, true)) ==
              Leave(x, t).(timer := Some(x.nextTimer), armed := x.armed[x.nextTimer := g],
                           nextTimer := x.nextTimer + 1, cover := ByTimer(x.nextTimer))
    ensures g != x.generation ==> Twice(x, t, false, true) == Leave(x, t)
  {
    DenialSeen(x, t, g);
    if g == x.generation {
      RearmsIdle(x, t, g);
    }
  }

  lemma RearmsIdle(x: Actor, t: nat, g: nat)
    requires t in x.threads && g == x.generation
    ensures Next(Go(x, t, Rearming(g)).(life := Some(t)), Advance(t, true)) ==
            Leave(x, t).(timer := Some(x.nextTimer), armed := x.armed[x.nextTimer := g],
                         nextTimer := x.nextTimer + 1, cover := ByTimer(x.nextTimer), life := None)
  {
    assert x.threads[t := Rearming(g)] - {t} == x.threads - {t};
  }

  lemma DenialSeen(x: Actor, t: nat, g: nat)
    requires t in x.threads && x.threads[t] == Guarding(g) && x.life.None? && x.status == Started
    ensures Twice(x, t, false, true) ==
            if g == x.generation then Go(x, t, Rearming(g)).(life := Some(t)) else Leave(x, t)
  {
    assert x.threads[t := Denied(g)] - {t} == x.threads - {t};
    assert x.threads[t := Denied(g)][t := Rearming(g)] == x.threads[t := Rearming(g)];
  }

  /** A kill that nothing interrupts: the actor is destroyed and no timer is left. */
  lemma RemoveDestroys(x: Actor, t: nat)
    requires Inv(x) && t !in x.threads && x.life.None? && x.place == Registered
    ensures var x' := Twice(Next(x, Remove(t)), t, true, true);
            && x'.status == Destroyed && x'.place == Removed && x'.armed == map[] && x'.threads == x.threads
            && x'.generation == x.generation + 1 && x'.released == x.released && x'.effects == x.effects
  {
    assert forall m | m in x.armed :: x.timer == Some(m);
    assert x.threads[t := Destroying][t := Cancelling] - {t} == x.threads;
  }

  /** A timer is armed or a release callback runs for the current generation. */
  ghost predicate Awaits(x: Actor) {
    || (exists m :: m in x.armed && x.armed[m] == x.generation)
    || (exists t :: t in x.threads && IsCallback(x.threads[t]) && x.threads[t].g == x.generation)
  }

  /**
    After an `Idle`, until a later call takes effect or the actor leaves the scheduler, a timer
    is armed or a release callback runs for the current generation, however often the guard has
    denied the release; with one exception, stated both ways: the release of that very
    generation came to its commit while the creator was still running and was refused.
  */
  lemma IdleAwaitsIff(steps: seq<Step>)
    requires Legal(steps) && Resting(Run(steps))
    ensures var x := Run(steps);
            && x.status == Started && LastIdle(x).value.generation == x.generation
            && (Awaits(x) <==> x.generation !in x.refused)
            && (x.generation in x.refused ==> LastIdle(x).value.place == Creating)
  {
    RunKeeps(steps);
  }

  /** So an `Idle` made in `Init` or later is never stranded. */
  lemma IdleIsNeverStranded(steps: seq<Step>)
    requires Legal(steps) && Resting(Run(steps)) && LastIdle(Run(steps)).value.place != Creating
    ensures LastIdle(Run(steps)).value.generation == Run(steps).generation && Awaits(Run(steps))
  {
    IdleAwaitsIff(steps);
  }

  /** The commit of the current generation strands the actor while the creator runs, and destroys it otherwise. */
  lemma RefusedWhileCreating(steps: seq<Step>, t: nat)
    requires Legal(steps) && Enabled(Run(steps), Advance(t, true)) && Run(steps).threads[t].Committing?
    requires Run(steps).threads[t].g == Run(steps).generation && Resting(Run(steps))
    ensures var x, x' := Run(steps), Next(Run(steps), Advance(t, true));
            if x.place == Creating then Resting(x') && !Awaits(x')
            else x'.released == Some(x.generation) && x'.status == Destroyed
  {
    RunKeeps(steps);
    var longer := Then(steps, Advance(t, true));
    RunKeeps(longer);
  }

  /** Such a run: the creator idles the actor, and the release is refused before the creator returns. */
  lemma IdleInCreatorCanStrand() returns (steps: seq<Step>)
    ensures Legal(steps) && Run(steps).place == Registered && Run(steps).status == Started
    ensures LastIdle(Run(steps)) == Some(Idled(1, Creating)) && Run(steps).generation == 1
    ensures Run(steps).armed == map[] && Run(steps).threads == map[]
  {
    steps := EarlyIdleIsRefused();
    steps := Then(steps, EndCreator);
    steps := Then(steps, Register);
  }

  lemma EarlyIdleIsRefused() returns (steps: seq<Step>)
    ensures Legal(steps)
    ensures Run(steps) == Actor(Started, Creating, 1, None, map[], 1, None, map[], [Idled(1, Creating)], ByThread(0), None, {1}, None)
  {
    steps := EarlyIdleIsChecked();
    steps := Then(steps, Advance(0, true));
    steps := Then(steps, Advance(0, true));
    assert Run(steps).threads == map[];
  }

  lemma EarlyIdleIsChecked() returns (steps: seq<Step>)
    ensures Legal(steps)
    ensures Run(steps) == Actor(Started, Creating, 1, None, map[], 1, None,
                                map[0 := Guarding(1)], [Idled(1, Creating)], ByThread(0), None, {}, None)
  {
    steps := EarlyIdleFires();
    steps := Then(steps, Advance(0, true));
    steps := Then(steps, Advance(0, true));
  }

  lemma EarlyIdleFires() returns (steps: seq<Step>)
    ensures Legal(steps)
    ensures Run(steps) == Actor(Started, Creating, 1, Some(0), map[], 1, None,
                                map[0 := Fired(1)], [Idled(1, Creating)], ByThread(0), None, {}, None)
  {
    steps := [];
    steps := Then(steps, Idle(0));
    steps := Then(steps, Advance(0, true));
    steps := Then(steps, Fire(0, 0));
  }

  lemma Then(steps: seq<Step>, s: Step) returns (longer: seq<Step>)
    requires Legal(steps) && Enabled(Run(steps), s)
    ensures Legal(longer) && Run(longer) == Next(Run(steps), s)
  {
    longer := steps + [s];
    assert longer[..|longer| - 1] == steps;
  }
}
