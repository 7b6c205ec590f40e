/**
  The channels of one actor under concurrent senders and destroyers.

  Senders hold the actor's read lock from the state check to the send; the teardown closes
  the channels under the write lock. The state itself changes by compare-and-swap without
  any lock, so it can change between a sender's check and its send.
*/
module ActorMailbox {
  import opened Prelude

  datatype Channel = Mailbox | Functions

  datatype Event =
    | Sent(channel: Channel)
    | DestroyRan
    | Closed(channel: Channel)
    | HookRan
    | Completed

  datatype Status = Started | Destroyed

  datatype Pc =
    // Next, TryInvoke, TryInvokeContext and AfterInvoke
    | Reading(channel: Channel)
    | Sending(channel: Channel)
    // finishDestroy, by the one thread that won the compare-and-swap
    | RunningDestroy
    | WantingLock
    | ClosingMailbox
    | ClosingFunctions
    | RunningHook
    | Completing

  predicate IsReader(pc: Pc) {
    pc.Reading? || pc.Sending?
  }

  predicate IsTeardown(pc: Pc) {
    !IsReader(pc)
  }

  predicate IsWriter(pc: Pc) {
    pc.ClosingMailbox? || pc.ClosingFunctions?
  }

  /** `reaper` is the thread that won the compare-and-swap; `log` is what happened so far. */
  datatype Actor = Actor(status: Status, threads: map<nat, Pc>, reaper: Option<nat>, log: seq<Event>)

  const SPAWNED := Actor(Started, map[], None, [])

  datatype Step =
    | Send(t: nat, channel: Channel)
    | Destroy(t: nat)
    | Advance(t: nat)
    | GiveUp(t: nat)

  predicate Unlocked(x: Actor) {
    forall t | t in x.threads :: !IsReader(x.threads[t]) && !IsWriter(x.threads[t])
  }

  predicate Unwritten(x: Actor) {
    forall t | t in x.threads :: !IsWriter(x.threads[t])
  }

  /** A read lock needs that nobody writes, the write lock that nobody reads or writes. */
  predicate Enabled(x: Actor, s: Step) {
    match s
    case Send(t, _) => t !in x.threads && Unwritten(x)
    case Destroy(t) => t !in x.threads
    case Advance(t) => t in x.threads && (x.threads[t].WantingLock? ==> Unlocked(x))
    case GiveUp(t) => t in x.threads && x.threads[t].Sending?
  }

  function Go(x: Actor, t: nat, pc: Pc): Actor {
    x.(threads := x.threads[t := pc])
  }

  function Leave(x: Actor, t: nat): Actor {
    x.(threads := x.threads - {t})
  }

  function Note(x: Actor, e: Event): Actor {
    x.(log := x.log + [e])
  }

  function Continue(x: Actor, t: nat): Actor
    requires t in x.threads
  {
    match x.threads[t]
    case Reading(channel) => if x.status == Started then Go(x, t, Sending(channel)) else Leave(x, t)
    case Sending(channel) => Leave(Note(x, Sent(channel)), t)
    case RunningDestroy => Go(Note(x, DestroyRan), t, WantingLock)
    case WantingLock => Go(x, t, ClosingMailbox)
    case ClosingMailbox => Go(Note(x, Closed(Mailbox)), t, ClosingFunctions)
    case ClosingFunctions => Go(Note(x, Closed(Functions)), t, RunningHook)
    case RunningHook => Go(Note(x, HookRan), t, Completing)
    case Completing => Leave(Note(x, Completed), t)
  }

  function Next(x: Actor, s: Step): Actor {
    match s
    case Send(t, channel) => Go(x, t, Reading(channel))
    case Destroy(t) =>
      if x.status == Started then Go(x, t, RunningDestroy).(status := Destroyed, reaper := Some(t)) else x
    case Advance(t) => if t in x.threads then Continue(x, t) else x
    case GiveUp(t) => Leave(x, t)
  }

  // --- What may happen after what ---

  predicate Allowed(before: seq<Event>, e: Event) {
    match e
    case Sent(channel) => Closed(channel) !in before
    case DestroyRan => DestroyRan !in before
    case Closed(channel) => Closed(channel) !in before && DestroyRan in before
    case HookRan => Closed(Mailbox) in before && Closed(Functions) in before && HookRan !in before
    case Completed => HookRan in before && Completed !in before
  }

  ghost predicate LawfulLog(log: seq<Event>) {
    forall j | 0 <= j < |log| :: Allowed(log[..j], log[j])
  }

  lemma LogGrows(log: seq<Event>, e: Event)
    requires LawfulLog(log) && Allowed(log, e)
    ensures LawfulLog(log + [e])
  {
    var longer := log + [e];
    forall j | 0 <= j < |longer| ensures Allowed(longer[..j], longer[j]) {
      if j < |log| {
        assert longer[..j] == log[..j];
      } else {
        assert longer[..j] == log;
      }
    }
  }

  /** How far the teardown has come when the reaper is at `pc`. */
  predicate Progress(log: seq<Event>, pc: Pc) {
    match pc
    case RunningDestroy =>
      DestroyRan !in log && Closed(Mailbox) !in log && Closed(Functions) !in log && HookRan !in log && Completed !in log
    case WantingLock =>
      DestroyRan in log && Closed(Mailbox) !in log && Closed(Functions) !in log && HookRan !in log && Completed !in log
    case ClosingMailbox =>
      DestroyRan in log && Closed(Mailbox) !in log && Closed(Functions) !in log && HookRan !in log && Completed !in log
    case ClosingFunctions =>
      DestroyRan in log && Closed(Mailbox) in log && Closed(Functions) !in log && HookRan !in log && Completed !in log
    case RunningHook => Closed(Mailbox) in log && Closed(Functions) in log && HookRan !in log && Completed !in log
    case Completing => HookRan in log && Completed !in log
    case Reading(_) => true
    case Sending(channel) => Closed(channel) !in log
  }

  predicate ThreadInv(x: Actor, t: nat)
    requires t in x.threads
  {
    && Progress(x.log, x.threads[t])
    && (IsTeardown(x.threads[t]) ==> x.reaper == Some(t))
    && (IsReader(x.threads[t]) ==> !Writing(x))
  }

  predicate OnlySends(log: seq<Event>) {
    forall i | 0 <= i < |log| :: log[i].Sent?
  }

  ghost predicate Inv(x: Actor) {
    && LawfulLog(x.log)
    && (x.status == Started ==> x.reaper.None? && OnlySends(x.log))
    && (forall t | t in x.threads :: ThreadInv(x, t))
  }

  predicate Writing(x: Actor) {
    x.reaper.Some? && x.reaper.value in x.threads && IsWriter(x.threads[x.reaper.value])
  }

  lemma ContinueAllowed(x: Actor, t: nat)
    requires Inv(x) && t in x.threads
    ensures var log := Continue(x, t).log;
            log == x.log || (log == x.log + [log[|x.log|]] && Allowed(x.log, log[|x.log|]))
  {
  }

  lemma SenderKeeps(x: Actor, t: nat)
    requires Inv(x) && t in x.threads && IsReader(x.threads[t]) && LawfulLog(Continue(x, t).log)
    ensures Inv(Continue(x, t))
  {
    assert ThreadInv(x, t);
    forall u | u in Continue(x, t).threads ensures ThreadInv(Continue(x, t), u) {
      assert ThreadInv(x, u);
    }
  }

  lemma ReaperAdvances(x: Actor, t: nat)
    requires t in x.threads && IsTeardown(x.threads[t]) && ThreadInv(x, t)
    ensures t in Continue(x, t).threads ==> ThreadInv(Continue(x, t), t)
  {
  }

  lemma TeardownKeeps(x: Actor, t: nat)
    requires Inv(x) && Enabled(x, Advance(t)) && IsTeardown(x.threads[t]) && LawfulLog(Continue(x, t).log)
    ensures Inv(Continue(x, t))
  {
    var x' := Continue(x, t);
    assert ThreadInv(x, t);
    ReaperAdvances(x, t);
    forall u | u in x'.threads ensures ThreadInv(x', u) {
      if u != t {
        OthersDuringTeardown(x, t, u);
      }
    }
  }

  lemma OthersDuringTeardown(x: Actor, t: nat, u: nat)
    requires Inv(x) && Enabled(x, Advance(t)) && IsTeardown(x.threads[t]) && u in x.threads && u != t
    ensures u in Continue(x, t).threads && ThreadInv(Continue(x, t), u)
  {
    assert ThreadInv(x, t) && ThreadInv(x, u);
    assert IsReader(x.threads[u]) && !IsWriter(x.threads[t]) && !x.threads[t].WantingLock?;
    assert x.threads[u].Sending? ==> Closed(x.threads[u].channel) !in Continue(x, t).log;
  }

  lemma ContinueKeeps(x: Actor, t: nat)
    requires Inv(x) && Enabled(x, Advance(t))
    ensures Inv(Continue(x, t))
  {
    ContinueAllowed(x, t);
    if Continue(x, t).log != x.log {
      LogGrows(x.log, Continue(x, t).log[|x.log|]);
    }
    if IsReader(x.threads[t]) {
      SenderKeeps(x, t);
    } else {
      TeardownKeeps(x, t);
    }
  }

  lemma StepKeeps(x: Actor, s: Step)
    requires Inv(x) && Enabled(x, s)
    ensures Inv(Next(x, s))
  {
    if s.Advance? {
      ContinueKeeps(x, s.t);
    }
  }

  // --- Whole runs ---

  function Run(steps: seq<Step>): Actor {
    if steps == [] then SPAWNED else Next(Run(steps[..|steps| - 1]), steps[|steps| - 1])
  }

  predicate Legal(steps: seq<Step>) {
    steps == [] || (Legal(steps[..|steps| - 1]) && Enabled(Run(steps[..|steps| - 1]), steps[|steps| - 1]))
  }

  lemma {:induction false} RunKeeps(steps: seq<Step>)
    requires Legal(steps)
    ensures Inv(Run(steps))
  {
    if steps != [] {
      RunKeeps(steps[..|steps| - 1]);
      StepKeeps(Run(steps[..|steps| - 1]), steps[|steps| - 1]);
    }
  }

  /**
    In every interleaving of senders and destroyers: after a channel is closed nothing is
    sent on it and it is not closed again, and the termination witness turns true only after
    `Destroy`, both closes and the release hook.
  */
  lemma ChannelsAreSafe(steps: seq<Step>, i: nat, j: nat, channel: Channel)
    requires Legal(steps) && i < j < |Run(steps).log|
    ensures var log := Run(steps).log;
            && (log[i] == Closed(channel) ==> log[j] != Sent(channel) && log[j] != Closed(channel))
            && (log[j] == Completed ==>
                  DestroyRan in log[..j] && Closed(channel) in log[..j] && HookRan in log[..j] && log[i] != Completed)
  {
    RunKeeps(steps);
    var log := Run(steps).log;
    assert log[i] in log[..j] by {
      assert log[..j][i] == log[i];
    }
    assert Allowed(log[..j], log[j]);
    if log[j] == Completed {
      HookComesLast(log, j);
    }
  }

  lemma HookComesLast(log: seq<Event>, j: nat)
    requires LawfulLog(log) && j < |log| && HookRan in log[..j]
    ensures DestroyRan in log[..j] && Closed(Mailbox) in log[..j] && Closed(Functions) in log[..j]
  {
    var h :| 0 <= h < j && log[h] == HookRan;
    assert Allowed(log[..h], log[h]);
    var c :| 0 <= c < h && log[c] == Closed(Mailbox);
    assert Allowed(log[..c], log[c]);
    var f :| 0 <= f < h && log[f] == Closed(Functions);
    var d :| 0 <= d < c && log[d] == DestroyRan;
    assert log[..j][c] == Closed(Mailbox) && log[..j][f] == Closed(Functions) && log[..j][d] == DestroyRan;
  }

  /** A witness that is true means the actor is destroyed for good: no further call is accepted. */
  lemma CompleteMeansGone(steps: seq<Step>)
    requires Legal(steps) && Completed in Run(steps).log
    ensures Run(steps).status == Destroyed
    ensures forall t | t in Run(steps).threads :: !Run(steps).threads[t].Sending?
  {
    RunKeeps(steps);
    CompleteMeansGoneIn(Run(steps));
  }

  lemma CompleteMeansGoneIn(x: Actor)
    requires Inv(x) && Completed in x.log
    ensures x.status == Destroyed && forall t | t in x.threads :: !x.threads[t].Sending?
  {
    CompleteMeansClosed(x.log);
    forall t | t in x.threads ensures !x.threads[t].Sending? {
      assert ThreadInv(x, t);
    }
  }

  lemma CompleteMeansClosed(log: seq<Event>)
    requires LawfulLog(log) && Completed in log
    ensures forall channel :: Closed(channel) in log
  {
    var j :| 0 <= j < |log| && log[j] == Completed;
    assert Allowed(log[..j], log[j]);
    HookComesLast(log, j);
    forall channel ensures Closed(channel) in log {
      assert channel == Mailbox || channel == Functions;
    }
  }

  // --- Operations that nothing interrupts ---

  predicate Goes(x: Actor, s: Step, x': Actor) {
    Enabled(x, s) && Next(x, s) == x'
  }

  /** A send waits for no reader. On a started actor it sends, on a destroyed one it does nothing; it may give up instead. */
  lemma SendAlone(x: Actor, t: nat, channel: Channel)
    requires t !in x.threads && Unwritten(x)
    ensures var reading, sending := Go(x, t, Reading(channel)), Go(x, t, Sending(channel));
            && Goes(x, Send(t, channel), reading)
            && (if x.status == Started
                then
                  && Goes(reading, Advance(t), sending)
                  && Goes(sending, Advance(t), Note(x, Sent(channel))) && Goes(sending, GiveUp(t), x)
                else Goes(reading, Advance(t), x))
  {
    assert x.threads[t := Reading(channel)][t := Sending(channel)] == x.threads[t := Sending(channel)];
    assert x.threads[t := Reading(channel)] - {t} == x.threads;
    assert x.threads[t := Sending(channel)] - {t} == x.threads;
  }

  function At(x: Actor, t: nat, pc: Pc, events: seq<Event>): Actor {
    Go(x, t, pc).(status := Destroyed, reaper := Some(t), log := x.log + events)
  }

  lemma AtGoes(x: Actor, t: nat, pc: Pc, events: seq<Event>, pc': Pc, e: Event)
    requires t !in x.threads
    ensures Go(Note(At(x, t, pc, events), e), t, pc') == At(x, t, pc', events + [e])
    ensures Go(At(x, t, pc, events), t, pc') == At(x, t, pc', events)
    ensures Leave(Note(At(x, t, pc, events), e), t) == x.(status := Destroyed, reaper := Some(t), log := x.log + (events + [e]))
  {
    assert x.threads[t := pc][t := pc'] == x.threads[t := pc'];
    assert x.threads[t := pc] - {t} == x.threads;
    assert x.log + events + [e] == x.log + (events + [e]);
  }

  /** Destroying a started actor: the lock is waited for while anyone reads, and only then the channels are closed. */
  lemma DestroyLocks(x: Actor, t: nat)
    requires x.status == Started && t !in x.threads
    ensures Goes(x, Destroy(t), At(x, t, RunningDestroy, []))
    ensures Goes(At(x, t, RunningDestroy, []), Advance(t), At(x, t, WantingLock, [DestroyRan]))
    ensures Unlocked(x) ==> Goes(At(x, t, WantingLock, [DestroyRan]), Advance(t), At(x, t, ClosingMailbox, [DestroyRan]))
    ensures !Unlocked(x) ==> !Enabled(At(x, t, WantingLock, [DestroyRan]), Advance(t))
  {
    assert x.log + [] == x.log;
    AtGoes(x, t, RunningDestroy, [], WantingLock, DestroyRan);
    AtGoes(x, t, WantingLock, [DestroyRan], ClosingMailbox, DestroyRan);
    if !Unlocked(x) {
      var u :| u in x.threads && (IsReader(x.threads[u]) || IsWriter(x.threads[u]));
      assert At(x, t, WantingLock, [DestroyRan]).threads[u] == x.threads[u];
    }
  }

  const TEARDOWN := [DestroyRan, Closed(Mailbox), Closed(Functions), HookRan, Completed]

  /** From there it closes both channels, runs the hook and turns the witness true, whatever the others do not do. */
  lemma DestroyCompletes(x: Actor, t: nat)
    requires t !in x.threads
    ensures Goes(At(x, t, ClosingMailbox, TEARDOWN[..1]), Advance(t), At(x, t, ClosingFunctions, TEARDOWN[..2]))
    ensures Goes(At(x, t, ClosingFunctions, TEARDOWN[..2]), Advance(t), At(x, t, RunningHook, TEARDOWN[..3]))
    ensures Goes(At(x, t, RunningHook, TEARDOWN[..3]), Advance(t), At(x, t, Completing, TEARDOWN[..4]))
    ensures Goes(At(x, t, Completing, TEARDOWN[..4]), Advance(t),
                 x.(status := Destroyed, reaper := Some(t), log := x.log + TEARDOWN))
  {
    AtGoes(x, t, ClosingMailbox, TEARDOWN[..1], ClosingFunctions, Closed(Mailbox));
    AtGoes(x, t, ClosingFunctions, TEARDOWN[..2], RunningHook, Closed(Functions));
    AtGoes(x, t, RunningHook, TEARDOWN[..3], Completing, HookRan);
    AtGoes(x, t, Completing, TEARDOWN[..4], Completing, Completed);
    assert TEARDOWN[..1] + [Closed(Mailbox)] == TEARDOWN[..2] && TEARDOWN[..2] + [Closed(Functions)] == TEARDOWN[..3];
    assert TEARDOWN[..3] + [HookRan] == TEARDOWN[..4] && TEARDOWN[..4] + [Completed] == TEARDOWN;
  }

  /** A second destroy does nothing. */
  lemma DestroyTwice(x: Actor, t: nat)
    requires x.status == Destroyed && t !in x.threads
    ensures Goes(x, Destroy(t), x)
  {
  }
}
