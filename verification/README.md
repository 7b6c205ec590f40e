# Verified models of a distributed game-server framework

This project models the stateful core of the framework in Dafny and proves what its design
promises about it: who owns a session, when an actor lives and dies, which routing hint may be
served, how many bytes and connections a gate admits, how work is spread over endpoints, and
what survives a trip through the packet format and the configuration tree.

Two forms are used. An object whose methods change its fields is a `class` whose methods are
proved against functions on values. A protocol between goroutines, or between processes, is a
step system: a state, a `Step` type with one constructor per atomic action (a lock section, a
compare-and-swap, a Redis script), `Enabled`, `Next` and `Run`. Main results quantify over every
run, so over every interleaving of those steps.

| module | what it covers |
|---|---|
| `Decimal`, `RedisStore`, `Ownership`, `MemoryStore`, `Fencing` | session ownership: the Redis scripts, the store, the in-memory reference store, and every cluster run over them |
| `SessionIndex`, `GateSession`, `BindRace` | the gate's session index, and a bind racing with the disconnect of its connection |
| `ActorIdle`, `ActorScheduler`, `ActorMailbox` | idle release, registration and teardown, and channel safety of actors |
| `SourceHints`, `HintFreshness`, `OwnedSources` | the hint cache, its freshness against the locator, and the owned-source ledger |
| `WriteBudget`, `ConnSlots` | the shared write-queue budget and the connection slots of the WebSocket server |
| `RoundRobin` | smooth weighted round robin |
| `ByteOrders`, `Buffers`, `Packet`, `PacketStream` | integers as bytes, the growing writer and block list, the packet format and its stream |
| `Config`, `ConfigMemory` | the configuration tree as a value, and as maps and slices changed in place beside readers |

## What the code does not do

The proofs follow the code where it departs from what one would expect.

- `Session.Bind` with user id 0 on a bound connection leaves `users[0]` behind when the connection goes.
  `SessionIndex.BindThenDisconnect` proves it for every consistent index, and that no other bind does this.
- `Actor.Idle` called in the actor's creator can be lost: if its release comes to the commit before the creator returns,
  the scheduler refuses it and nothing tries again. `ActorIdle.IdleAwaitsIff` shows that this is the only way an idle actor
  loses its release, `ActorIdle.IdleInCreatorCanStrand` is such a run. An `Idle` in `Init` is safe, because the spawn holds
  the scheduler's lock until the actor is stored.
- Releasing an idle actor changes its state before it leaves the registry, so a registered actor can be in the destroyed
  state, exactly while that release holds the scheduler's lock: `ActorScheduler.LifecycleHolds`, and a run in
  `ActorScheduler.CommittedIsStillRegistered`.
- `addWait` and `doneWait` do nothing while the node is Shut, which it is until `Start` and whenever its state is set so.
  A waiting actor spawned in an Init hook and killed after `Start` is counted down without having been counted up, and
  the count goes negative, where the source's wait group panics: `ActorScheduler.EarlySpawnBreaksWait`. One spawned while
  the node works and killed while it is Shut stays counted. `ActorScheduler.WaitCountHolds` gives the count in every
  state of every run and exactly when it is right, `ActorScheduler.DriftsIff` the steps in which it goes wrong.
- With hints on, `NodeLinker.BindNode` of a pair this node owns to another node leaves the owned entry in place, though
  the binding is elsewhere now. `OwnedSources.OwnedAfterBindIff` shows that this is the only bind after which entry and
  binding disagree. The counter agrees with the entries throughout.
- `ReadMessage` adds the four size bytes in 32 bits. A size within four of the limit makes the packet buffer shorter than
  the size field, and slicing it panics. `PacketStream.FrameIsRead` gives the exact range of bodies that are read back.
- `PackMessage` truncates a size of four gigabytes or more. `Packet.UnpackPacked` gives the exact bound.
- The header test of `UnpackMessage` cannot fail, so a heartbeat that is long enough for the route and sequence number
  unpacks as a message: `Packet.HeartbeatUnpacksIff`. A packer's own heartbeat does so exactly when it carries the time;
  the default one is too short and is refused: `Packet.OwnHeartbeatUnpacksIff`.
- A list that `Set` creates has one place, at every depth, so from the first container it replaces every index that
  follows must be 0: `Config.RebuiltListHoldsOne`. Under a list, a child list is padded to the index of the parent segment
  and not to the next one: `Config.ListUnderListGrows`.
- `Set` stores the caller's map or slice itself. What its owner does to it afterwards shows in the configuration, until
  the next `Set` copies the tree: `ConfigMemory.OwnerKeepsHold`.
- The configurator moves its index before it writes the slot, and readers load the index before they read the slot. A
  reader returns a tree older than the last one stored exactly when it loads the index between the two writes and reads
  the slot before the second: `Config.ReadersSee`. So a later reader can return an older tree: `Config.ReaderGoesBack`.
- `Store.Acquire` can fail with a new owner already in the hash: exactly when its first range callback was usable and then
  the context was cancelled, or the allocator called back again, or it reported an error. `RedisStore.AcquireAlone` states
  this for every failure.

## Model

| member | source | states |
|---|---|---|
| `Decimal.CompareIsNumeric` | session/redis/script.go:10-13 | On canonical decimals of any length the Lua length-then-lexicographic comparison has the sign of the numeric comparison. |
| `Decimal.LexIsNumeric` | session/redis/script.go:10-13 | On digit strings of equal length, lexicographic order is numeric order and equality is equality of values. |
| `Decimal.LongerIsLarger` | session/redis/script.go:10-13 | Of two canonical decimals the longer one is the larger number. |
| `Decimal.MaxTextValue` | session/redis/script.go:5-9 | The text limit of the script is canonical and denotes MaxInt64. |
| `Decimal.ValidIsBounded` | session/redis/script.go:7-9 | `valid` accepts exactly the canonical decimals up to MaxInt64. |
| `Decimal.FormatOfValue` | session/redis/store.go:127-136 | Formatting a parsed digit string gives the text back exactly when it is canonical. |
| `Decimal.DecodeMeaning` | session/redis/store.go:127-136 | The decoder takes a text exactly when the script calls it valid (zero only with `range`) and yields its value. |
| `Decimal.DecoderAcceptsExactlyValid` | session/redis/store.go:127-136 | A two-element reply is accepted exactly when its tag is known and `valid` holds of the text; the decoded number is the text's value. |
| `Ownership.OwnerIsNewest` | session/ownership.go:10-17 | After any lawful history the owner is absent or the newest generation, and nothing issued exceeds the newest. |
| `Ownership.IssuedStrictlyIncrease` | session/ownership.go:10-17 | Each generation issued for a user is above all issued before. |
| `Ownership.NoStaleAcceptOrFree` | session/ownership.go:10-17 | After a generation is issued no smaller one is accepted or freed. |
| `Ownership.FreedStaysFreed` | session/ownership.go:10-17 | After a free or a loss nothing is accepted or freed until a new generation is issued. |
| `RedisStore.UserHash.Advance` | session/redis/script.go:27-32 | Increments the generation and makes it current; the reply carries the new generation. |
| `RedisStore.UserHash.Acquire` | session/redis/script.go:34-38 | The acquire script on the hash fields, including its refusal of malformed metadata. |
| `RedisStore.UserHash.InitializeRange` | session/redis/script.go:39-50 | The initialise script: consumes a range another client won, else checks and installs the new one. |
| `RedisStore.UserHash.Release` | session/redis/script.go:51-58 | Removes the current field exactly when it equals the argument. |
| `RedisStore.SoundIsReadable` | session/redis/script.go:14-26 | A hash in an order the scripts leave it in is read without error, with its generation within its range and MaxInt64. |
| `RedisStore.ReadableIff` | session/redis/script.go:14-38 | The scripts read a hash exactly when it is empty or holds a valid generation, an absent or positive owner not above it and an absent or not smaller limit; any other hash is a script error that changes nothing. |
| `RedisStore.AcquireMeaning` | session/redis/script.go:34-38 | On a sound hash an acquire issues the next generation exactly when the range has one left, else reports the floor and changes nothing. |
| `RedisStore.InitializeMeaning` | session/redis/script.go:39-50 | On a sound hash an initialise consumes the range in force, or installs a range above the generation, or refuses and changes nothing. |
| `RedisStore.ReleaseMeaning` | session/redis/script.go:51-58 | A release succeeds exactly for the owner, then the owner is gone; generation and range never change. |
| `RedisStore.CurrentMeaning` | session/redis/store.go:138-162 | `Current` returns the owner's token, or none when there is no owner. |
| `RedisStore.CurrentIff` | session/redis/store.go:138-162 | For every hash, sound or not, `Current` answers a token exactly when the owner field is a valid positive decimal, and then that number; no owner exactly when the field is absent. |
| `RedisStore.AcquireAlone` | session/redis/store.go:57-113 | `Store.Acquire` on one hash: exactly when it succeeds, which generation it returns, and the exhausted, range-required and cancelled errors; a success is above the old generation and is the owner; a failure has changed the hash exactly when the first range callback was usable, and then that range and its owner are in it. |
| `RedisStore.CallBack` | session/redis/store.go:84-108 | The range callback, however often the allocator calls it: a usable first call installs its range, everything else leaves the hash alone, and only one usable call without an error is accepted. |
| `MemoryStore.MemoryOwnershipStore.Acquire` | session/ownership_memory.go:27-47 | Issues exactly the next generation and extends the user's history by that issue, so every law of `Ownership` holds of it; fails, with its error, exactly on a cancelled context, a bad user id or an exhausted counter. |
| `MemoryStore.MemoryOwnershipStore.Current` | session/ownership_memory.go:49-62 | Answers the owner of the history. |
| `MemoryStore.MemoryOwnershipStore.Release` | session/ownership_memory.go:64-82 | Frees exactly the owner; a stale token changes nothing. |
| `Fencing.StepKeeps` | session/redis/store.go:57-113 | Acquire, reserve, initialise, give up, release and loss of the hash keep hash, reserved ranges and history in agreement. |
| `Fencing.StepMeaning` | session/redis/store.go:57-113 | What each store step records: an acquire with range left and an initialise with a usable reservation issue exactly one generation, the next one; a release frees exactly the owner it names; a lost hash loses its owner; every other step records nothing. |
| `Fencing.ClientMeaning` | session/redis/store.go:57-113 | What each step leaves a client with: an acquire without range gives it the floor, a reservation is the one it asked for above that floor, an initialise ends the lock, giving up leaves nothing behind. |
| `Fencing.WhatCanHappen` | session/redis/store.go:57-113 | A release, a lost hash and a client giving up are possible in every state, and after giving up the client can acquire again; a client with an acquire under way starts no second one. |
| `Fencing.RepliesAreNeverRefused` | session/redis/store.go:57-113 | In every reachable state the scripts reply and the decoder accepts, and an initialise issues above the floor the client was told. |
| `Fencing.CheckMeaning` | cluster/node/router.go:247-266 | The comparison with the store passes exactly for the owner. |
| `Fencing.GateCheckMeaning` | cluster/gate/provider.go:90-155 | On every reachable cluster a gate check, and the check of a push with a token, passes exactly for a known kind, a positive user and generation, a user target equal to the token's user, and a token that owns the user; otherwise the session is stale. A push without a token passes. |
| `Fencing.NodeCheckMeaning` | cluster/node/router.go:247-266 | A node's session check passes exactly for a stateless route, a request without a gate, or a positive user whose own token owns it; otherwise the session is stale. |
| `Fencing.CheckWithoutAnswer` | cluster/gate/provider.go:90-155 | Without a store, or when the store fails, a check still refuses exactly what is malformed, and passes the store's error on exactly when it came to ask. |
| `Fencing.ActKeeps` | cluster/gate/provider.go:90-155 | Store steps of any user and checks at any gate or node keep every user's history lawful. |
| `Fencing.ActMeaning` | cluster/gate/provider.go:90-155 | What each action of a cluster records for each user: a check that passes one acceptance by the site that made it, a check that fails nothing, a store step its own events and only for its user. |
| `Fencing.RunKeeps` | session/redis/store.go:57-182 | The invariant of the cluster holds after every legal run. |
| `Fencing.IssuedWithinMax` | session/redis/store.go:57-113 | In every run every generation issued, the last one included, is positive and within MaxInt64. |
| `Fencing.FencingHolds` | cluster/node/router.go:247-266 | Over every run with any number of gates and nodes: generations strictly increase and stay within MaxInt64, and after one is issued no check accepts and no release frees a smaller one. |
| `Fencing.ChecksDecide` | cluster/node/router.go:247-266 | After every run gate, push and node checks pass exactly for the token that owns its user, which is the newest generation issued. |
| `Fencing.CurrentIsNewestIssued` | session/redis/script.go:27-58 | In every run `Current` is absent or the newest generation issued, which is within MaxInt64, and a release naming another generation changes nothing. |
| `Fencing.NothingPassesAfterRelease` | cluster/gate/provider.go:90-155 | In every run, from a release or the loss of the hash until the next issue, nothing is accepted or freed and no check of any token of the user passes. |
| `SessionIndex.OpKeepsConsistent` | session/session.go:59-203 | Each operation but a bind of user 0 on a bound connection keeps: a user's connection is registered, carries the user id and holds a token of that user. |
| `SessionIndex.RunKeeps` | session/session.go:59-232 | Consistency after every run with unique connection ids, never-bound external tokens and no bind of user 0 on a bound connection. |
| `SessionIndex.OpKeepsCounted` | session/session.go:59-203 | Any operation whatever keeps every bound token within its user's counter. |
| `SessionIndex.OnlyFreshBecomesCurrent` | session/session.go:127-186 | No operation, binds of user 0 included, makes a token current that was bound before and is not current. |
| `SessionIndex.NeverCurrentAgain` | session/session.go:127-232 | In every run, binds of user 0 included, a token that stops being current is never current again. |
| `SessionIndex.BindConsistentIff` | session/session.go:127-143 | A local bind keeps a consistent index consistent, so without an entry for user 0, exactly when the user id is not 0 or the connection is unknown or unbound. |
| `SessionIndex.BindThenDisconnect` | session/session.go:84-143 | For every consistent index: any bind leaves every user's connection registered, carrying the user and holding its token; the disconnect that follows does so exactly after a harmless bind, and after any other leaves user 0 naming an unregistered connection. |
| `SessionIndex.BindEffect` | session/session.go:127-186 | `Bind` fails exactly for an unknown connection and changes nothing when the connection carries the user. Otherwise the connection carries the user, the connection that had it carries nobody, the user the connection left is gone, every other connection and user is as before, the next generation is the user's one current token, and other users' current tokens stay unless they sat on that connection. |
| `SessionIndex.BindTokenEffect` | session/session.go:145-186 | The two errors of `BindToken`, exactly; otherwise the same move with the token given, and the user's counter raised to it. |
| `SessionIndex.BindTakesOver` | session/session.go:165-186 | For a user bound elsewhere both binds leave the old connection carrying nobody, the new one carrying the user, and the user naming the new one. |
| `SessionIndex.UnbindEffect` | session/session.go:188-203 | `Unbind` fails exactly for a user without a connection. Otherwise the user is gone, its connection stays registered and carries nobody, no token of the user is current, and every other connection, user and token is as before. |
| `SessionIndex.AddEffect` | session/session.go:59-73 | A registered connection carries its UID; one that carries a user takes the user over with its next token, and nothing else changes. |
| `SessionIndex.DisconnectEffect` | session/session.go:84-107 | A disconnect takes the connection, its token and the user it was the connection of, and nothing else. |
| `SessionIndex.SendReachesOnlyCurrent` | session/session.go:302-376 | `SendCurrent` and `CloseCurrent` reach a connection exactly when the token is current, the connection is its user's and the target names it. |
| `SessionIndex.SendErrors` | session/session.go:302-376 | The errors of a fenced send and close, exactly: not found for a well-formed token and an unknown target, stale in every other case that reaches nothing; the guard of `CloseCurrent` answers stale for a user other than the token's. |
| `GateSession.Session.NextGeneration` | session/session.go:638-646 | The next local generation of a user, recorded in the counter map. |
| `GateSession.Session.AddConn` | session/session.go:59-73 | The maps and connection objects become what `SessionIndex.AddConn` says. |
| `GateSession.Session.RemConnWithToken` | session/session.go:84-107 | Returns the user id and token the connection had; the maps forget it. |
| `GateSession.Session.TakeUser` | session/session.go:165-186 | The connection objects and maps change in place as the index function says: the user's previous connection is unbound and the new one takes the user and token; `SessionIndex.BindTakesOver` states what that means. |
| `GateSession.Session.Rebind` | session/session.go:165-186 | `bindToken`: the connection leaves its old user, then takes the new one. |
| `GateSession.Session.Bind` | session/session.go:127-143 | Local bind, with its unchanged cases and its error. |
| `GateSession.Session.BindToken` | session/session.go:145-163 | Bind of an external token, with every refusal, and the raised local counter. |
| `GateSession.Session.Unbind` | session/session.go:188-203 | Unbinds the user in place and returns its connection id, or the error. |
| `GateSession.Session.IsCurrent` | session/session.go:218-232 | Answers exactly whether the token is current in the index. |
| `GateSession.Session.Resolve` | session/session.go:347-376 | The connection a fenced send or close goes to, as objects, agrees with the index. |
| `BindRace.BindTokenTakes` | session/session.go:145-163 | An external bind succeeds exactly on a registered connection, which then carries user and token. |
| `BindRace.BindStepKeeps` | cluster/gate/ownership.go:10-56 | Each step of `bindSession` keeps track of every token not yet released. |
| `BindRace.DisconnectStepKeeps` | cluster/gate/gate.go:158-174 | Each step of `handleDisconnect` does so too. |
| `BindRace.NothingLeaks` | cluster/gate/ownership.go:10-63 | In every interleaving of a bind with the disconnect of its connection, also while the user it carried is unbound or bound elsewhere, when both are done neither the acquired nor the previous token is current in the store. |
| `BindRace.ReturnedTokenIsHeld` | cluster/gate/ownership.go:10-56 | While the connection is up, the token a bind returns is the one the index holds for it, and the connection carries the user unless it was unbound meanwhile, when the token is no longer current. |
| `BindRace.BindAlone` | cluster/gate/ownership.go:10-56 | A bind that nothing interrupts: an unknown connection fails; a token that index and store both hold for current is returned unchanged; else the next generation is bound and returned as the owner, and of the other users exactly the one the connection carried loses its owner, if that was the connection's token. |
| `BindRace.BindTooLate` | cluster/gate/ownership.go:40-56 | A bind whose connection is gone when it comes to bind fails and frees the token it acquired, and no other. |
| `BindRace.DisconnectAlone` | cluster/gate/gate.go:158-174 | A disconnect that nothing interrupts removes the connection and ends exactly the ownership of the token it carried. |
| `BindRace.OthersMayAct` | cluster/gate/ownership.go:10-56 | Between the steps others may do every lawful store event but an issue for this user, and every change of the index that leaves the connection's registration, user and token alone. |
| `ActorIdle.StepKeeps` | cluster/node/actor.go:71-158 | Spawning, Active, Idle, timers, guard, rearm, commit, cancel and removal keep the invariant: an idle actor is covered by a timer or a callback, the armed timer is the current one, nothing is armed after a cancel. |
| `ActorIdle.ReleaseIsNeverStale` | cluster/node/actor.go:123-148 | In every run an idle release destroys the actor only if the last Active or Idle to take effect is the Idle it was armed for. |
| `ActorIdle.ReleaseWasAllowed` | cluster/node/actor.go:123-148 | In every run an idle release destroys the actor only after the release guard was asked for that generation and allowed it. |
| `ActorIdle.CommitWasAllowed` | cluster/node/actor.go:123-148 | In every run a callback is at its commit only by an allowing answer of the guard, asked for the same generation by the same callback. |
| `ActorIdle.DeniedRearms` | cluster/node/actor.go:123-148 | After a denying answer a new timer of the same generation is armed and nothing else changes; a generation that is no longer current ends without one. |
| `ActorIdle.AllowedDestroys` | cluster/node/actor.go:123-148 | After an allowing answer the registered actor of that generation is destroyed, removed and left without a timer; in every other case the callback ends and changes nothing. |
| `ActorIdle.FiredReachesGuard` | cluster/node/actor.go:117-148 | A timer that fires on a started actor comes to the guard with its generation. |
| `ActorIdle.ActiveTakesEffect` | cluster/node/actor.go:71-93 | `Active` on a started actor starts a generation without a timer, on a destroyed one it does nothing. |
| `ActorIdle.IdleTakesEffect` | cluster/node/actor.go:95-121 | `Idle` on a started actor starts a generation and arms its one timer for it, on a destroyed one it does nothing. |
| `ActorIdle.RemoveDestroys` | cluster/node/actor.go:150-158 | A kill that nothing interrupts leaves the actor destroyed, removed and without a timer. |
| `ActorIdle.RemovedStaysOut` | cluster/node/scheduler.go:50-62 | In every run an actor that was refused for its PID, or removed, never comes into the scheduler again, and no idle release destroys it from then on. |
| `ActorIdle.TimersAreCurrent` | cluster/node/actor.go:95-121 | In every run at most one timer is armed, for the current generation, and none once a destroyed actor was cancelled. |
| `ActorIdle.IdleAwaitsIff` | cluster/node/actor.go:95-148 | After an Idle, until it is superseded or the actor leaves the scheduler, a timer or a callback of the current generation exists, however often the guard denies, exactly unless a release of that generation was refused while the creator ran. |
| `ActorIdle.IdleIsNeverStranded` | cluster/node/scheduler.go:48-75 | An Idle made in Init or later always has its timer or callback. |
| `ActorIdle.RefusedWhileCreating` | cluster/node/scheduler.go:116-141 | The commit of the current generation leaves the actor idle with nothing to release it if the creator still runs, and destroys it otherwise. |
| `ActorIdle.IdleInCreatorCanStrand` | cluster/node/scheduler.go:116-141 | A run in which an Idle in the creator is lost and the actor is registered and idle for good. |
| `ActorScheduler.StepKeeps` | cluster/node/scheduler.go:33-247 | Every step of spawn, kill, idle commit, teardown, bind, unbind and of the node's state keeps the invariant of registry, relations and wait count. |
| `ActorScheduler.RunKeeps` | cluster/node/scheduler.go:33-247 | The invariant holds in every state of every run from the making of the node. |
| `ActorScheduler.LifecycleHolds` | cluster/node/scheduler.go:33-184 | In every run a registered actor is started exactly unless an idle release of it is past its commit and holds the lock, so always when the lock is free; teardown runs at most once. |
| `ActorScheduler.OperationsChoose` | cluster/node/scheduler.go:85-141 | What an operation works on: a kill by PID on the instance registered under it, a kill of an instance on that instance exactly while the registry names it, a bind on the instance registered under the PID; otherwise nothing changes. |
| `ActorScheduler.LeavesOnlyWhenNamed` | cluster/node/scheduler.go:85-184 | In every run an instance leaves the registry only by an earlier operation that named it: a kill of its PID while it was registered, a kill of the instance, or its idle release. A replacement is never removed by an operation on its predecessor. |
| `ActorScheduler.ReleaseCommitsIff` | cluster/node/scheduler.go:116-141 | An idle release commits exactly on the registered instance whose generation is still current; otherwise it leaves no trace. |
| `ActorScheduler.SpawnAlone` | cluster/node/scheduler.go:33-82 | A spawn of a free PID that nothing interrupts ends with the new instance registered, started and counted, and changes nothing else. |
| `ActorScheduler.SpawnRefused` | cluster/node/scheduler.go:33-82 | A spawn of a PID that is taken leaves registry, relations, lock and wait count as they were. |
| `ActorScheduler.KillAlone` | cluster/node/scheduler.go:85-98 | A kill of a registered PID that nothing interrupts frees the PID and ends with the teardown of exactly the instance registered under it. |
| `ActorScheduler.TornDownMeaning` | cluster/node/actor.go:374-406 | What that teardown leaves: `Destroy` ran once, no relation points at the instance, every other relation is as before, and the wait count fell by one exactly for a waiting actor of a node that is not Shut. |
| `ActorScheduler.MarkedRelationsGo` | cluster/node/actor.go:374-384 | A teardown deletes exactly the relations of the marked users under the instance's kind that name it, those written after its removal included. |
| `ActorScheduler.BindAlone` | cluster/node/scheduler.go:201-226 | A bind that nothing interrupts relates the user to the instance registered under the PID, marks the user on it, and changes nothing else. |
| `ActorScheduler.UnbindAlone` | cluster/node/scheduler.go:228-247 | An unbind removes the relation and the mark exactly when the instance the relation names has the user marked. |
| `ActorScheduler.WaitCountHolds` | cluster/node/node.go:586-598 | In every state of every run the wait count is the waiting actors not fully killed, less those whose addWait found the node Shut, plus those whose doneWait did; it is exact iff these are equally many. |
| `ActorScheduler.DriftsIff` | cluster/node/node.go:586-598 | The wait count goes wrong, by one and in which direction, in exactly the steps that skip an addWait or doneWait of a waiting actor. |
| `ActorScheduler.WaitIsExact` | cluster/node/node.go:586-598 | In every run without such a step the wait count is the number of waiting actors not fully killed, across restarts. |
| `ActorScheduler.EarlySpawnBreaksWait` | cluster/node/node.go:71-137 | A run in which an actor spawned before Start and killed after takes the count to -1. |
| `ActorScheduler.CommittedIsStillRegistered` | cluster/node/scheduler.go:116-141 | A run in which a registered actor is already destroyed. |
| `ActorScheduler.RemoverDestroys` | cluster/node/actor.go:362-372 | The thread that removed an actor by kill finds it started, so it is the one that destroys it. |
| `ActorScheduler.TeardownTouchesOnlyItself` | cluster/node/scheduler.go:144-184 | No step of removing or tearing down an instance touches another instance's registration or relations, a replacement with the same PID included. |
| `ActorMailbox.StepKeeps` | cluster/node/actor.go:176-207 | Senders under the read lock and the teardown under the write lock keep the event history lawful. |
| `ActorMailbox.ChannelsAreSafe` | cluster/node/actor.go:374-406 | In every interleaving nothing is sent on a closed channel, no channel is closed twice, and the witness turns true only after Destroy, both closes and the hook. |
| `ActorMailbox.HookComesLast` | cluster/node/actor.go:374-406 | Whenever the release hook has run, Destroy and both closes have. |
| `ActorMailbox.CompleteMeansGone` | cluster/node/actor.go:374-406 | Once the witness is true the actor is destroyed and no sender is at its send. |
| `ActorMailbox.SendAlone` | cluster/node/actor.go:176-207 | A send that nobody's close stands in the way of sends on a started actor, once, and does nothing on a destroyed one; a try that finds the channel full leaves no trace. |
| `ActorMailbox.DestroyLocks` | cluster/node/actor.go:362-389 | The winner of the destroy runs `Destroy` and then comes to close the channels exactly when nobody holds the lock. |
| `ActorMailbox.DestroyCompletes` | cluster/node/actor.go:374-406 | From there it closes the mailbox and the function channel, runs the hook and turns the witness true, in this order and each once. |
| `ActorMailbox.DestroyTwice` | cluster/node/actor.go:362-372 | A second destroy does nothing. |
| `SourceHints.DropMeaning` | internal/link/source_hints.go:71-80 | Invalidating removes one key and keeps every other. |
| `SourceHints.TouchMeaning` | internal/link/source_hints.go:33-41 | A load changes the order only. |
| `SourceHints.PutMeaning` | internal/link/source_hints.go:42-57 | Storing gives the key its node, stays within capacity, and drops only the last key of a full cache that lacked the key. |
| `SourceHints.RecencyKept` | internal/link/source_hints.go:33-80 | The sequence stays ordered by time of last use. |
| `SourceHints.RunKeeps` | internal/link/source_hints.go:33-80 | After any loads, stores and invalidations: recency order, distinct keys, size within capacity. |
| `SourceHints.EvictsLeastRecent` | internal/link/source_hints.go:42-57 | In every run an evicted key was used longer ago than every key that stays. |
| `SourceHints.SourceHintCache.MoveToFront` | internal/link/source_hints.go:36-39 | The list operation on elements is `Touch` on values, and keeps map and list one to one. |
| `SourceHints.SourceHintCache.Load` | internal/link/source_hints.go:33-41 | Map and list refine the plain sequence: the answer is its lookup and the result its touch; the revision is returned. |
| `SourceHints.SourceHintCache.PutLocked` | internal/link/source_hints.go:42-57 | Update, eviction and insertion on map and list are `Put` on the sequence. |
| `SourceHints.SourceHintCache.Store` | internal/link/source_hints.go:58-63 | Raises the revision and puts. |
| `SourceHints.SourceHintCache.Fill` | internal/link/source_hints.go:64-70 | Puts only under the revision of the load, else changes nothing. |
| `SourceHints.SourceHintCache.Invalidate` | internal/link/source_hints.go:71-80 | Raises the revision and removes the key from map and list. |
| `SourceHints.SourceHintCache.Count` | internal/link/source_hints.go:81-81 | The number of hints, within capacity. |
| `HintFreshness.StepKeeps` | internal/link/node.go:114-132 | Loads, locator reads, fills, locator changes, events and invalidations keep the freshness invariant. |
| `HintFreshness.RunKeeps` | internal/link/source_hints.go:33-80 | It holds after every run. |
| `HintFreshness.HintsAreFresh` | internal/link/node.go:682-689 | In every run a cached hint was read after the last invalidation of its key, and equals the locator's value once every change of the key has had its event applied. |
| `HintFreshness.LookupAlone` | internal/link/node.go:114-132 | A lookup that misses and that nothing disturbs caches what the locator holds for the key, or nothing when it holds nothing. |
| `HintFreshness.BeginMeaning` | internal/link/source_hints.go:33-41 | A hit starts no locator read, moves its hint to the front and loses none; a miss waits under the revision it saw. |
| `HintFreshness.FinishMeaning` | internal/link/source_hints.go:64-70 | A result is cached exactly when there is one and the revision is the one the lookup saw. |
| `HintFreshness.InvalidateMeaning` | internal/link/source_hints.go:71-80 | An invalidation drops the hint of its key and of no other and moves the revision by one. |
| `HintFreshness.ChangeMeaning` | internal/link/node.go:682-689 | A change is what the locator answers for the key from then on, and owes one event. |
| `OwnedSources.DeletedEntry` | internal/link/node.go:587-619 | Deleting removes exactly the entry with a matching node id. |
| `OwnedSources.StoreBalances` | internal/link/node.go:536-576 | The handler a store calls is exactly the change in the number of entries pointing at this node. |
| `OwnedSources.DeleteBalances` | internal/link/node.go:587-619 | So is the handler of a delete. |
| `OwnedSources.OwnedAfterBindIff` | internal/link/node.go:204-219 | After an accepted bind this node's ownership of the pair agrees with the binding exactly unless hints are on and an owned pair was bound to another node. |
| `OwnedSources.BooksBalance` | internal/link/node.go:536-619 | However operations and their handlers, which run outside the lock, interleave: counter plus calls still owed is the number of owned entries, and no user keeps an empty map. |
| `OwnedSources.BooksFollow` | internal/link/node.go:536-619 | After each step every entry is the one stored last, a delete removes exactly the entry with its node, and only a handler call moves the counter, by one. |
| `OwnedSources.NodeLinker.StoreLegacySource` | internal/link/node.go:536-576 | Stores the entry; the counter equals the owned entries before and after. |
| `OwnedSources.NodeLinker.DeleteLegacySource` | internal/link/node.go:587-619 | Deletes the matching entry; the counter equals the owned entries. |
| `OwnedSources.NodeLinker.DoStoreSource` | internal/link/node.go:528-534 | With hints on only the hint cache changes, evictions included; else the source map does. |
| `OwnedSources.NodeLinker.DoDeleteSource` | internal/link/node.go:579-585 | With hints on only a hint is invalidated; else the source map changes. |
| `OwnedSources.NodeLinker.LocateNode` | internal/link/node.go:114-151 | Answers from cache or locator with every error; with hints on the owned entries and the revision never change and the cache is touched or filled. |
| `OwnedSources.NodeLinker.Bind` | internal/link/node.go:204-219 | A refused binding changes nothing. An accepted one is recorded in the owned entries, with hints on only if it is this node's; with hints on it is also put into the cache, evictions included, and moves the revision by one. |
| `OwnedSources.NodeLinker.Unbind` | internal/link/node.go:224-239 | A refused unbinding changes nothing; an accepted one removes the matching entry, and with hints on the hint, moving the revision by one. |
| `OwnedSources.NodeLinker.ApplySourceEvent` | internal/link/node.go:682-695 | With hints on a bind or unbind event drops the hint and moves the revision by one, any other changes nothing, and owned entries and counter never change; without hints it binds or unbinds. |
| `WriteBudget.ReserveBalances` | network/ws/def.go:42-65 | Reserving keeps the counters equal to the sums over outstanding tasks and within the limits. |
| `WriteBudget.ReleaseBalances` | network/ws/def.go:67-86 | Releasing an outstanding charge takes off exactly that charge, so the clamps at zero never hide a difference. |
| `WriteBudget.BooksBalance` | network/ws/def.go:26-86 | After any writes and recycles in any order both counters are the sums over the outstanding tasks and within the limits, which are those asked for, clamped; with nothing outstanding they are zero. |
| `WriteBudget.AdmissionMeaning` | network/ws/def.go:42-65 | With a positive limit, after any run: a write is admitted exactly when it is empty or fits the limit and, if low-priority, the limit less the reserve that was asked for, clamped to 0 and the limit. A high-priority write that fits the unused part of that reserve is always admitted. |
| `WriteBudget.NoLimitAdmitsAll` | network/ws/def.go:42-65 | A budget made without a positive limit admits every write, after any run, and counts nothing. |
| `WriteBudget.WriteQueueBudget.constructor` | network/ws/def.go:26-40 | The limit is the one asked for, a negative one counting as none; with a limit the reserve is the one asked for, clamped to 0 and the limit; nothing is queued. |
| `WriteBudget.WriteQueueBudget.Reserve` | network/ws/def.go:42-65 | Admits and charges, or refuses and changes nothing. |
| `WriteBudget.WriteQueueBudget.Release` | network/ws/def.go:67-86 | Takes the charge off both counters, clamped at zero. |
| `WriteBudget.ServerConn.DoRecycleToPool` | network/ws/server_conn.go:633-645 | Gives back what was charged and clears the pooled object. |
| `WriteBudget.ServerConn.DoWriteToQueue` | network/ws/server_conn.go:647-682 | A queued task adds exactly its charge; a refused or timed-out write leaves budget and queues as they were. |
| `WriteBudget.ServerConn.DiscardQueue` | network/ws/server_conn.go:615-630 | Emptying a queue gives back the charge of each task in it and of no other. |
| `WriteBudget.ServerConn.DiscardQueuedTasks` | network/ws/server_conn.go:610-613 | Both queues end empty and only other connections' charges remain. |
| `ConnSlots.StepIsPolite` | network/ws/server_conn.go:289-357 | What a thread's step may change on a connection that other threads use. |
| `ConnSlots.StepKeeps` | network/ws/server_conn_mgr.go:49-178 | Every step of reserve, allocate, close, recycle and shutdown keeps the slot invariant. |
| `ConnSlots.RunKeeps` | network/ws/server_conn_mgr.go:49-178 | It holds after every run. |
| `ConnSlots.SlotsHold` | network/ws/server_conn_mgr.go:68-130 | In every interleaving the total is the registered plus the unresolved connections and within the limit, no slot is returned twice, no close body runs twice, and what is registered in a snapshotted partition is in the snapshot. |
| `ConnSlots.NothingEscapes` | network/ws/server_conn_mgr.go:49-65 | When a shutdown is over and all threads are done, the total is zero, nothing is registered, and every connection was closed once and gave its slot back once. |
| `ConnSlots.ReserveAlone` | network/ws/server_conn_mgr.go:101-115 | An attempt gives up exactly when the server is closing or full, and otherwise comes to its compare-and-swap with the total it loaded. |
| `ConnSlots.AcceptAlone` | network/ws/server_conn_mgr.go:68-99 | On an open server below the limit an accept that nothing interrupts ends with the connection open, registered and counted, and nothing else changed. |
| `ConnSlots.LostSwapStartsOver` | network/ws/server_conn_mgr.go:101-115 | A compare-and-swap that lost makes the attempt start over from the closing test, with no slot taken. |
| `ConnSlots.ClosedTooEarly` | network/ws/server_conn_mgr.go:84-89 | A connection closed before it could be stored gives its slot back, once, and is not stored. |
| `ConnSlots.RefusedAlone` | network/ws/server_conn_mgr.go:84-96 | A connection that a shutdown overtakes before it is stored gives its slot back and is closed. |
| `ConnSlots.ForceCloseAlone` | network/ws/server_conn.go:314-357 | A forced close of an open connection that nothing interrupts closes it, runs its close body once, takes it out of the table and gives its slot back. |
| `ConnSlots.GraceCloseAlone` | network/ws/server_conn.go:289-357 | A graceful close ends the same way, after it has hanged the connection and drained its queue. |
| `ConnSlots.GraceCloseTwice` | network/ws/server_conn.go:289-312 | A graceful close of a connection that is closing already ends at once and changes nothing of it. |
| `ConnSlots.ShutdownLists` | network/ws/server_conn_mgr.go:49-65 | A shutdown can begin at any time; the snapshot of a partition then lists exactly what is registered in it. |
| `ConnSlots.NothingListedBefore` | network/ws/server_conn_mgr.go:31-65 | There are ten partitions, and none is listed before a shutdown began. |
| `RoundRobin.ChargeKeepsSum` | internal/dispatcher/route.go:112-153 | A pick leaves the sum of the current weights unchanged. |
| `RoundRobin.PickStaysAbove` | internal/dispatcher/route.go:112-153 | A pick keeps every current weight above minus the total. |
| `RoundRobin.Balanced` | internal/dispatcher/route.go:112-153 | After any number of picks the current weights sum to 0 and stay above minus the total. |
| `RoundRobin.Ledger` | internal/dispatcher/route.go:112-153 | A current weight is picks made times the weight minus the total times the endpoint's picks. |
| `RoundRobin.PicksAddUp` | internal/dispatcher/route.go:112-153 | The endpoints' picks add up to the picks made. |
| `RoundRobin.FirstMaxMeaning` | internal/dispatcher/route.go:118-127 | The pick is the first of the largest raised weights. |
| `RoundRobin.NeverAFullPickAhead` | internal/dispatcher/route.go:112-153 | No endpoint is ever a full pick ahead of its share. |
| `RoundRobin.NeverFarBehind` | internal/dispatcher/route.go:112-153 | No endpoint is ever behind its share by more than all the others can be ahead together. |
| `RoundRobin.BlocksAreExact` | internal/dispatcher/route.go:112-153 | After each block of total-weight picks every endpoint has had exactly its weight in picks per block and all current weights are 0. |
| `RoundRobin.Raise` | internal/dispatcher/route.go:118-127 | The loop raises every weight, sums the total and finds the first largest. |
| `RoundRobin.Pick` | internal/dispatcher/route.go:118-131 | One pick on the endpoint objects is one pick on the weights. |
| `RoundRobin.Route.WeightRoundRobinDispatch` | internal/dispatcher/route.go:112-153 | The pick is the next one of smooth weighted round robin among the working endpoints, or among the busy ones exactly when none works; nothing exactly when there are neither. |
| `RoundRobin.Route.AddServiceEndpoint` | internal/dispatcher/abstract.go:35-48 | At any time the endpoint joins the list of its state and the index; a list that made no pick still tracks zero picks. |
| `ByteOrders.PutGet` | core/buffer/writer.go:105-138 | Reading back the bytes of a value gives the value, or its two's complement, in both orders. |
| `ByteOrders.PutGetSigned` | packet/packer.go:309-355 | A signed value that fits comes back through its sign. |
| `ByteOrders.GetPut` | packet/packer.go:289-303 | Writing back the value read gives the bytes. |
| `ByteOrders.GetPutSigned` | packet/packer.go:309-355 | So it does through the signed reading, which always fits. |
| `ByteOrders.ByteAt` | core/buffer/writer.go:105-138 | Which byte of the value stands where, in each order. |
| `Buffers.Writer.GrowSlice` | core/buffer/writer.go:202-212 | The new length is the larger of length plus need and twice the capacity; contents stay. |
| `Buffers.Writer.Grow` | core/buffer/writer.go:194-200 | There is room afterwards and nothing written is lost. |
| `Buffers.Writer.WriteInts` | core/buffer/writer.go:86-138 | Appends each value's bytes in the order and width given, through any growth. |
| `Buffers.NocopyBuffer.AddToTail` | core/buffer/nocopy_buffer.go:254-299 | Keeps the doubly linked list, the node count and the block sequence in agreement and drops the cached length. |
| `Buffers.NocopyBuffer.Mount` | core/buffer/nocopy_buffer.go:57-84 | The block becomes the last one. |
| `Buffers.NocopyBuffer.Len` | core/buffer/nocopy_buffer.go:31-54 | The length of all blocks, cached or summed. |
| `Buffers.NocopyBuffer.Bytes` | core/buffer/nocopy_buffer.go:133-168 | The concatenation of the blocks, in order. |
| `Packet.FrameSize` | packet/packer.go:212-275 | A frame's size field matches exactly when the body is below four gigabytes. |
| `Packet.AcceptedAreFrames` | packet/packer.go:277-426 | `UnpackMessage` and `CheckHeartbeat` take exactly the frames below four gigabytes that have their fields, and a frame is a heartbeat exactly by its top header bit; everything else is an invalid message. |
| `Packet.RefusalMeaning` | packet/packer.go:212-225 | For every legal width, in numbers, which messages are refused and for which of the three reasons. |
| `Packet.Layout` | packet/packer.go:228-272 | Size, header, route, sequence number and message stand in this order, at these offsets. |
| `Packet.UnpackPacked` | packet/packer.go:277-360 | For both orders and all legal widths, unpacking a packed message gives it back (sequence number 0 when it has no bytes), exactly while the size fits; else it is invalid. |
| `Packet.PackUnpacked` | packet/packer.go:212-360 | Packing an unpacked message gives the bytes back but for the header byte, which becomes zero, unless the message is over the limit. |
| `Packet.HeartbeatUnpacksIff` | packet/packer.go:277-360 | A packet taken for a heartbeat unpacks as a message exactly when it has room for the fields. |
| `Packet.OwnHeartbeatUnpacksIff` | packet/packer.go:363-388 | A packer's own heartbeat unpacks exactly when it carries the time, whose bytes then are route, sequence number and message. |
| `Packet.Classified` | packet/packer.go:363-426 | Heartbeats of both kinds are recognised, data packets are not, and an oversized packet is invalid. |
| `PacketStream.FrameIsRead` | packet/packer.go:149-171 | A frame followed by anything is read back alone exactly when its body is not empty and four bytes below the size limit. |
| `PacketStream.StreamRoundTrip` | packet/packer.go:149-171 | Any concatenation of data packets and heartbeats is read back as those packets in order, then the end. |
| `PacketStream.BrokenStream` | packet/packer.go:149-171 | A stream that breaks off inside a packet yields all packets before it, in order, and then a cut, but a plain end exactly when it breaks off before the packet or right after the size. |
| `PacketStream.SizeOnly` | packet/packer.go:149-171 | A size of zero is skipped, a size within four of the limit panics, exactly; the stream goes on behind the size. |
| `PacketStream.StreamClassified` | packet/packer.go:277-415 | Each packet read is classified correctly and each data packet unpacks to its message. |
| `PacketStream.Reader.ReadFull` | packet/packer.go:149-171 | All bytes asked for, or the end, or a cut that uses up the rest. |
| `PacketStream.ReadMessage` | packet/packer.go:149-171 | The read on the cursor is `ReadOne` on the rest of the stream, with the skipped, cut, ended and panicking cases. |
| `PacketStream.Check` | packet/packer.go:212-225 | The three refusals, in their order. |
| `PacketStream.PackMessage` | packet/packer.go:212-275 | The bytes appended step by step are the frame of the message. |
| `PacketStream.UnpackMessage` | packet/packer.go:277-360 | The fields read one after another are those of `Unpacked`. |
| `PacketStream.PackBuffer` | packet/packer.go:108-147 | With an empty writer of any capacity, as a pool hands out, the blocks' bytes, through writer growth and list concatenation, are those of `PackMessage`; it fails in the same cases. |
| `Config.JoinSplit` | config/configurator.go:348-348 | Splitting a pattern loses nothing. |
| `Config.DottedKeyFound` | config/configurator.go:297-344 | A top-level key with dots that no shorter dotted leading part is a key of is found by its own name, and what is under it by the name, a dot and the path from there. |
| `Config.PlainPathFound` | config/configurator.go:297-344 | Without such a key the first segment names the top-level value and the others walk down from it. |
| `Config.ElementByDecimal` | config/configurator.go:310-330 | A list element is found by the decimal of its index, with leading zeros too; an index beyond the list is missing, a negative one panics. |
| `Config.WalkAfterSet` | config/configurator.go:346-447 | After a successful set, the path leads to the value, whatever was rebuilt or padded on the way. |
| `Config.RevisedStable` | config/configurator.go:549-562 | A successful set changes the rewriting of no pattern. |
| `Config.SetThenGet` | config/configurator.go:297-447 | After a successful set, Get of the same pattern finds the value; negative indexes need no exception, they never succeed under a list. |
| `Config.DivergingKept` | config/configurator.go:346-447 | A path that leaves the one being set inside containers that are kept reads as before. |
| `Config.OtherKeysKept` | config/configurator.go:346-447 | A pattern under another top-level key reads as before. |
| `Config.LastSegment` | config/configurator.go:362-442 | Setting the last segment: a map takes every key, a list the indexes it has, with the exact error of every other. |
| `Config.RebuiltListHoldsOne` | config/configurator.go:390-437 | In every container and for every path, once a container is replaced the set succeeds exactly when every index that follows is 0. |
| `Config.ListUnderMapGrows` | config/configurator.go:370-388 | Under a map a child list takes the indexes it has and every index a slice can have, and any other panics. It keeps its elements, has the value at the index and nulls in the gap; the rest of the map is as before. |
| `Config.ListUnderListGrows` | config/configurator.go:413-429 | Under a list a child list shorter than its own index is padded to that index and takes the indexes it has then; the exact error otherwise. Its elements are kept, the gap is null, and the parent's other elements are as before. |
| `Config.AtoiReadsDecimals` | config/configurator.go:262-262 | Digits read as their value, with any sign, up to the 64-bit limits and no further. |
| `Config.AtoiReadsNothingElse` | config/configurator.go:262-262 | A text without digits, or with any other character than a leading sign among them, is no index. |
| `Config.ReviseKeys` | config/configurator.go:549-562 | The in-place rewrite leaves the merged key and the segments after it. |
| `Config.SetAlong` | config/configurator.go:362-442 | The loop down the path computes the set, with its failures. |
| `Config.ReadersSee` | config/configurator.go:114-123 | For every run of stores and every reader, which loads the index and reads the slot at two moments: which stored tree it returns, and that this is older than the last one at the index load exactly if the load fell between the two writes of a store and the read before the second. |
| `Config.ReadIsAtomic` | config/configurator.go:114-123 | In every other case the tree returned was the last one stored at some moment of the read. |
| `Config.ReaderGoesBack` | config/configurator.go:114-123 | After any store but a first one has moved the index, the next reader returns an older tree than the one before it. |
| `Config.Configurator.Store` | config/configurator.go:114-123 | Afterwards readers see the stored tree. |
| `Config.Configurator.DoGet` | config/configurator.go:297-343 | The loop answers as `Get`, also on an empty tree. |
| `Config.Configurator.DoHas` | config/configurator.go:243-280 | A pattern is there exactly when Get finds it. |
| `Config.Configurator.SetValue` | config/configurator.go:346-447 | A successful set is stored and found by Get of the pattern; a failed one changes nothing. |
| `ConfigMemory.Undisturbed` | config/configurator.go:126-139 | A tree in memory is the same tree after any change outside the cells it lies in. |
| `ConfigMemory.ReadyMeaning` | config/configurator.go:368-398 | Keeping, lengthening or replacing a child container in memory does what `Config.Prepared` says, and changes no existing cell. |
| `ConfigMemory.LoopFrames` | config/configurator.go:362-442 | At every moment of the loop only cells of the tree it works on have changed. |
| `ConfigMemory.LoopFails` | config/configurator.go:362-442 | The in-place loop fails exactly when the set on values does, with the same error. |
| `ConfigMemory.LoopShows` | config/configurator.go:362-442 | A successful in-place loop leaves the tree that the set on values gives, of the value as it is then. |
| `ConfigMemory.ReadersUndisturbed` | config/configurator.go:346-447 | At every moment of a set on a deep copy, failed or not, the live tree is whole and unchanged, also when the value set is part of it. |
| `ConfigMemory.SetInPlace` | config/configurator.go:346-447 | Setting a pattern in place on the copy gives the tree and the failures of the set on values, through dotted-key rewriting. |
| `ConfigMemory.OwnerKeepsHold` | config/configurator.go:365-411 | The value is stored by reference: after any later change of it the stored tree is the one that setting the changed value gives, and Get finds it. |
| `ConfigMemory.Arena.SetLoop` | config/configurator.go:362-442 | The loop that changes maps and slices as it descends computes `Descend`, about which the rows above speak. |

## Left out

- Redis, etcd, consul, nacos, kafka, nats and memcache clients, sockets, TLS and HTTP: each Redis script is one atomic step and every foreign call a parameter.
- The range allocator: a reserved range lies above every range reserved before for the user, and a callback error is passed on; both are the contract its comment states.
- Singleflight sharing in the Redis locator: a locator read is one atomic step after the hint load.
- Wrap-around of the revision, generation and round-robin counters at 64 bits, except the MaxInt64 bound that the Redis store checks and the bound of the in-memory store.
- Channels and subscriptions of `Session`, broadcast and multicast: they add no member to the ownership properties.
- Concurrent binds of the same user or connection on one gate, and an unbind of the user being bound whose release precedes the new token, in `BindRace`; the fencing results cover them.
- Actors with a non-positive idle timeout, and wall-clock time: a timer may fire at any step.
- Requests, events and timers that also count in the node's wait group: `ActorScheduler` follows the actors' share of the count.
- `bindActor` against kill: look-up, user mark and relation are separate steps, and nothing is claimed about a relation written after its actor was torn down.
- The routes and kinds maps of the scheduler, request pooling, dispatch loops and progress under full queues.
- ActorMailbox.StepKeeps: messages themselves and what receivers do with them are not modelled, only sends, closes and their order.
- The default, random and plain round-robin dispatch, and removal of endpoints.
- Legacy hints on a Gate without a hint cache, and `LocalBoundUserIDs`.
- The strict-delivery retry: a nil result does not say that the frame was accepted.
- Pooling and reuse of connection objects: every accepted connection is a new one. Whether a full queue ever drains is not modelled.
- RoundRobin.Route.AddServiceEndpoint: the state is an enumeration; the source compares names and ignores unknown ones, which is `Other`.
- Mounting blocks at the head, nested buffers and slices shorter than their capacity given to a writer.
- `ReadBuffer` and the no-copy reader, which frame as `ReadMessage` does.
- Config.SetAlong: the tree is a value; the loop that changes nested maps and slices in place, and what is shared with the caller, is `ConfigMemory`. There the deep copy of the foreign copier is a premise.
- Config.Configurator.Store: the class stores in one step; what a reader sees between the index and the slot is `Config.ReadersSee`.
- Merging of watched configuration, value conversion, encoders and decoders.
- Crypto, logging, option parsing, flags and reflection.
