# Backoff supervisor control protocol

A model of the control protocol shared by Akka.NET's backoff supervisors
(`BackoffSupervisorBase`). A supervisor owns one child actor. It keeps a
restart counter and consumes a small set of control messages:

- `StartChild` ensures the child exists and, under an automatic reset
  policy, arms a timer that sends `ResetRestartCount(token)` back to the
  supervisor.
- `Reset` zeroes the counter under a manual policy; otherwise it is
  reported unhandled.
- `ResetRestartCount(token)` zeroes the counter only if the token still
  equals it.
- `GetRestartCount` and `GetCurrentChild` reply to the sender.

Every other message is routed:

- from the child to the parent, with the supervisor as its sender;
- from anyone else to the child, keeping the original sender;
- with no child, the reply-while-stopped value goes back to the sender;
  if none is configured, the message goes to dead letters.

Layout:

- `wrappers.dfy`: `Option`.
- `protocol.dfy`: actor references, messages, configuration, the delivery
  context, effects, and counting over effect sequences.
- `backoff.dfy`: the pure transition `Handle(config, state, message,
  context) -> (state', effects)`, with `EnsureChild` and `Route`.
- `properties.dfy`: branch-level rules about one delivery.
- `traces.dfy`: `Run` over a sequence of deliveries, and inductive
  properties that hold along every run.
- `supervisor.dfy`: the class `BackoffSupervisorBase`. Its fields `child`
  and `restartCount` are updated in place. `StartChild` and `PreStart` are
  proved to follow `EnsureChild`, and `HandleBackoff` to follow `Handle`.

The ambient `Self`, `Parent`, `Sender` and `DeadLetters` become an explicit
`Context` parameter. So does the reference that `Context.ActorOf` returns.
`Tell` from inside the actor carries the supervisor as its sender;
`Forward` keeps the original sender. Both become `Send(receiver, message,
sender)` effects.

Behaviours of the code worth noting:

- `StartChild` arms the reset timer under `AutoReset` even when the child
  already existed (lines 52-61). The timer is not limited to a start that
  actually created a child.
- `RestartCountN` is a plain `int`, not a non-negative count.
- The child is cleared through the protected property setter (line 31). No
  dedicated clear operation exists.

## Model

| member | source | states |
|---|---|---|
| Backoff.EnsureChild | src/core/Akka/Pattern/BackoffSupervisorBase.cs:42-48 | idempotent start: with a child nothing changes and nothing is emitted; without one exactly one spawn-and-watch, whose reference becomes the child; the counter is untouched |
| Backoff.Route | src/core/Akka/Pattern/BackoffSupervisorBase.cs:89-114 | routing never changes state and emits exactly one delivery: child's traffic to the parent as the supervisor, others' to the child with their sender, no child: fallback reply to the sender or dead letters with the original sender |
| Backoff.Handle | src/core/Akka/Pattern/BackoffSupervisorBase.cs:50-117 | one delivery never clears or replaces a child, changes the counter only to zero and only on Reset/ResetRestartCount, spawns at most once and only when there was no child, and routes exactly the non-control messages |
| BackoffProperties.StartChildIdempotent | src/core/Akka/Pattern/BackoffSupervisorBase.cs:42-54 | a StartChild with a child present spawns nothing; a second StartChild after any first one spawns nothing and changes no state |
| BackoffProperties.StartChildSchedulesReset | src/core/Akka/Pattern/BackoffSupervisorBase.cs:52-61 | under AutoReset exactly one timer is armed, to and from the supervisor, carrying the counter at handling time; under ManualReset none; the counter is unchanged |
| BackoffProperties.ResetDependsOnPolicy | src/core/Akka/Pattern/BackoffSupervisorBase.cs:62-72 | Reset zeroes the counter under ManualReset; under AutoReset it is reported unhandled and the state is unchanged |
| BackoffProperties.ResetTokenGuard | src/core/Akka/Pattern/BackoffSupervisorBase.cs:73-80 | ResetRestartCount zeroes the counter when its token equals it and otherwise leaves all state unchanged; it emits nothing |
| BackoffProperties.QueriesArePure | src/core/Akka/Pattern/BackoffSupervisorBase.cs:81-88 | GetRestartCount and GetCurrentChild reply to the sender with the count or the (possibly absent) child and change no state |
| BackoffProperties.RoutesWithChild | src/core/Akka/Pattern/BackoffSupervisorBase.cs:89-102 | with a child, a message from the child goes to the parent with the supervisor as sender, any other to the child with the original sender |
| BackoffProperties.RoutesWithoutChild | src/core/Akka/Pattern/BackoffSupervisorBase.cs:103-113 | with no child and a fallback reply configured, the reply goes to the sender (with the supervisor as sender) and the message itself is not routed to dead letters; without a fallback the message goes to dead letters with the original sender |
| BackoffProperties.ControlNeverRouted | src/core/Akka/Pattern/BackoffSupervisorBase.cs:50-117 | a control message is never passed on as a delivery, to the child or anyone else |
| BackoffProperties.ChildIdentityNeverLeaks | src/core/Akka/Pattern/BackoffSupervisorBase.cs:81-102 | while a child exists, no delivery the supervisor emits has the child as its apparent sender |
| BackoffProperties.StaleTimerIgnored | src/core/Akka/Pattern/BackoffSupervisorBase.cs:52-80 | under AutoReset, a reset armed at any count n carries token n; once the count has moved to any c other than n, that reset leaves the state with count c unchanged and emits nothing |
| BackoffTraces.RunSpawnsAtMostOnce | src/core/Akka/Pattern/BackoffSupervisorBase.cs:42-61 | over any sequence of deliveries handled by HandleBackoff, with no subclass write to Child or RestartCountN in between, the child is spawned at most once, exactly when the run starts without one and ends with one, and a present child is never replaced or cleared |
| BackoffTraces.RunCounterOnlyReset | src/core/Akka/Pattern/BackoffSupervisorBase.cs:62-80 | over any sequence of deliveries handled by HandleBackoff, with no subclass write to Child or RestartCountN in between, the counter ends at its start value or zero, and at its start value when no Reset or ResetRestartCount was delivered |
| BackoffTraces.RunSchedulesOnePerStart | src/core/Akka/Pattern/BackoffSupervisorBase.cs:52-61 | over any sequence of deliveries handled by HandleBackoff the number of armed timers equals the number of StartChild commands under AutoReset and is zero under ManualReset |
| BackoffTraces.LifetimeHasOneChild | src/core/Akka/Pattern/BackoffSupervisorBase.cs:36-48 | a supervisor that starts its child on start-up and then handles any sequence of deliveries by HandleBackoff, with no subclass write to Child or RestartCountN in between, has spawned exactly one child, the one from start-up, which is still its child |
| Supervisor.BackoffSupervisorBase.constructor | src/core/Akka/Pattern/BackoffSupervisorBase.cs:18-32 | keeps the configuration; starts with no child and a zero counter |
| Supervisor.BackoffSupervisorBase.SetChild | src/core/Akka/Pattern/BackoffSupervisorBase.cs:31 | the protected child setter changes the child only |
| Supervisor.BackoffSupervisorBase.SetRestartCount | src/core/Akka/Pattern/BackoffSupervisorBase.cs:32 | the protected counter setter changes the counter only |
| Supervisor.BackoffSupervisorBase.StartChild | src/core/Akka/Pattern/BackoffSupervisorBase.cs:42-48 | updates the fields and returns the effects exactly as EnsureChild prescribes |
| Supervisor.BackoffSupervisorBase.PreStart | src/core/Akka/Pattern/BackoffSupervisorBase.cs:36-40 | start-up starts the child as EnsureChild prescribes |
| Supervisor.BackoffSupervisorBase.HandleBackoff | src/core/Akka/Pattern/BackoffSupervisorBase.cs:50-117 | always returns true; the new fields and the emitted effects are exactly those of Handle on the old fields |
| Supervisor.StaleTimerRace | src/core/Akka/Pattern/BackoffSupervisorBase.cs:50-80 | on the object: the timer armed at count 3 carries token 3, and after an external raise to 4 that reset leaves the count at 4 |

## Left out

- Logging: the `Log` property and its logger have no behaviour.
- Child construction: `Props` and the actual `Context.ActorOf` /
  `Context.Watch` calls. One opaque `SpawnAndWatch(name, ref)` effect stands
  for them. The reference comes from the context.
- Scheduler timing: the `AutoReset` delay is an opaque `Duration`, and no
  clock exists. Arming a timer is a `ScheduleTellOnce` effect; its firing is
  a later `ResetRestartCount` delivery.
- Mailbox, asynchronous delivery and concurrency: one sequential step per
  message (`BackoffTraces.Run` for sequences).
- Message transport: `Tell`, `Forward` and `DeadLetters` become `Send`
  effects naming the receiver and the apparent sender. `Unhandled` becomes
  an `Unhandled(message)` effect; publishing it to the event stream is not
  modelled.
- The subclasses that increment the counter and clear the child after a
  termination: they appear only as the protected setters `SetChild` and
  `SetRestartCount`, and as arbitrary prior state. What triggers them is not
  modelled.
- Runs mixing deliveries with subclass writes: `BackoffTraces.Run` chains
  `HandleBackoff` steps only. Its lemmas therefore say nothing about a real
  supervisor's whole life, in which each restart clears the child and raises
  the counter.
- `base.PreStart()` and the rest of `ActorBase`.
- `IBackoffReset` is not part of this model. The reset policy has the two
  variants named at lines 55 and 64, `AutoReset(delay)` and `ManualReset`.
- The sender is always a reference: the runtime supplies the dead-letter
  reference when a message has no sender.
- The 32-bit width of `RestartCountN` and of the token: the protocol does
  no arithmetic on them, only copies and compares them, so unbounded `int`
  behaves the same.
- `Child.Equals(Sender)` is modelled as equality of references.
