/**
 The supervisor's reaction to one message as a pure transition
 (state, message, context) -> (state', effects). The class in module
 Supervisor is proved to follow it step for step.
 */
module Backoff {

  import opened Wrappers
  import opened Protocol

  /** The two mutable fields: the supervised child, if any, and the restart counter. */
  datatype State = State(child: Option<ActorRef>, restartCount: int)

  /** The state after one delivery and the effects it had, in the order they happen. */
  datatype Transition = Transition(next: State, effects: seq<Effect>)

  /**
   Start the child unless one exists: the runtime creates and watches it and
   the reference it returns becomes the child. Idempotent: with a child present
   nothing happens.
   */
  function EnsureChild(cfg: Config, s: State, ctx: Context): (t: Transition)
    ensures t.next.restartCount == s.restartCount
    ensures t.next.child.Some?
    ensures s.child.Some? ==> t.next == s && t.effects == []
    ensures s.child.None? ==> t.next.child == Some(ctx.spawned)
    ensures CountWhere(t.effects, IsSpawn) == (if s.child.None? then 1 else 0)
    ensures forall e :: e in t.effects ==> e == SpawnAndWatch(cfg.childName, ctx.spawned)
  {
    if s.child.None? then
      Transition(s.(child := Some(ctx.spawned)), [SpawnAndWatch(cfg.childName, ctx.spawned)])
    else
      Transition(s, [])
  }

  /**
   Route a message that is not part of the control protocol: between the child
   and the parent while a child exists, otherwise to the fallback reply or to
   the dead-letter sink. Routing never changes state and has exactly one effect,
   a delivery.
   */
  function Route(cfg: Config, s: State, m: Message, ctx: Context): (t: Transition)
    ensures t.next == s
    ensures |t.effects| == 1 && t.effects[0].Send?
    ensures s.child.Some? ==> t.effects[0].message == m
    ensures s.child.Some? && ctx.self != s.child.value ==> t.effects[0].sender != s.child.value
    ensures s.child.Some? && ctx.sender == s.child.value ==> t.effects[0].receiver == ctx.parent && t.effects[0].sender == ctx.self
    ensures s.child.Some? && ctx.sender != s.child.value ==> t.effects[0].receiver == s.child.value && t.effects[0].sender == ctx.sender
    ensures s.child.None? && cfg.replyWhileStopped.Some? ==>
      t.effects[0] == Send(ctx.sender, cfg.replyWhileStopped.value, ctx.self)
    ensures s.child.None? && cfg.replyWhileStopped.None? ==>
      t.effects[0].receiver == ctx.deadLetters && t.effects[0].message == m && t.effects[0].sender == ctx.sender
  {
    match s.child
    case Some(c) =>
      if c == ctx.sender then
        // the parent sees the supervisor, never the child, as the sender
        Transition(s, [Send(ctx.parent, m, ctx.self)])
      else
        Transition(s, [Send(c, m, ctx.sender)])
    case None =>
      match cfg.replyWhileStopped
      case Some(reply) => Transition(s, [Send(ctx.sender, reply, ctx.self)])
      case None => Transition(s, [Send(ctx.deadLetters, m, ctx.sender)])
  }

  /**
   The reaction to one message. It never clears the child (only creates one
   when there is none), never changes the counter except to zero it, spawns at
   most one child, and only routing leaves the supervisor.
   */
  function Handle(cfg: Config, s: State, m: Message, ctx: Context): (t: Transition)
    ensures s.child.Some? ==> t.next.child == s.child
    ensures t.next.child.None? ==> s.child.None?
    ensures t.next.restartCount == s.restartCount || t.next.restartCount == 0
    ensures CountWhere(t.effects, IsSpawn) == (if s.child.None? && t.next.child.Some? then 1 else 0)
    ensures !m.StartChild? ==> t.next.child == s.child
    ensures !m.Reset? && !m.ResetRestartCount? ==> t.next.restartCount == s.restartCount
    ensures !IsControl(m) ==> t == Route(cfg, s, m, ctx)
  {
    match m
    case StartChild =>
      var started := EnsureChild(cfg, s, ctx);
      if cfg.reset.AutoReset? then
        Transition(started.next, started.effects +
          [ScheduleTellOnce(cfg.reset.resetBackoff, ctx.self, ResetRestartCount(s.restartCount), ctx.self)])
      else started
    case Reset =>
      if cfg.reset.ManualReset? then Transition(s.(restartCount := 0), [])
      else Transition(s, [Unhandled(m)])
    case ResetRestartCount(current) =>
      if current == s.restartCount then Transition(s.(restartCount := 0), [])
      else Transition(s, [])
    case GetRestartCount =>
      Transition(s, [Send(ctx.sender, RestartCount(s.restartCount), ctx.self)])
    case GetCurrentChild =>
      Transition(s, [Send(ctx.sender, CurrentChild(s.child), ctx.self)])
    case _ => Route(cfg, s, m, ctx)
  }
}
