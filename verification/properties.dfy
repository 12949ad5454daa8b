/**
 Branch-level rules of the supervisor's control protocol, each stated about
 one delivery of the pure transition `Backoff.Handle`.
 */
module BackoffProperties {

  import opened Wrappers
  import opened Protocol
  import opened Backoff

  /**
   Starting is idempotent: a second StartChild never spawns or watches again and
   keeps the child the first one produced; with a child present even the first
   one spawns nothing.
   */
  lemma StartChildIdempotent(cfg: Config, s: State, ctx: Context, ctx': Context)
    ensures var t := Handle(cfg, s, StartChild, ctx);
      && t.next.child.Some?
      && (s.child.Some? ==> t.next.child == s.child && CountWhere(t.effects, IsSpawn) == 0)
      && (s.child.None? ==> t.next.child == Some(ctx.spawned) && SpawnAndWatch(cfg.childName, ctx.spawned) in t.effects)
    ensures var t := Handle(cfg, s, StartChild, ctx);
      var t' := Handle(cfg, t.next, StartChild, ctx');
      t'.next == t.next && CountWhere(t'.effects, IsSpawn) == 0
  {
  }

  /**
   StartChild schedules exactly one reset to the supervisor itself under an
   automatic policy, its token being the counter at handling time, and none
   under a manual policy; the counter is left as it was.
   */
  lemma StartChildSchedulesReset(cfg: Config, s: State, ctx: Context)
    ensures var t := Handle(cfg, s, StartChild, ctx);
      t.next.restartCount == s.restartCount
    ensures var t := Handle(cfg, s, StartChild, ctx);
      cfg.reset.AutoReset? ==>
        && CountWhere(t.effects, IsSchedule) == 1
        && ScheduleTellOnce(cfg.reset.resetBackoff, ctx.self, ResetRestartCount(s.restartCount), ctx.self) in t.effects
    ensures var t := Handle(cfg, s, StartChild, ctx);
      cfg.reset.ManualReset? ==> CountWhere(t.effects, IsSchedule) == 0
  {
  }

  /**
   An explicit Reset zeroes the counter under a manual policy; under an
   automatic one it is reported unhandled and nothing changes.
   */
  lemma ResetDependsOnPolicy(cfg: Config, s: State, ctx: Context)
    ensures var t := Handle(cfg, s, Reset, ctx);
      cfg.reset.ManualReset? ==> t.next == State(s.child, 0) && t.effects == []
    ensures var t := Handle(cfg, s, Reset, ctx);
      cfg.reset.AutoReset? ==> t.next == s && t.effects == [Unhandled(Reset)]
  {
  }

  /**
   A timer-originated reset takes effect only when its token still equals the
   counter; a stale token leaves the state as it was. Neither case emits anything.
   */
  lemma ResetTokenGuard(cfg: Config, s: State, token: int, ctx: Context)
    ensures var t := Handle(cfg, s, ResetRestartCount(token), ctx);
      && t.effects == []
      && t.next.child == s.child
      && (token == s.restartCount ==> t.next.restartCount == 0)
      && (token != s.restartCount ==> t.next == s)
  {
  }

  /** The two queries reply to the sender, from the supervisor, and change nothing. */
  lemma QueriesArePure(cfg: Config, s: State, ctx: Context)
    ensures var t := Handle(cfg, s, GetRestartCount, ctx);
      t.next == s && t.effects == [Send(ctx.sender, RestartCount(s.restartCount), ctx.self)]
    ensures var t := Handle(cfg, s, GetCurrentChild, ctx);
      t.next == s && t.effects == [Send(ctx.sender, CurrentChild(s.child), ctx.self)]
  {
  }

  /**
   With a child, application traffic from the child goes to the parent with the
   supervisor as sender, and all other traffic goes to the child with its
   original sender.
   */
  lemma RoutesWithChild(cfg: Config, s: State, m: Message, ctx: Context)
    requires !IsControl(m) && s.child.Some?
    ensures var t := Handle(cfg, s, m, ctx);
      t.next == s &&
      t.effects == if ctx.sender == s.child.value then [Send(ctx.parent, m, ctx.self)]
                   else [Send(s.child.value, m, ctx.sender)]
  {
  }

  /**
   Without a child, a configured reply-while-stopped is sent to the sender and
   the message itself is not sent to the dead-letter sink; without one, the
   message goes to the dead-letter sink with its original sender.
   */
  lemma RoutesWithoutChild(cfg: Config, s: State, m: Message, ctx: Context)
    requires !IsControl(m) && s.child.None?
    ensures var t := Handle(cfg, s, m, ctx);
      t.next == s &&
      t.effects == if cfg.replyWhileStopped.Some? then [Send(ctx.sender, cfg.replyWhileStopped.value, ctx.self)]
                   else [Send(ctx.deadLetters, m, ctx.sender)]
  {
  }

  /**
   Control messages are consumed by the supervisor: none is ever passed on as a
   delivery to anyone, the child included.
   */
  lemma ControlNeverRouted(cfg: Config, s: State, m: Message, ctx: Context)
    requires IsControl(m)
    ensures forall e :: e in Handle(cfg, s, m, ctx).effects ==> !(e.Send? && e.message == m)
  {
  }

  /**
   While a child exists (and is not the supervisor itself), nothing the
   supervisor sends carries the child as its apparent sender: the parent and
   everyone else see only the supervisor or the original sender.
   */
  lemma ChildIdentityNeverLeaks(cfg: Config, s: State, m: Message, ctx: Context)
    requires s.child.Some? && ctx.self != s.child.value
    ensures forall e :: e in Handle(cfg, s, m, ctx).effects && e.Send? ==> e.sender != s.child.value
  {
  }

  /**
   A stale timer is ignored: a reset armed by StartChild at count n under an
   automatic policy carries token n; if the restart strategy has since moved
   the count to any other value c, that reset leaves the state (count c) as it
   is and emits nothing.
   */
  lemma StaleTimerIgnored(cfg: Config, s: State, ctx: Context, ctx': Context, c: int)
    requires cfg.reset.AutoReset? && c != s.restartCount
    ensures var armed := Handle(cfg, s, StartChild, ctx);
      var raised := armed.next.(restartCount := c);
      && ScheduleTellOnce(cfg.reset.resetBackoff, ctx.self, ResetRestartCount(s.restartCount), ctx.self) in armed.effects
      && Handle(cfg, raised, ResetRestartCount(s.restartCount), ctx') == Transition(raised, [])
  {
  }
}
