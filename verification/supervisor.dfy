/**
 The backoff supervisor as the object it is: its child and its restart counter
 are fields that each delivery updates in place, and each step returns the
 effects it had. `StartChild` and `PreStart` are proved to follow
 `Backoff.EnsureChild`, and `HandleBackoff` to follow `Backoff.Handle`.
 */
module Supervisor {

  import opened Wrappers
  import opened Protocol
  import opened Backoff

  class BackoffSupervisorBase {
    /** child name, reset policy and reply-while-stopped, fixed at construction */
    const config: Config
    /** the supervised child, if one is believed alive */
    var child: Option<ActorRef>
    /** restarts since the counter was last reset */
    var restartCount: int

    /** The abstract state the fields stand for. */
    function Abstract(): State
      reads this
    {
      Backoff.State(child, restartCount)
    }

    /** A new supervisor has its configuration, no child and a zero counter. */
    constructor (config: Config)
      ensures this.config == config
      ensures Abstract() == Backoff.State(None, 0)
    {
      this.config := config;
      child := None;
      restartCount := 0;
    }

    /** Subclass access to the child: set when a termination is observed, for instance. */
    method SetChild(c: Option<ActorRef>)
      modifies this
      ensures child == c && restartCount == old(restartCount)
    {
      child := c;
    }

    /** Subclass access to the counter: the restart strategy increments it. */
    method SetRestartCount(n: int)
      modifies this
      ensures restartCount == n && child == old(child)
    {
      restartCount := n;
    }

    /** Create and watch the child unless one exists. */
    method StartChild(ctx: Context) returns (effects: seq<Effect>)
      modifies this
      ensures Transition(Abstract(), effects) == EnsureChild(config, old(Abstract()), ctx)
    {
      effects := [];
      if child.None? {
        effects := [SpawnAndWatch(config.childName, ctx.spawned)];
        child := Some(ctx.spawned);
      }
    }

    /** On start-up the supervisor starts its child. */
    method PreStart(ctx: Context) returns (effects: seq<Effect>)
      modifies this
      ensures Transition(Abstract(), effects) == EnsureChild(config, old(Abstract()), ctx)
    {
      effects := StartChild(ctx);
    }

    /** Handle one message; it is always reported as handled. */
    method HandleBackoff(message: Message, ctx: Context) returns (handled: bool, effects: seq<Effect>)
      modifies this
      ensures handled
      ensures Transition(Abstract(), effects) == Handle(config, old(Abstract()), message, ctx)
    {
      effects := [];
      if message.StartChild? {
        effects := StartChild(ctx);
        if config.reset.AutoReset? {
          effects := effects +
            [ScheduleTellOnce(config.reset.resetBackoff, ctx.self, ResetRestartCount(restartCount), ctx.self)];
        }
      } else if message.Reset? {
        if config.reset.ManualReset? {
          restartCount := 0;
        } else {
          effects := [Unhandled(message)];
        }
      } else if message.ResetRestartCount? {
        if message.current == restartCount {
          restartCount := 0;
        }
      } else if message.GetRestartCount? {
        effects := [Send(ctx.sender, RestartCount(restartCount), ctx.self)];
      } else if message.GetCurrentChild? {
        effects := [Send(ctx.sender, CurrentChild(child), ctx.self)];
      } else {
        if child.Some? {
          if child.value == ctx.sender {
            // the supervisor, not the child, is the sender the parent sees
            effects := [Send(ctx.parent, message, ctx.self)];
          } else {
            effects := [Send(child.value, message, ctx.sender)];
          }
        } else {
          if config.replyWhileStopped.Some? {
            effects := [Send(ctx.sender, config.replyWhileStopped.value, ctx.self)];
          } else {
            effects := [Send(ctx.deadLetters, message, ctx.sender)];
          }
        }
      }
      handled := true;
    }
  }

  /**
   The stale-timer race on the object: the counter is 3 when StartChild arms a
   reset, the restart strategy raises it to 4, and the timer's
   ResetRestartCount(3) then leaves it at 4; the scheduled token is returned too.
   */
  method StaleTimerRace(ctx: Context, delay: Duration) returns (token: int, count: int)
    ensures token == 3 && count == 4
  {
    var sup := new BackoffSupervisorBase(Config("worker", AutoReset(delay), None));
    var _ := sup.PreStart(ctx);
    sup.SetRestartCount(3);
    var _, armed := sup.HandleBackoff(StartChild, ctx);
    assert armed[|armed| - 1] == ScheduleTellOnce(delay, ctx.self, ResetRestartCount(3), ctx.self);
    token := armed[|armed| - 1].message.current;
    sup.SetRestartCount(4);
    var _, _ := sup.HandleBackoff(ResetRestartCount(token), ctx);
    count := sup.restartCount;
  }
}
