/**
 The supervisor over a whole sequence of deliveries, processed one at a time
 as the actor runtime does, and the properties that hold along every such run.
 A run consists of HandleBackoff steps only: no subclass writes the child or
 the counter in between.
 */
module BackoffTraces {

  import opened Wrappers
  import opened Protocol
  import opened Backoff

  /** One message taken from the mailbox, with the context it is handled in. */
  datatype Delivery = Delivery(message: Message, ctx: Context)

  /** Handle the deliveries in order; the effects of all of them, in order. */
  function Run(cfg: Config, s: State, ds: seq<Delivery>): Transition
    decreases |ds|
  {
    if ds == [] then Transition(s, [])
    else
      var first := Handle(cfg, s, ds[0].message, ds[0].ctx);
      var rest := Run(cfg, first.next, ds[1..]);
      Transition(rest.next, first.effects + rest.effects)
  }

  /** The number of StartChild commands among the deliveries. */
  function StartCount(ds: seq<Delivery>): (n: nat)
    ensures n <= |ds|
  {
    if ds == [] then 0 else (if ds[0].message.StartChild? then 1 else 0) + StartCount(ds[1..])
  }

  /**
   Over any run, the child is spawned and watched at most once: exactly once if
   the run starts without a child and ends with one, never if it starts with
   one; and a child, once present, is never replaced or cleared.
   */
  lemma {:induction false} RunSpawnsAtMostOnce(cfg: Config, s: State, ds: seq<Delivery>)
    ensures var t := Run(cfg, s, ds);
      CountWhere(t.effects, IsSpawn) == (if s.child.None? && t.next.child.Some? then 1 else 0)
    ensures s.child.Some? ==> Run(cfg, s, ds).next.child == s.child
    decreases |ds|
  {
    if ds != [] {
      var first := Handle(cfg, s, ds[0].message, ds[0].ctx);
      var rest := Run(cfg, first.next, ds[1..]);
      RunSpawnsAtMostOnce(cfg, first.next, ds[1..]);
      CountWhereAppend(first.effects, rest.effects, IsSpawn);
    }
  }

  /**
   Over any run the counter ends either where it started or at zero, and it
   ends where it started when no Reset and no ResetRestartCount was delivered.
   */
  lemma {:induction false} RunCounterOnlyReset(cfg: Config, s: State, ds: seq<Delivery>)
    ensures var t := Run(cfg, s, ds);
      t.next.restartCount == s.restartCount || t.next.restartCount == 0
    ensures (forall i :: 0 <= i < |ds| ==> !ds[i].message.Reset? && !ds[i].message.ResetRestartCount?) ==>
      Run(cfg, s, ds).next.restartCount == s.restartCount
    decreases |ds|
  {
    if ds != [] {
      var first := Handle(cfg, s, ds[0].message, ds[0].ctx);
      RunCounterOnlyReset(cfg, first.next, ds[1..]);
      if forall i :: 0 <= i < |ds| ==> !ds[i].message.Reset? && !ds[i].message.ResetRestartCount? {
        assert !ds[0].message.Reset? && !ds[0].message.ResetRestartCount?;
        forall i | 0 <= i < |ds[1..]|
          ensures !ds[1..][i].message.Reset? && !ds[1..][i].message.ResetRestartCount?
        {
          assert ds[1..][i] == ds[i + 1];
        }
      }
    }
  }

  /**
   Timers are armed only by StartChild and only under an automatic policy:
   exactly one per StartChild delivered under AutoReset, none under ManualReset.
   */
  lemma {:induction false} RunSchedulesOnePerStart(cfg: Config, s: State, ds: seq<Delivery>)
    ensures CountWhere(Run(cfg, s, ds).effects, IsSchedule) ==
      (if cfg.reset.AutoReset? then StartCount(ds) else 0)
    decreases |ds|
  {
    if ds != [] {
      var d := ds[0];
      var first := Handle(cfg, s, d.message, d.ctx);
      var rest := Run(cfg, first.next, ds[1..]);
      RunSchedulesOnePerStart(cfg, first.next, ds[1..]);
      CountWhereAppend(first.effects, rest.effects, IsSchedule);
      if d.message.StartChild? {
        var started := EnsureChild(cfg, s, d.ctx);
        if cfg.reset.AutoReset? {
          var tail := [ScheduleTellOnce(cfg.reset.resetBackoff, d.ctx.self, ResetRestartCount(s.restartCount), d.ctx.self)];
          assert first.effects == started.effects + tail;
          CountWhereAppend(started.effects, tail, IsSchedule);
        }
      }
    }
  }

  /**
   A supervisor that starts its child on start-up and then handles any sequence
   of messages has spawned exactly one child, the one created on start-up, as
   long as no subclass clears it in between.
   */
  lemma {:induction false} LifetimeHasOneChild(cfg: Config, start: Context, ds: seq<Delivery>)
    ensures var boot := EnsureChild(cfg, State(None, 0), start);
      var t := Run(cfg, boot.next, ds);
      && t.next.child == Some(start.spawned)
      && CountWhere(boot.effects + t.effects, IsSpawn) == 1
  {
    var boot := EnsureChild(cfg, State(None, 0), start);
    var t := Run(cfg, boot.next, ds);
    RunSpawnsAtMostOnce(cfg, boot.next, ds);
    CountWhereAppend(boot.effects, t.effects, IsSpawn);
  }
}
