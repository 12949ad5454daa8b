/**
 The vocabulary of the backoff supervisor: actor references, the messages it
 receives and sends, its fixed configuration, the ambient context of one
 message delivery, and the effects one delivery can have on the outside world.
 */
module Protocol {

  import opened Wrappers

  /** A reference to an actor; two references are equal exactly when they name the same incarnation. */
  datatype ActorRef = ActorRef(path: string, uid: int)

  /** An opaque time span (the reset delay of an automatic reset policy). */
  datatype Duration = Duration(ticks: int)

  /**
   Every message the supervisor can receive or send. The first five are the
   control protocol; `RestartCount` and `CurrentChild` are the replies to the
   two queries; `User` stands for any application message.
   */
  datatype Message =
    | StartChild
    | Reset
    | ResetRestartCount(current: int)
    | GetRestartCount
    | GetCurrentChild
    | RestartCount(count: int)
    | CurrentChild(ref: Option<ActorRef>)
    | User(body: string)

  /** The messages the supervisor consumes itself rather than routing. */
  predicate IsControl(m: Message) {
    m.StartChild? || m.Reset? || m.ResetRestartCount? || m.GetRestartCount? || m.GetCurrentChild?
  }

  /** The reset policy: reset the restart counter on a timer, or only on an explicit command. */
  datatype ResetPolicy = AutoReset(resetBackoff: Duration) | ManualReset

  /** The configuration fixed at construction: child name, reset policy, optional reply while stopped. */
  datatype Config = Config(childName: string, reset: ResetPolicy, replyWhileStopped: Option<Message>)

  /**
   The ambient context of one delivery: the supervisor itself, its parent, the
   sender of the current message, the system's dead-letter sink, and the
   reference the actor runtime hands back if this delivery creates the child.
   */
  datatype Context = Context(self: ActorRef, parent: ActorRef, sender: ActorRef, deadLetters: ActorRef, spawned: ActorRef)

  /** What one delivery does outside the supervisor's own fields. */
  datatype Effect =
      /** create the child under the given name and watch it for termination */
    | SpawnAndWatch(name: string, child: ActorRef)
      /** ask the scheduler to deliver `message` to `receiver` once, after `delay` */
    | ScheduleTellOnce(delay: Duration, receiver: ActorRef, message: Message, sender: ActorRef)
      /** deliver `message` to `receiver` with `sender` as its apparent sender */
    | Send(receiver: ActorRef, message: Message, sender: ActorRef)
      /** report `message` on the runtime's unhandled-message channel */
    | Unhandled(message: Message)

  predicate IsSpawn(e: Effect) { e.SpawnAndWatch? }

  predicate IsSchedule(e: Effect) { e.ScheduleTellOnce? }

  /** The number of effects in `es` that satisfy `p`. */
  function CountWhere(es: seq<Effect>, p: Effect -> bool): (n: nat)
    ensures n <= |es|
  {
    if es == [] then 0
    else (if p(es[0]) then 1 else 0) + CountWhere(es[1..], p)
  }

  /** Counting distributes over the concatenation of two effect sequences. */
  lemma {:induction false} CountWhereAppend(a: seq<Effect>, b: seq<Effect>, p: Effect -> bool)
    ensures CountWhere(a + b, p) == CountWhere(a, p) + CountWhere(b, p)
  {
    if a == [] {
      assert a + b == b;
    } else {
      assert (a + b)[1..] == a[1..] + b;
      CountWhereAppend(a[1..], b, p);
    }
  }
}
