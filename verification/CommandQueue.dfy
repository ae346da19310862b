/** The reactor's bounded command queue (command_queue.c): a ring of accepted commands, a
    reserved STOP slot, wake coalescing and the admission generation of blocking producers.

    `Queue` is the value the ring stands for; every critical section of the source is one
    function on it, and `CommandRing` in CommandRing.dfy is the array implementation.
 */
module CommandQueue {
  import opened Status
  import opened CommandSequence

  datatype CommandType = AdoptFd | Send | ResumeRx | CloseConn | Abort | SetHandler | Quiesce | Call | Stop

  /** `payload` stands for the union u: the descriptor, send item or request that travels along. */
  datatype Command = Command(kind: CommandType, slot: nat, generation: nat, payload: nat, sequence: nat)

  datatype Queue = Queue(
    capacity: nat,
    pending: seq<Command>,
    stop: Option<Command>,
    stopClosed: bool,
    wakePending: bool,
    nextSequence: nat,
    waitGeneration: nat,
    waitAccepting: bool)

  /** Result of a producer: `status` is the return code, `wake` the value stored in need_wake. */
  datatype PushResult = PushResult(status: Status, wake: bool, queue: Queue)

  datatype WaitStatus = Blocked | Done(status: Status)
  datatype WaitResult = WaitResult(status: WaitStatus, wake: bool, queue: Queue)

  function Init(capacity: nat): Queue {
    Queue(capacity, [], None, false, false, 0, 0, false)
  }

  /** Commands still inside, in delivery order. */
  function Contents(q: Queue): seq<Command> {
    q.pending + StopSlot(q)
  }

  function StopSlot(q: Queue): seq<Command> {
    if q.stop.Some? then [q.stop.value] else []
  }

  /** What every critical section keeps. */
  ghost predicate Valid(q: Queue) {
    && 0 < q.capacity
    && |q.pending| <= q.capacity
    && q.nextSequence < TWO_64
    && q.waitGeneration < TWO_64
    && (q.stop.Some? ==> q.stopClosed && q.stop.value.kind.Stop?)
    && (q.stopClosed ==> !q.waitAccepting)
    && (q.waitAccepting ==> q.waitGeneration != 0)
    && (q.wakePending <==> Contents(q) != [])
  }

  // tr_command_queue_enqueue_locked
  function Enqueue(q: Queue, c: Command): PushResult
  {
    var sequence := NextSequence(q.nextSequence);
    PushResult(Ok, !q.wakePending,
               q.(pending := q.pending + [c.(sequence := sequence)],
                  nextSequence := sequence,
                  wakePending := true))
  }

  // tr_command_queue_push
  function Push(q: Queue, c: Command): PushResult
  {
    if q.stopClosed then PushResult(Closed, false, q)
    else if |q.pending| == q.capacity then PushResult(Again, false, q)
    else Enqueue(q, c)
  }

  /** One pass through the guarded section of tr_command_queue_push_wait: the producer goes
      to sleep on not_full (`Blocked`), is turned away, or is admitted. */
  function PushWait(q: Queue, c: Command, expectedGeneration: nat): WaitResult
  {
    if expectedGeneration == 0 then WaitResult(Done(Invalid), false, q)
    else if !q.waitAccepting || q.waitGeneration != expectedGeneration then WaitResult(Done(Closed), false, q)
    else if |q.pending| == q.capacity then WaitResult(Blocked, false, q)
    else
      var r := Enqueue(q, c);
      WaitResult(Done(r.status), r.wake, r.queue)
  }

  // tr_command_queue_push_wait_force
  function PushStop(q: Queue, c: Command): PushResult
  {
    if !c.kind.Stop? then PushResult(Invalid, false, q)
    else if q.stopClosed then PushResult(State, false, q)
    else
      var sequence := NextSequence(q.nextSequence);
      PushResult(Ok, !q.wakePending,
                 q.(stop := Some(c.(sequence := sequence)),
                    nextSequence := sequence,
                    stopClosed := true,
                    waitAccepting := false,
                    wakePending := true))
  }

  // tr_command_queue_wait_open
  function WaitOpen(q: Queue): PushResult
  {
    if q.stop.Some? then PushResult(State, false, q)
    else PushResult(Ok, false,
                    q.(stopClosed := false,
                       waitGeneration := NextSequence(q.waitGeneration),
                       waitAccepting := true))
  }

  // tr_command_queue_wait_close
  function WaitClose(q: Queue): Queue
  {
    q.(waitGeneration := NextSequence(q.waitGeneration), waitAccepting := false)
  }

  // tr_command_queue_wait_generation
  function WaitGeneration(q: Queue): nat {
    if q.waitAccepting then q.waitGeneration else 0
  }

  function Min(a: nat, b: nat): nat {
    if a < b then a else b
  }

  /** tr_command_queue_pop_batch: ring first, then STOP if the batch has room left. */
  function PopBatch(q: Queue, max: nat): (seq<Command>, Queue)
  {
    if max == 0 then ([], q)
    else
      var n := Min(max, |q.pending|);
      var rest := q.pending[n..];
      var takeStop := rest == [] && q.stop.Some? && n < max;
      var stop := if takeStop then None else q.stop;
      (q.pending[..n] + if takeStop then StopSlot(q) else [],
       q.(pending := rest, stop := stop, wakePending := q.wakePending && !(rest == [] && stop.None?)))
  }

  // ---------------------------------------------------------------------------------
  // Runs: any interleaving of producers, lifecycle owner and consumer
  // ---------------------------------------------------------------------------------

  datatype Event =
    | EPush(command: Command)
    | EPushWait(command: Command, expectedGeneration: nat)
    | EPushStop(command: Command)
    | EOpen
    | EClose
    | EPop(max: nat)

  /** `accepted` and `delivered` list every command ever admitted and handed out, `wakes`
      counts the need_wake results and `rounds` the steps of the admission generation. */
  datatype History = History(queue: Queue, accepted: seq<Command>, delivered: seq<Command>, wakes: nat, rounds: nat)

  function Start(capacity: nat): History {
    History(Init(capacity), [], [], 0, 0)
  }

  function Admit(h: History, after: Queue, ok: bool, wake: bool, c: Command): History {
    h.(queue := after,
       accepted := if ok then h.accepted + [c.(sequence := after.nextSequence)] else h.accepted,
       wakes := h.wakes + if wake then 1 else 0)
  }

  function Step(h: History, e: Event): History {
    var q := h.queue;
    match e
    case EPush(c) =>
      var r := Push(q, c);
      Admit(h, r.queue, r.status.Ok?, r.wake, c)
    case EPushWait(c, g) =>
      var r := PushWait(q, c, g);
      Admit(h, r.queue, r.status == Done(Ok), r.wake, c)
    case EPushStop(c) =>
      var r := PushStop(q, c);
      Admit(h, r.queue, r.status.Ok?, r.wake, c)
    case EOpen =>
      var r := WaitOpen(q);
      h.(queue := r.queue, rounds := h.rounds + if r.status.Ok? then 1 else 0)
    case EClose => h.(queue := WaitClose(q), rounds := h.rounds + 1)
    case EPop(max) =>
      var (out, next) := PopBatch(q, max);
      h.(queue := next, delivered := h.delivered + out)
  }

  /** Each accepted command is delivered exactly once, in acceptance order; the k-th one
      carries sequence k; while STOP closes the round it is the last accepted command. */
  ghost predicate Delivers(h: History) {
    && Valid(h.queue)
    && h.accepted == h.delivered + Contents(h.queue)
    && h.queue.nextSequence == SequenceOf(|h.accepted|)
    && h.queue.waitGeneration == SequenceOf(h.rounds)
    && (forall k :: 0 <= k < |h.accepted| ==> h.accepted[k].sequence == SequenceOf(k + 1))
    && (h.queue.stopClosed ==> h.accepted != [] && h.accepted[|h.accepted| - 1].kind.Stop?)
  }

  /** What an admitted command does to the queue: it goes to the back and takes the next sequence. */
  ghost predicate Appended(q: Queue, c: Command, r: Queue) {
    && Valid(r)
    && r.capacity == q.capacity
    && r.nextSequence == NextSequence(q.nextSequence)
    && Contents(r) == Contents(q) + [c.(sequence := r.nextSequence)]
    && r.waitGeneration == q.waitGeneration
    && (r.stopClosed ==> c.kind.Stop?)
  }

  lemma EnqueueAppends(q: Queue, c: Command)
    requires Valid(q) && !q.stopClosed && |q.pending| < q.capacity
    ensures Appended(q, c, Enqueue(q, c).queue)
  {
  }

  lemma PushStopAppends(q: Queue, c: Command)
    requires Valid(q) && PushStop(q, c).status.Ok?
    ensures Appended(q, c, PushStop(q, c).queue)
  {
  }

  lemma AdmitDelivers(h: History, after: Queue, wake: bool, c: Command)
    requires Delivers(h) && Appended(h.queue, c, after)
    ensures Delivers(Admit(h, after, true, wake, c))
  {
    NextIsSuccessor(|h.accepted|);
    var next := Admit(h, after, true, wake, c);
    assert next.accepted == next.delivered + Contents(after);
  }

  /** Popping splits the contents: what comes out is a prefix and the rest stays. */
  lemma PopTakesPrefix(q: Queue, max: nat)
    requires Valid(q)
    ensures var (out, next) := PopBatch(q, max);
      && Valid(next)
      && next.capacity == q.capacity && next.nextSequence == q.nextSequence
      && Contents(q) == out + Contents(next)
      && |out| == Min(max, |Contents(q)|)
  {
    var (out, next) := PopBatch(q, max);
    if max != 0 {
      assert q.pending == q.pending[..Min(max, |q.pending|)] + next.pending;
    }
  }

  lemma PopDelivers(h: History, max: nat)
    requires Delivers(h)
    ensures Delivers(Step(h, EPop(max)))
  {
    PopTakesPrefix(h.queue, max);
    var (out, next) := PopBatch(h.queue, max);
    assert h.delivered + (out + Contents(next)) == (h.delivered + out) + Contents(next);
  }

  lemma RoundDelivers(h: History, e: Event)
    requires Delivers(h) && (e.EOpen? || e.EClose?)
    ensures Delivers(Step(h, e))
  {
    NextIsSuccessor(h.rounds);
    assert Contents(Step(h, e).queue) == Contents(h.queue);
  }

  lemma PushDelivers(h: History, e: Event)
    requires Delivers(h) && (e.EPush? || e.EPushWait?)
    ensures Delivers(Step(h, e))
  {
    var next := Step(h, e);
    if next.queue != h.queue {
      EnqueueAppends(h.queue, e.command);
      AdmitDelivers(h, next.queue, !h.queue.wakePending, e.command);
    } else {
      assert next == h;
    }
  }

  lemma StopDelivers(h: History, c: Command)
    requires Delivers(h)
    ensures Delivers(Step(h, EPushStop(c)))
  {
    var r := PushStop(h.queue, c);
    if r.status.Ok? {
      PushStopAppends(h.queue, c);
      AdmitDelivers(h, r.queue, r.wake, c);
    }
  }

  lemma StepDelivers(h: History, e: Event)
    requires Delivers(h)
    ensures Delivers(Step(h, e))
  {
    if e.EPop? {
      PopDelivers(h, e.max);
    } else if e.EPushStop? {
      StopDelivers(h, e.command);
    } else if e.EOpen? || e.EClose? {
      RoundDelivers(h, e);
    } else {
      PushDelivers(h, e);
    }
  }

  /** need_wake is raised exactly by the push that finds nothing pending. */
  lemma WakeIsRaisedExactlyOnEmpty(h: History, e: Event)
    requires Delivers(h)
    ensures Step(h, e).wakes == h.wakes + (if Contents(h.queue) == [] && Contents(Step(h, e).queue) != [] then 1 else 0)
  {
    match e {
      case EPop(max) => PopTakesPrefix(h.queue, max);
      case _ =>
    }
  }

  function Run(h: History, events: seq<Event>): History
    decreases |events|
  {
    if events == [] then h else Run(Step(h, events[0]), events[1..])
  }

  lemma {:induction false} RunDelivers(h: History, events: seq<Event>)
    requires Delivers(h)
    ensures Delivers(Run(h, events))
    decreases |events|
  {
    if events != [] {
      StepDelivers(h, events[0]);
      RunDelivers(Step(h, events[0]), events[1..]);
    }
  }

  /** Every run from creation: exactly-once FIFO delivery. */
  lemma FifoDelivery(capacity: nat, events: seq<Event>)
    requires 0 < capacity
    ensures var h := Run(Start(capacity), events);
      && h.delivered <= h.accepted
      && h.accepted[|h.delivered|..] == Contents(h.queue)
      && forall k :: 0 <= k < |h.accepted| ==> h.accepted[k].sequence == SequenceOf(k + 1)
  {
    RunDelivers(Start(capacity), events);
    var h := Run(Start(capacity), events);
    assert h.accepted[|h.delivered|..] == Contents(h.queue);
  }

  /** Once STOP has closed the round, nothing is accepted until the next opening. */
  lemma {:induction false} NothingAcceptedUntilOpen(h: History, events: seq<Event>)
    requires Delivers(h) && h.queue.stopClosed
    requires forall e :: e in events ==> !e.EOpen?
    ensures Run(h, events).accepted == h.accepted && Run(h, events).queue.stopClosed
    decreases |events|
  {
    if events != [] {
      StepDelivers(h, events[0]);
      assert Step(h, events[0]).accepted == h.accepted;
      NothingAcceptedUntilOpen(Step(h, events[0]), events[1..]);
    }
  }

  /** STOP never competes for ring capacity and shuts every producer out behind it; the next
      opening fails until STOP has been popped. */
  lemma StopNeedsNoRoom(q: Queue, c: Command, d: Command, g: nat)
    requires Valid(q) && c.kind.Stop?
    ensures PushStop(q, c).status == (if q.stopClosed then State else Ok)
    ensures !q.stopClosed ==>
      var r := PushStop(q, c).queue;
      && Appended(q, c, r)
      && Push(r, d).status == Closed
      && PushWait(r, d, g).status != Done(Ok)
      && WaitOpen(r).status == State
  {
    if !q.stopClosed {
      PushStopAppends(q, c);
    }
  }

  /** The events that end an admission round: close, a successful open, an accepted STOP. */
  predicate EndsRound(q: Queue, e: Event) {
    e.EClose? || (e.EOpen? && WaitOpen(q).status.Ok?) || (e.EPushStop? && PushStop(q, e.command).status.Ok?)
  }

  predicate RoundEnded(h: History, events: seq<Event>)
    decreases |events|
  {
    events != [] && (EndsRound(h.queue, events[0]) || RoundEnded(Step(h, events[0]), events[1..]))
  }

  lemma StepKeepsRound(h: History, e: Event)
    ensures h.rounds <= Step(h, e).rounds
    ensures h.rounds == Step(h, e).rounds && Step(h, e).queue.waitAccepting ==>
      h.queue.waitAccepting && !EndsRound(h.queue, e)
  {
  }

  lemma {:induction false} ReopeningStepsGeneration(h: History, events: seq<Event>)
    ensures h.rounds <= Run(h, events).rounds
    ensures h.rounds == Run(h, events).rounds && Run(h, events).queue.waitAccepting ==>
      h.queue.waitAccepting && !RoundEnded(h, events)
    decreases |events|
  {
    if events != [] {
      StepKeepsRound(h, events[0]);
      ReopeningStepsGeneration(Step(h, events[0]), events[1..]);
    }
  }

  /** A waiter that sampled its generation in one round is never admitted after that round has
      ended, for fewer than 2^64 - 1 generation steps in between. */
  lemma StaleWaiterIsTurnedAway(h: History, events: seq<Event>, c: Command)
    requires Delivers(h) && h.queue.waitAccepting
    requires RoundEnded(h, events) && Run(h, events).rounds - h.rounds < TWO_64 - 1
    ensures PushWait(Run(h, events).queue, c, WaitGeneration(h.queue)).status == Done(Closed)
  {
    RunDelivers(h, events);
    ReopeningStepsGeneration(h, events);
    if Run(h, events).queue.waitAccepting {
      SequenceDistance(h.rounds, Run(h, events).rounds);
    }
  }
}
