/** Which answer every call on the command queue gets, told from the calls before it: what was accepted, what was
    delivered, and whether the last opening came after the last STOP and close. */
module CommandAnswers {
  import opened Status
  import opened CommandSequence
  import opened CommandQueue

  /** STOP was accepted and no opening succeeded since. */
  predicate ShutBy(h: History, shut: bool, e: Event) {
    match e
    case EPushStop(c) => shut || c.kind.Stop?
    case EOpen => shut && !WaitOpen(h.queue).status.Ok?
    case _ => shut
  }

  predicate Shut(h: History, shut: bool, events: seq<Event>)
    decreases |events|
  {
    if events == [] then shut else Shut(Step(h, events[0]), ShutBy(h, shut, events[0]), events[1..])
  }

  /** An opening succeeded, and neither a close nor a STOP came after it. */
  predicate WaitingBy(h: History, waiting: bool, e: Event) {
    match e
    case EPushStop(c) => waiting && !c.kind.Stop?
    case EOpen => waiting || WaitOpen(h.queue).status.Ok?
    case EClose => false
    case _ => waiting
  }

  predicate Waiting(h: History, waiting: bool, events: seq<Event>)
    decreases |events|
  {
    if events == [] then waiting else Waiting(Step(h, events[0]), WaitingBy(h, waiting, events[0]), events[1..])
  }

  /** Behind an accepted STOP nothing enters; so once STOP is out, everything is. */
  predicate StopIsLast(q: Queue) {
    q.stopClosed && q.stop.None? ==> q.pending == []
  }

  ghost predicate Tells(h: History, shut: bool, waiting: bool) {
    Delivers(h) && StopIsLast(h.queue) && h.queue.stopClosed == shut && h.queue.waitAccepting == waiting
  }

  lemma StepShuts(h: History, e: Event)
    ensures Step(h, e).queue.stopClosed == ShutBy(h, h.queue.stopClosed, e)
    ensures Step(h, e).queue.waitAccepting == WaitingBy(h, h.queue.waitAccepting, e) || (e.EPushStop? && h.queue.stopClosed)
    ensures Step(h, e).queue.capacity == h.queue.capacity
  {
  }

  lemma StepKeepsLast(q: Queue, h: History, e: Event)
    requires q == h.queue && StopIsLast(q) && (q.stop.Some? ==> q.stopClosed) && (q.stopClosed ==> !q.waitAccepting)
    ensures StopIsLast(Step(h, e).queue)
  {
  }

  lemma StepTells(h: History, shut: bool, waiting: bool, e: Event)
    requires Tells(h, shut, waiting)
    ensures Tells(Step(h, e), ShutBy(h, shut, e), WaitingBy(h, waiting, e)) && Step(h, e).queue.capacity == h.queue.capacity
  {
    StepDelivers(h, e);
    StepShuts(h, e);
    StepKeepsLast(h.queue, h, e);
  }

  lemma {:induction false} RunTells(h: History, shut: bool, waiting: bool, events: seq<Event>)
    requires Tells(h, shut, waiting)
    ensures Tells(Run(h, events), Shut(h, shut, events), Waiting(h, waiting, events))
    ensures Run(h, events).queue.capacity == h.queue.capacity
    decreases |events|
  {
    if events != [] {
      StepTells(h, shut, waiting, events[0]);
      RunTells(Step(h, events[0]), ShutBy(h, shut, events[0]), WaitingBy(h, waiting, events[0]), events[1..]);
    }
  }

  /** Accepted and not yet delivered. */
  function Undelivered(h: History): int {
    |h.accepted| - |h.delivered|
  }

  function PushAnswer(capacity: nat, undelivered: int, shut: bool): Status {
    if shut then Closed else if undelivered == capacity then Again else Ok
  }

  function WaitAnswer(capacity: nat, undelivered: int, waiting: bool, generation: nat, expected: nat): WaitStatus {
    if expected == 0 then Done(Invalid)
    else if !waiting || expected != generation then Done(Closed)
    else if undelivered == capacity then Blocked
    else Done(Ok)
  }

  lemma TellsAnswers(h: History, shut: bool, waiting: bool, c: Command, expected: nat)
    requires Tells(h, shut, waiting)
    ensures Push(h.queue, c).status == PushAnswer(h.queue.capacity, Undelivered(h), shut)
    ensures PushWait(h.queue, c, expected).status ==
      WaitAnswer(h.queue.capacity, Undelivered(h), waiting, SequenceOf(h.rounds), expected)
    ensures PushStop(h.queue, c).status == if !c.kind.Stop? then Invalid else if shut then State else Ok
    ensures WaitOpen(h.queue).status == if shut && h.delivered != h.accepted then State else Ok
    ensures WaitGeneration(h.queue) == if waiting then SequenceOf(h.rounds) else 0
  {
    assert Undelivered(h) == |Contents(h.queue)|;
    if h.delivered == h.accepted {
      assert Contents(h.queue) == [];
    }
  }

  /** In every run each producer and each opening is answered as the calls before it say: a push is refused only by a
      full ring or behind STOP, a waiter is admitted exactly in its own round, and an opening fails only while STOP
      is undelivered; and a call that is refused or put to sleep changes nothing. */
  lemma AnswersAreExact(capacity: nat, events: seq<Event>, c: Command, expected: nat)
    requires 0 < capacity
    ensures var h := Run(Start(capacity), events);
      var shut, waiting := Shut(Start(capacity), false, events), Waiting(Start(capacity), false, events);
      && Push(h.queue, c).status == PushAnswer(capacity, Undelivered(h), shut)
      && PushWait(h.queue, c, expected).status ==
           WaitAnswer(capacity, Undelivered(h), waiting, SequenceOf(h.rounds), expected)
      && PushStop(h.queue, c).status == (if !c.kind.Stop? then Invalid else if shut then State else Ok)
      && WaitOpen(h.queue).status == (if shut && h.delivered != h.accepted then State else Ok)
      && WaitGeneration(h.queue) == (if waiting then SequenceOf(h.rounds) else 0)
      && (!Push(h.queue, c).status.Ok? ==> Step(h, EPush(c)) == h)
      && (PushWait(h.queue, c, expected).status != Done(Ok) ==> Step(h, EPushWait(c, expected)) == h)
      && (!PushStop(h.queue, c).status.Ok? ==> Step(h, EPushStop(c)) == h)
      && (!WaitOpen(h.queue).status.Ok? ==> Step(h, EOpen) == h)
  {
    RunTells(Start(capacity), false, false, events);
    TellsAnswers(Run(Start(capacity), events), Shut(Start(capacity), false, events),
                 Waiting(Start(capacity), false, events), c, expected);
  }
}
