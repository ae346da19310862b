/** What the executor promises over every run (task_executor.h): every accepted task runs exactly once,
    in submission order, and is delivered exactly once, in completion order, with its cancellation. */
module TaskOrder {
  import opened Sets
  import opened Status
  import opened Tasks

  /** A slot in use carries what its handle names. */
  predicate Named(x: Executor) {
    forall s :: 0 <= s < |x.slots| && x.slots[s].state != Free ==>
      && x.slots[s].task < |x.handles| && x.handles[x.slots[s].task] == Handle(s, x.slots[s].generation)
      && (x.slots[s].state != Queued ==> x.slots[s].task < |x.started|)
  }

  /** Generations only grow, so a handle names one task for ever. */
  predicate Unique(x: Executor) {
    forall id :: 0 <= id < |x.handles| ==>
      && x.handles[id].slot < |x.slots| && 0 < x.handles[id].generation <= x.slots[x.handles[id].slot].generation
      && (x.handles[id].generation == x.slots[x.handles[id].slot].generation ==> x.slots[x.handles[id].slot].task == id)
  }

  /** Workers have taken the first tasks in order, and the pending list holds the others in order. */
  predicate InSubmissionOrder(x: Executor) {
    && |x.started| + |x.pending| == |x.handles|
    && (forall i :: 0 <= i < |x.started| ==> x.started[i] == i)
    && (forall i :: 0 <= i < |x.pending| ==> x.pending[i] < |x.slots| && x.slots[x.pending[i]].task == |x.started| + i)
  }

  /** What is delivered is a prefix of what is completed, and the complete list holds the rest. */
  predicate InCompletionOrder(x: Executor) {
    && |x.results| == |x.finished| == |x.delivered| + |x.complete|
    && (forall i :: 0 <= i < |x.delivered| ==> x.delivered[i] == x.finished[i])
    && (forall i :: 0 <= i < |x.complete| ==>
          && x.complete[i] < |x.slots| && x.slots[x.complete[i]].task == x.finished[|x.delivered| + i]
          && x.slots[x.complete[i]].result == x.results[|x.delivered| + i])
  }

  lemma SubmitKeepsNames(x: Executor)
    requires Partition(x) && Named(x) && Unique(x)
    ensures Named(DoSubmit(x)) && Unique(DoSubmit(x))
  {
  }

  lemma StepKeepsNames(x: Executor, e: Event)
    requires Partition(x) && Named(x) && Unique(x) && InSubmissionOrder(x)
    ensures Named(Step(x, e)) && Unique(Step(x, e))
  {
    match e
    case Submit => SubmitKeepsNames(x);
    case Take => TakeKeepsNames(x);
    case Finish(which, status) => FinishKeepsNames(x, which, status);
    case DeliverNext => DeliverNextKeepsNames(x);
    case DeliverDone => DeliverDoneKeepsNames(x);
    case Cancel(h) => CancelKeepsNames(x, h);
    case Stop(cancel) => StopKeepsNames(x, cancel);
    case _ =>
  }

  lemma TakeKeepsNames(x: Executor)
    requires Partition(x) && Named(x) && Unique(x) && InSubmissionOrder(x)
    ensures Named(DoTake(x)) && Unique(DoTake(x))
  {
  }

  lemma FinishKeepsNames(x: Executor, which: nat, status: int)
    requires Partition(x) && Named(x) && Unique(x)
    ensures Named(DoFinish(x, which, status)) && Unique(DoFinish(x, which, status))
  {
  }

  lemma DeliverNextKeepsNames(x: Executor)
    requires Partition(x) && Named(x) && Unique(x)
    ensures Named(DoDeliverNext(x)) && Unique(DoDeliverNext(x))
  {
  }

  lemma DeliverDoneKeepsNames(x: Executor)
    requires Partition(x) && Named(x) && Unique(x)
    ensures Named(DoDeliverDone(x)) && Unique(DoDeliverDone(x))
  {
  }

  lemma CancelKeepsNames(x: Executor, h: Handle)
    requires Named(x) && Unique(x)
    ensures Named(DoCancel(x, h)) && Unique(DoCancel(x, h))
  {
  }

  lemma StopKeepsNames(x: Executor, cancel: bool)
    requires Named(x) && Unique(x)
    ensures Named(DoStop(x, cancel)) && Unique(DoStop(x, cancel))
  {
  }

  // Order.

  lemma StepKeepsSubmissionOrder(x: Executor, e: Event)
    requires Partition(x) && InSubmissionOrder(x)
    ensures InSubmissionOrder(Step(x, e))
  {
    match e
    case Submit => SubmitKeepsSubmissionOrder(x);
    case Take => TakeKeepsSubmissionOrder(x);
    case _ =>
  }

  lemma SubmitKeepsSubmissionOrder(x: Executor)
    requires Partition(x) && InSubmissionOrder(x)
    ensures InSubmissionOrder(DoSubmit(x))
  {
  }

  lemma TakeKeepsSubmissionOrder(x: Executor)
    requires Partition(x) && InSubmissionOrder(x)
    ensures InSubmissionOrder(DoTake(x))
  {
    if x.pending != [] && IdleWorker(x) {
      var y := DoTake(x);
      assert forall i :: 0 <= i < |y.pending| ==> y.pending[i] == x.pending[i + 1];
    }
  }

  /** A step that leaves the completed slots and the completion histories alone. */
  lemma CompletionUnaffected(x: Executor, y: Executor)
    requires Partition(x) && InCompletionOrder(x)
    requires y.complete == x.complete && y.finished == x.finished && y.results == x.results && y.delivered == x.delivered
    requires |y.slots| == |x.slots|
    requires forall s :: 0 <= s < |x.slots| && x.slots[s].state == Completed ==>
      y.slots[s].task == x.slots[s].task && y.slots[s].result == x.slots[s].result
    ensures InCompletionOrder(y)
  {
  }

  lemma StepKeepsCompletionOrder(x: Executor, e: Event)
    requires Partition(x) && InCompletionOrder(x)
    ensures InCompletionOrder(Step(x, e))
  {
    match e
    case Finish(which, status) => FinishKeepsCompletionOrder(x, which, status);
    case DeliverNext => DeliverKeepsCompletionOrder(x);
    case Submit => SubmitKeepsCompletionOrder(x);
    case Take => TakeKeepsCompletionOrder(x);
    case DeliverDone => DoneKeepsCompletionOrder(x);
    case Cancel(h) => CompletionUnaffected(x, DoCancel(x, h));
    case Stop(cancel) => CompletionUnaffected(x, DoStop(x, cancel));
    case Start(workers, ok) => SameCompletion(x, DoStart(x, workers, ok));
    case Exit => SameCompletion(x, DoExit(x));
    case BeginDispatch => SameCompletion(x, x.(dispatching := true));
    case EndDispatch => SameCompletion(x, x.(dispatching := false));
    case Join => SameCompletion(x, DoJoin(x));
  }

  lemma SubmitKeepsCompletionOrder(x: Executor)
    requires Partition(x) && InCompletionOrder(x)
    ensures InCompletionOrder(DoSubmit(x))
  {
    CompletionUnaffected(x, DoSubmit(x));
  }

  lemma TakeKeepsCompletionOrder(x: Executor)
    requires Partition(x) && InCompletionOrder(x)
    ensures InCompletionOrder(DoTake(x))
  {
    CompletionUnaffected(x, DoTake(x));
  }

  lemma DoneKeepsCompletionOrder(x: Executor)
    requires Partition(x) && InCompletionOrder(x)
    ensures InCompletionOrder(DoDeliverDone(x))
  {
    CompletionUnaffected(x, DoDeliverDone(x));
  }

  lemma SameCompletion(x: Executor, y: Executor)
    requires InCompletionOrder(x) && y.slots == x.slots
    requires y.complete == x.complete && y.finished == x.finished && y.results == x.results && y.delivered == x.delivered
    ensures InCompletionOrder(y)
  {
  }

  lemma FinishKeepsCompletionOrder(x: Executor, which: nat, status: int)
    requires Partition(x) && InCompletionOrder(x)
    ensures InCompletionOrder(DoFinish(x, which, status))
  {
    if which < |x.running| {
      var y := DoFinish(x, which, status);
      assert forall i :: 0 <= i < |x.complete| ==> y.complete[i] == x.complete[i] && x.complete[i] != x.running[which];
    }
  }

  lemma DeliverKeepsCompletionOrder(x: Executor)
    requires Partition(x) && InCompletionOrder(x)
    ensures InCompletionOrder(DoDeliverNext(x))
  {
    var y := DoDeliverNext(x);
    if y != x {
      assert forall i :: 0 <= i < |y.complete| ==> y.complete[i] == x.complete[i + 1] && x.complete[i + 1] != x.complete[0];
    }
  }

  // Exactly once.

  /** Where task `id` is: the state of its slot, or Free once it is over. */
  function PhaseOf(x: Executor, id: nat): SlotState
    requires id < |x.handles|
  {
    var h := x.handles[id];
    if h.slot < |x.slots| && x.slots[h.slot].task == id && x.slots[h.slot].generation == h.generation
    then x.slots[h.slot].state else Free
  }

  predicate OnceAt(x: Executor, id: nat)
    requires id < |x.handles|
  {
    && (id in x.finished <==> PhaseOf(x, id) in {Completed, Delivering, Free})
    && (id in x.delivered <==> PhaseOf(x, id) in {Delivering, Free})
  }

  predicate Once(x: Executor) {
    && NoDup(x.finished) && (forall i :: 0 <= i < |x.finished| ==> x.finished[i] < |x.handles|)
    && (forall i :: 0 <= i < |x.delivered| ==> x.delivered[i] < |x.handles|)
    && (forall id :: 0 <= id < |x.handles| ==> OnceAt(x, id))
  }

  /** Moving one slot moves only its own task. */
  lemma MoveMovesOne(x: Executor, y: Executor, s: nat, id: nat)
    requires Named(x) && s < |x.slots| && x.slots[s].state != Free && id < |x.handles| && y.handles == x.handles
    requires |y.slots| == |x.slots| && y.slots == x.slots[s := y.slots[s]]
    requires y.slots[s].task == x.slots[s].task && y.slots[s].generation == x.slots[s].generation
    ensures PhaseOf(x, x.slots[s].task) == x.slots[s].state
    ensures PhaseOf(y, id) == if id == x.slots[s].task then y.slots[s].state else PhaseOf(x, id)
  {
  }

  lemma AppendMember(q: seq<nat>, t: nat, id: nat)
    ensures id in q + [t] <==> id in q || id == t
  {
    assert (q + [t])[|q|] == t;
  }

  lemma TakeKeepsOnce(x: Executor)
    requires Partition(x) && Named(x) && Once(x)
    ensures Once(DoTake(x))
  {
    var y := DoTake(x);
    if y != x {
      forall id | 0 <= id < |x.handles|
        ensures OnceAt(y, id)
      {
        MoveMovesOne(x, y, x.pending[0], id);
        assert OnceAt(x, id);
      }
    }
  }

  lemma FinishKeepsOnce(x: Executor, which: nat, status: int)
    requires Partition(x) && Named(x) && Once(x)
    ensures Once(DoFinish(x, which, status))
  {
    var y := DoFinish(x, which, status);
    if which < |x.running| {
      var s := x.running[which];
      var t := x.slots[s].task;
      forall id | 0 <= id < |x.handles|
        ensures OnceAt(y, id)
      {
        MoveMovesOne(x, y, s, id);
        AppendMember(x.finished, t, id);
        assert OnceAt(x, id);
      }
      MoveMovesOne(x, y, s, t);
      assert OnceAt(x, t);
    }
  }

  lemma DeliverNextKeepsOnce(x: Executor)
    requires Partition(x) && Named(x) && Once(x)
    ensures Once(DoDeliverNext(x))
  {
    var y := DoDeliverNext(x);
    if y != x {
      var s := x.complete[0];
      var t := x.slots[s].task;
      forall id | 0 <= id < |x.handles|
        ensures OnceAt(y, id)
      {
        MoveMovesOne(x, y, s, id);
        AppendMember(x.delivered, t, id);
        assert OnceAt(x, id);
      }
    }
  }

  lemma DeliverDoneKeepsOnce(x: Executor)
    requires Partition(x) && Named(x) && Once(x)
    ensures Once(DoDeliverDone(x))
  {
    var y := DoDeliverDone(x);
    if y != x {
      forall id | 0 <= id < |x.handles|
        ensures OnceAt(y, id)
      {
        MoveMovesOne(x, y, x.delivering[0], id);
        assert OnceAt(x, id);
      }
    }
  }

  lemma SubmitKeepsOnce(x: Executor)
    requires Partition(x) && Unique(x) && Once(x)
    ensures Once(DoSubmit(x))
  {
    var y := DoSubmit(x);
    if CanSubmit(x) {
      forall id | 0 <= id < |y.handles|
        ensures OnceAt(y, id)
      {
        if id < |x.handles| {
          assert y.handles[id] == x.handles[id];
          assert OnceAt(x, id);
        }
      }
    }
  }

  /** Steps that move no task. */
  lemma OnceUnaffected(x: Executor, y: Executor)
    requires Once(x) && |y.slots| == |x.slots|
    requires y.handles == x.handles && y.finished == x.finished && y.delivered == x.delivered
    requires forall s :: 0 <= s < |x.slots| ==>
      && y.slots[s].task == x.slots[s].task && y.slots[s].generation == x.slots[s].generation
      && y.slots[s].state == x.slots[s].state
    ensures Once(y)
  {
    forall id | 0 <= id < |x.handles|
      ensures OnceAt(y, id)
    {
      assert OnceAt(x, id);
      assert PhaseOf(y, id) == PhaseOf(x, id);
    }
  }

  lemma StepKeepsOnce(x: Executor, e: Event)
    requires Partition(x) && Named(x) && Unique(x) && Once(x)
    ensures Once(Step(x, e))
  {
    match e
    case Submit => SubmitKeepsOnce(x);
    case Take => TakeKeepsOnce(x);
    case Finish(which, status) => FinishKeepsOnce(x, which, status);
    case DeliverNext => DeliverNextKeepsOnce(x);
    case DeliverDone => DeliverDoneKeepsOnce(x);
    case _ => OnceUnaffected(x, Step(x, e));
  }

  // Cancellation.

  predicate Flags(x: Executor) {
    && (forall id :: id in x.cancels ==> id < |x.handles|)
    && (forall s :: 0 <= s < |x.slots| && Cancellable(x.slots[s]) ==> (x.slots[s].cancel <==> x.slots[s].task in x.cancels))
    && |x.results| == |x.finished|
    && (forall i :: 0 <= i < |x.finished| ==> (x.results[i].cancelled <==> x.finished[i] in x.cancels))
  }

  /** Tasks in different slots are different. */
  lemma DistinctTasks(x: Executor, s: nat, r: nat)
    requires Named(x) && s < |x.slots| && r < |x.slots| && x.slots[s].state != Free && x.slots[r].state != Free
    ensures x.slots[s].task == x.slots[r].task ==> s == r
  {
  }

  /** A cancellable task has no result yet. */
  lemma CancellableIsUnfinished(x: Executor, s: nat)
    requires Named(x) && Once(x) && s < |x.slots| && Cancellable(x.slots[s])
    ensures x.slots[s].task !in x.finished
  {
    assert OnceAt(x, x.slots[s].task);
  }

  lemma CancelKeepsFlags(x: Executor, h: Handle)
    requires Named(x) && Once(x) && Flags(x)
    ensures Flags(DoCancel(x, h))
  {
    if CancelOutcome(x, h) == Ok {
      var y := DoCancel(x, h);
      CancellableIsUnfinished(x, h.slot);
      forall s | 0 <= s < |y.slots| && Cancellable(y.slots[s])
        ensures y.slots[s].cancel <==> y.slots[s].task in y.cancels
      {
        DistinctTasks(x, s, h.slot);
      }
    }
  }

  lemma StopKeepsFlags(x: Executor, cancel: bool)
    requires Named(x) && Once(x) && Flags(x)
    ensures Flags(DoStop(x, cancel))
  {
    if cancel {
      forall s | 0 <= s < |x.slots| && Cancellable(x.slots[s])
        ensures x.slots[s].task !in x.finished
      {
        CancellableIsUnfinished(x, s);
      }
    }
  }

  lemma StepKeepsFlags(x: Executor, e: Event)
    requires Partition(x) && Named(x) && Once(x) && Flags(x)
    ensures Flags(Step(x, e))
  {
    match e
    case Cancel(h) => CancelKeepsFlags(x, h);
    case Stop(cancel) => StopKeepsFlags(x, cancel);
    case Finish(which, status) => FinishKeepsFlags(x, which, status);
    case _ =>
  }

  lemma FinishKeepsFlags(x: Executor, which: nat, status: int)
    requires Partition(x) && Flags(x)
    ensures Flags(DoFinish(x, which, status))
  {
  }

  // Workers.

  predicate Staffed(x: Executor) {
    && |x.running| <= x.alive
    && (x.phase == New ==> x.alive == 0)
    && (x.phase == Open ==> 0 < x.alive)
    && (x.pending != [] ==> 0 < x.alive)
    && (x.phase == Joined ==> x.alive == 0)
    && |x.delivering| <= 1 && (x.delivering != [] ==> x.dispatching)
  }

  lemma StepKeepsStaffed(x: Executor, e: Event)
    requires Staffed(x)
    ensures Staffed(Step(x, e))
  {
  }

  // Every run.

  predicate Inv(x: Executor) {
    && Partition(x) && Named(x) && Unique(x) && InSubmissionOrder(x) && InCompletionOrder(x)
    && Once(x) && Flags(x) && Staffed(x)
  }

  lemma StepKeepsInv(x: Executor, e: Event)
    requires Inv(x)
    ensures Inv(Step(x, e))
  {
    StepKeepsPartition(x, e);
    StepKeepsNames(x, e);
    StepKeepsSubmissionOrder(x, e);
    StepKeepsCompletionOrder(x, e);
    StepKeepsOnce(x, e);
    StepKeepsFlags(x, e);
    StepKeepsStaffed(x, e);
  }

  lemma {:induction false} RunKeepsInv(x: Executor, events: seq<Event>)
    requires Inv(x)
    ensures Inv(Run(x, events))
    decreases |events|
  {
    if events != [] {
      StepKeepsInv(x, events[0]);
      RunKeepsInv(Step(x, events[0]), events[1..]);
    }
  }

  lemma InitInv(capacity: nat)
    ensures Inv(Init(capacity))
  {
    var x := Init(capacity);
    forall s | 0 <= s < capacity
      ensures s in x.free
    {
      assert x.free[s] == s;
    }
  }

  function Outstanding(x: Executor): nat {
    |x.pending| + |x.running| + |x.complete| + |x.delivering|
  }

  /** In every run, workers take the tasks in submission order, each once; no task completes twice; callbacks
      are called in completion order; and when nothing is outstanding every accepted task has been
      completed and delivered. */
  lemma TasksRunOnceInOrder(capacity: nat, events: seq<Event>)
    ensures var x := Run(Init(capacity), events);
      && (forall i :: 0 <= i < |x.started| ==> x.started[i] == i)
      && NoDup(x.finished) && (forall i :: 0 <= i < |x.finished| ==> x.finished[i] < |x.started|)
      && x.delivered <= x.finished
      && (Outstanding(x) == 0 ==>
            && |x.started| == |x.handles| && x.delivered == x.finished
            && forall id :: 0 <= id < |x.handles| ==> id in x.delivered)
  {
    InitInv(capacity);
    RunKeepsInv(Init(capacity), events);
    var x := Run(Init(capacity), events);
    forall i | 0 <= i < |x.finished|
      ensures x.finished[i] < |x.started|
    {
      FinishedWasStarted(x, x.finished[i]);
    }
    if Outstanding(x) == 0 {
      forall id | 0 <= id < |x.handles|
        ensures id in x.delivered
      {
        IdleMeansDelivered(x, id);
      }
    }
  }

  lemma FinishedWasStarted(x: Executor, id: nat)
    requires Inv(x) && id in x.finished
    ensures id < |x.started|
  {
    if id >= |x.started| {
      var s := x.pending[id - |x.started|];
      assert x.slots[s].task == id && x.slots[s].state == Queued;
      CancellableIsUnfinished(x, s);
    }
  }

  lemma IdleMeansDelivered(x: Executor, id: nat)
    requires Inv(x) && Outstanding(x) == 0 && id < |x.handles|
    ensures id in x.delivered
  {
    assert OnceAt(x, id);
    assert forall s :: 0 <= s < |x.slots| ==> x.slots[s].state == Free;
  }

  /** In every run, the five lists hold every slot exactly once, according to its state. */
  lemma SlotsArePartitioned(capacity: nat, events: seq<Event>)
    ensures Partition(Run(Init(capacity), events))
  {
    InitInv(capacity);
    RunKeepsInv(Init(capacity), events);
  }

  /** In every run, a result says cancelled exactly when a cancellation of that task was accepted. */
  lemma CancelShowsInResult(capacity: nat, events: seq<Event>, i: nat)
    requires i < |Run(Init(capacity), events).finished|
    ensures var x := Run(Init(capacity), events);
      |x.results| == |x.finished| && (x.results[i].cancelled <==> x.finished[i] in x.cancels)
  {
    InitInv(capacity);
    RunKeepsInv(Init(capacity), events);
  }

  /** Cancelling by the handle a task was given succeeds exactly while it is queued or running, is
      refused while its result waits or is being delivered, and finds it gone for ever after. */
  lemma CancelOutcomeTellsPhase(capacity: nat, events: seq<Event>, id: nat)
    requires id < |Run(Init(capacity), events).handles|
    ensures var x := Run(Init(capacity), events);
      var outcome := CancelOutcome(x, x.handles[id]);
      && (outcome == Ok <==> id !in x.finished)
      && (outcome == State <==> id in x.finished && PhaseOf(x, id) != Free)
      && (outcome == Stale <==> PhaseOf(x, id) == Free)
      && (outcome == Ok ==> id in DoCancel(x, x.handles[id]).cancels)
  {
    InitInv(capacity);
    RunKeepsInv(Init(capacity), events);
    assert OnceAt(Run(Init(capacity), events), id);
  }

  // Termination after stop.

  function Work(x: Executor): nat {
    4 * |x.pending| + 3 * |x.running| + 2 * |x.complete| + |x.delivering|
  }

  predicate Stopped(x: Executor) {
    x.phase == Stopping || x.phase == Joined
  }

  /** The steps that move a task on. */
  predicate TaskStep(e: Event) {
    e.Take? || e.Finish? || e.DeliverNext? || e.DeliverDone?
  }

  /** How many events of a run move a task on. */
  function Moves(x: Executor, events: seq<Event>): nat
    decreases |events|
  {
    if events == [] then 0
    else (if TaskStep(events[0]) && Step(x, events[0]) != x then 1 else 0) + Moves(Step(x, events[0]), events[1..])
  }

  lemma StopOnlyDrains(x: Executor, e: Event)
    requires Stopped(x)
    ensures var y := Step(x, e);
      && Stopped(y) && y.handles == x.handles && Work(y) <= Work(x)
      && (TaskStep(e) && y != x ==> Work(y) < Work(x))
  {
  }

  lemma {:induction false} DrainIsBounded(x: Executor, events: seq<Event>)
    requires Inv(x) && Stopped(x)
    ensures var y := Run(x, events);
      Inv(y) && Stopped(y) && y.handles == x.handles && Moves(x, events) + Work(y) <= Work(x)
    decreases |events|
  {
    if events != [] {
      StepKeepsInv(x, events[0]);
      StopOnlyDrains(x, events[0]);
      DrainIsBounded(Step(x, events[0]), events[1..]);
    }
  }

  /** No worker can take or finish a task, and no delivery can begin or end. */
  ghost predicate Quiet(x: Executor) {
    && Step(x, Take) == x && (forall which: nat, status: int :: Step(x, Finish(which, status)) == x)
    && Step(x, DeliverDone) == x && Step(Step(x, BeginDispatch), DeliverNext) == Step(x, BeginDispatch)
  }

  /** While work is left, some move is possible, and it leaves less. */
  lemma MoveIsPossible(x: Executor)
    requires Inv(x) && Stopped(x) && Outstanding(x) != 0
    ensures x.running != [] ==> Work(Step(x, Finish(0, 0))) < Work(x)
    ensures x.delivering != [] ==> Work(Step(x, DeliverDone)) < Work(x)
    ensures x.delivering == [] && x.complete != [] ==> Work(Step(Step(x, BeginDispatch), DeliverNext)) < Work(x)
    ensures x.running == [] && x.delivering == [] && x.complete == [] ==> Work(Step(x, Take)) < Work(x)
  {
  }

  lemma WorkIsNotQuiet(x: Executor)
    requires Inv(x) && Stopped(x) && Outstanding(x) != 0
    ensures !Quiet(x)
  {
    MoveIsPossible(x);
    assert Work(Step(x, BeginDispatch)) == Work(x);
    if Step(x, Finish(0, 0)) == x {
      assert x.running == [];
    }
  }

  /** After stop, in every run and whatever happens from then on: nothing more is accepted; at most
      4 queued + 3 running + 2 completed + delivering further moves happen; and when no move is left, every
      accepted task has been completed and delivered exactly once. */
  lemma StopDrains(capacity: nat, before: seq<Event>, after: seq<Event>)
    requires Stopped(Run(Init(capacity), before))
    ensures var x := Run(Init(capacity), before);
      var y := Run(x, after);
      && y.handles == x.handles && Moves(x, after) <= Work(x)
      && (Quiet(y) ==>
            && Outstanding(y) == 0 && NoDup(y.delivered)
            && forall id :: 0 <= id < |y.handles| ==> id in y.delivered)
  {
    InitInv(capacity);
    RunKeepsInv(Init(capacity), before);
    var x := Run(Init(capacity), before);
    DrainIsBounded(x, after);
    var y := Run(x, after);
    if Outstanding(y) != 0 {
      WorkIsNotQuiet(y);
    } else {
      RunOnward(Init(capacity), before, after);
      TasksRunOnceInOrder(capacity, before + after);
    }
  }

  lemma {:induction false} RunOnward(x: Executor, before: seq<Event>, after: seq<Event>)
    ensures Run(x, before + after) == Run(Run(x, before), after)
    decreases |before|
  {
    if before == [] {
      assert before + after == after;
    } else {
      RunOnward(Step(x, before[0]), before[1..], after);
      assert (before + after)[1..] == before[1..] + after;
    }
  }

  // A schedule that drains.

  /** A move that is possible while work is left. */
  function NextMove(x: Executor): seq<Event> {
    if x.running != [] then [Finish(0, 0)]
    else if x.delivering != [] then [DeliverDone]
    else if x.complete != [] then [BeginDispatch, DeliverNext]
    else [Take]
  }

  lemma NextMoveDrains(x: Executor)
    requires Inv(x) && Stopped(x) && Outstanding(x) != 0
    ensures Work(Run(x, NextMove(x))) < Work(x)
  {
    MoveIsPossible(x);
    RunOne(x, NextMove(x)[0]);
    RunTwo(x, BeginDispatch, DeliverNext);
  }

  lemma RunOne(x: Executor, e: Event)
    ensures Run(x, [e]) == Step(x, e)
  {
    assert [e][1..] == [];
  }

  lemma RunTwo(x: Executor, a: Event, b: Event)
    ensures Run(x, [a, b]) == Step(Step(x, a), b)
  {
    assert [a, b][1..] == [b];
    RunOne(Step(x, a), b);
  }

  /** From every stopped state of every run, workers and owner can finish all the work. */
  lemma {:induction false} DrainIsPossible(x: Executor) returns (events: seq<Event>)
    requires Inv(x) && Stopped(x)
    ensures Outstanding(Run(x, events)) == 0
    decreases Work(x)
  {
    events := [];
    if Outstanding(x) != 0 {
      NextMoveDrains(x);
      DrainIsBounded(x, NextMove(x));
      var rest := DrainIsPossible(Run(x, NextMove(x)));
      events := NextMove(x) + rest;
      RunOnward(x, NextMove(x), rest);
    }
  }
}
