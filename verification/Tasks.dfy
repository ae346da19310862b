/** The executor (task_executor.c) as a state machine. Every section under the executor's lock is one
    step; workers, submitters and the owner interleave freely. Tasks are named by their position in
    submission order. */
module Tasks {
  import opened Sets
  import opened Status

  const LAST_GENERATION: nat := 0xffff_ffff_ffff_ffff

  datatype SlotState = Free | Queued | Running | Completed | Delivering

  datatype Result = Result(status: int, cancelled: bool)

  datatype Slot = Slot(state: SlotState, generation: nat, task: nat, cancel: bool, result: Result)

  datatype Phase = New | Open | Stopping | Joined

  datatype Handle = Handle(slot: nat, generation: nat)

  /** `handles` is indexed by task; `started`, `finished` and `delivered` list tasks in the order in which a
      worker took them, completed them, and the owner's callback was called; `results[i]` belongs to
      `finished[i]`; `cancels` are the tasks whose cancellation was accepted. */
  datatype Executor = Executor(
    slots: seq<Slot>, free: seq<nat>, pending: seq<nat>, running: seq<nat>, complete: seq<nat>, delivering: seq<nat>,
    phase: Phase, alive: nat, dispatching: bool,
    handles: seq<Handle>, started: seq<nat>, finished: seq<nat>, results: seq<Result>, delivered: seq<nat>,
    cancels: set<nat>)

  function Init(capacity: nat): Executor {
    Executor(
      seq(capacity, _ => Slot(Free, 0, 0, false, Result(0, false))), seq(capacity, i => i), [], [], [], [],
      New, 0, false, [], [], [], [], [], {})
  }

  datatype Event =
    | Start(workers: nat, ok: bool)
    | Submit
    | Take
    | Finish(which: nat, status: int)
    | Exit
    | Cancel(handle: Handle)
    | BeginDispatch
    | DeliverNext
    | DeliverDone
    | EndDispatch
    | Stop(cancel: bool)
    | Join

  // tr_task_executor_start: all workers were created, or creation failed after `workers` of them
  function DoStart(x: Executor, workers: nat, ok: bool): Executor {
    if x.phase != New || (ok && workers == 0) then x
    else x.(alive := workers, phase := if ok then Open else Stopping)
  }

  predicate CanSubmit(x: Executor) {
    && x.phase == Open && x.free != [] && x.free[0] < |x.slots|
    && x.slots[x.free[0]].generation != LAST_GENERATION
  }

  // tr_task_executor_submit
  function DoSubmit(x: Executor): Executor {
    if !CanSubmit(x) then x else
      var s := x.free[0];
      var generation := x.slots[s].generation + 1;
      x.(slots := x.slots[s := Slot(Queued, generation, |x.handles|, false, x.slots[s].result)],
         free := x.free[1..], pending := x.pending + [s], handles := x.handles + [Handle(s, generation)])
  }

  /** A worker that is alive and has no task. */
  predicate IdleWorker(x: Executor) {
    |x.running| < x.alive
  }

  // tr_task_worker, up to the call of its task
  function DoTake(x: Executor): Executor {
    if x.pending == [] || !IdleWorker(x) || x.pending[0] >= |x.slots| then x else
      var s := x.pending[0];
      x.(slots := x.slots[s := x.slots[s].(state := Running)], pending := x.pending[1..], running := x.running + [s],
         started := x.started + [x.slots[s].task])
  }

  function Without(q: seq<nat>, i: nat): seq<nat>
    requires i < |q|
  {
    q[..i] + q[i + 1..]
  }

  // tr_task_worker, after its task returned
  function DoFinish(x: Executor, which: nat, status: int): Executor {
    if which >= |x.running| || x.running[which] >= |x.slots| then x else
      var s := x.running[which];
      var result := Result(status, x.slots[s].cancel);
      x.(slots := x.slots[s := x.slots[s].(state := Completed, result := result)],
         running := Without(x.running, which), complete := x.complete + [s],
         finished := x.finished + [x.slots[s].task], results := x.results + [result])
  }

  // the exit of tr_task_worker
  function DoExit(x: Executor): Executor {
    if x.pending != [] || x.phase != Stopping || !IdleWorker(x) then x else x.(alive := x.alive - 1)
  }

  // tr_task_executor_cancel
  function CancelOutcome(x: Executor, h: Handle): Status {
    if h.slot >= |x.slots| || h.generation == 0 then Stale
    else if x.slots[h.slot].state == Free || x.slots[h.slot].generation != h.generation then Stale
    else if x.slots[h.slot].state != Queued && x.slots[h.slot].state != Running then State
    else Ok
  }

  function DoCancel(x: Executor, h: Handle): Executor {
    if CancelOutcome(x, h) != Ok || h.slot >= |x.slots| then x else
      x.(slots := x.slots[h.slot := x.slots[h.slot].(cancel := true)], cancels := x.cancels + {x.slots[h.slot].task})
  }

  // one round of tr_task_executor_dispatch: the callback is called with `delivering` set
  function DoDeliverNext(x: Executor): Executor {
    if !x.dispatching || x.delivering != [] || x.complete == [] || x.complete[0] >= |x.slots| then x else
      var s := x.complete[0];
      x.(slots := x.slots[s := x.slots[s].(state := Delivering)], complete := x.complete[1..], delivering := [s],
         delivered := x.delivered + [x.slots[s].task])
  }

  function DoDeliverDone(x: Executor): Executor {
    if x.delivering == [] || x.delivering[0] >= |x.slots| then x else
      var s := x.delivering[0];
      x.(slots := x.slots[s := x.slots[s].(state := Free)], delivering := x.delivering[1..], free := [s] + x.free)
  }

  predicate Cancellable(s: Slot) {
    s.state == Queued || s.state == Running
  }

  function CancelAll(slots: seq<Slot>): seq<Slot> {
    seq(|slots|, i requires 0 <= i < |slots| => if Cancellable(slots[i]) then slots[i].(cancel := true) else slots[i])
  }

  // tr_task_executor_stop
  function DoStop(x: Executor, cancel: bool): Executor {
    var y := x.(phase := if x.phase == Joined then Joined else Stopping);
    if !cancel then y else
      y.(slots := CancelAll(x.slots),
         cancels := x.cancels + set i | 0 <= i < |x.slots| && Cancellable(x.slots[i]) :: x.slots[i].task)
  }

  // tr_task_executor_join
  function DoJoin(x: Executor): Executor {
    if x.dispatching || x.phase == New || x.phase == Open || x.alive != 0 then x else x.(phase := Joined)
  }

  function Step(x: Executor, e: Event): Executor {
    match e
    case Start(workers, ok) => DoStart(x, workers, ok)
    case Submit => DoSubmit(x)
    case Take => DoTake(x)
    case Finish(which, status) => DoFinish(x, which, status)
    case Exit => DoExit(x)
    case Cancel(h) => DoCancel(x, h)
    case BeginDispatch => x.(dispatching := true)
    case DeliverNext => DoDeliverNext(x)
    case DeliverDone => DoDeliverDone(x)
    case EndDispatch => if x.delivering == [] then x.(dispatching := false) else x
    case Stop(cancel) => DoStop(x, cancel)
    case Join => DoJoin(x)
  }

  function Run(x: Executor, events: seq<Event>): Executor
    decreases |events|
  {
    if events == [] then x else Run(Step(x, events[0]), events[1..])
  }

  // The slots are partitioned.

  /** `q` lists each slot in state `st` exactly once. */
  predicate Lists(slots: seq<Slot>, q: seq<nat>, st: SlotState) {
    && NoDup(q)
    && (forall i :: 0 <= i < |q| ==> q[i] < |slots| && slots[q[i]].state == st)
    && (forall s :: 0 <= s < |slots| && slots[s].state == st ==> s in q)
  }

  predicate Partition(x: Executor) {
    && Lists(x.slots, x.free, Free)
    && Lists(x.slots, x.pending, Queued)
    && Lists(x.slots, x.running, Running)
    && Lists(x.slots, x.complete, Completed)
    && Lists(x.slots, x.delivering, Delivering)
  }

  lemma ListUntouched(slots: seq<Slot>, q: seq<nat>, st: SlotState, s: nat, slot: Slot)
    requires Lists(slots, q, st) && s < |slots| && slots[s].state != st && slot.state != st
    ensures Lists(slots[s := slot], q, st)
  {
    assert s !in q;
  }

  lemma ListSame(slots: seq<Slot>, q: seq<nat>, st: SlotState, s: nat, slot: Slot)
    requires Lists(slots, q, st) && s < |slots| && slots[s].state == slot.state
    ensures Lists(slots[s := slot], q, st)
  {
  }

  lemma ListDropHead(slots: seq<Slot>, q: seq<nat>, st: SlotState, slot: Slot)
    requires Lists(slots, q, st) && q != [] && slot.state != st
    ensures Lists(slots[q[0] := slot], q[1..], st)
  {
    ListDrop(slots, q, st, 0, slot);
    assert Without(q, 0) == q[1..];
  }

  lemma ListDrop(slots: seq<Slot>, q: seq<nat>, st: SlotState, i: nat, slot: Slot)
    requires Lists(slots, q, st) && i < |q| && slot.state != st
    ensures Lists(slots[q[i] := slot], Without(q, i), st)
  {
    var w := Without(q, i);
    assert forall j :: 0 <= j < |w| ==> w[j] == q[if j < i then j else j + 1];
    forall s | 0 <= s < |slots| && slots[q[i] := slot][s].state == st
      ensures s in w
    {
      var j :| 0 <= j < |q| && q[j] == s;
      assert w[if j < i then j else j - 1] == s;
    }
  }

  lemma ListAppend(slots: seq<Slot>, q: seq<nat>, st: SlotState, s: nat, slot: Slot)
    requires Lists(slots, q, st) && s < |slots| && slots[s].state != st && slot.state == st
    ensures Lists(slots[s := slot], q + [s], st)
  {
    assert s !in q;
    var r := q + [s];
    assert r[|q|] == s && forall j :: 0 <= j < |q| ==> r[j] == q[j];
  }

  lemma ListPrepend(slots: seq<Slot>, q: seq<nat>, st: SlotState, s: nat, slot: Slot)
    requires Lists(slots, q, st) && s < |slots| && slots[s].state != st && slot.state == st
    ensures Lists(slots[s := slot], [s] + q, st)
  {
    assert s !in q;
    var r := [s] + q;
    assert r[0] == s && forall j :: 0 <= j < |q| ==> r[j + 1] == q[j];
  }

  /** Moving the slot `s` to state `slot.state` leaves every list alone but the two concerned. */
  lemma MoveKeepsOthers(x: Executor, s: nat, slot: Slot)
    requires Partition(x) && s < |x.slots|
    ensures var t := x.slots[s := slot];
      && (Free !in {x.slots[s].state, slot.state} ==> Lists(t, x.free, Free))
      && (Queued !in {x.slots[s].state, slot.state} ==> Lists(t, x.pending, Queued))
      && (Running !in {x.slots[s].state, slot.state} ==> Lists(t, x.running, Running))
      && (Completed !in {x.slots[s].state, slot.state} ==> Lists(t, x.complete, Completed))
      && (Delivering !in {x.slots[s].state, slot.state} ==> Lists(t, x.delivering, Delivering))
  {
    var a, b := x.slots[s].state, slot.state;
    if a != Free && b != Free { ListUntouched(x.slots, x.free, Free, s, slot); }
    if a != Queued && b != Queued { ListUntouched(x.slots, x.pending, Queued, s, slot); }
    if a != Running && b != Running { ListUntouched(x.slots, x.running, Running, s, slot); }
    if a != Completed && b != Completed { ListUntouched(x.slots, x.complete, Completed, s, slot); }
    if a != Delivering && b != Delivering { ListUntouched(x.slots, x.delivering, Delivering, s, slot); }
  }

  lemma SubmitKeepsPartition(x: Executor)
    requires Partition(x)
    ensures Partition(DoSubmit(x))
  {
    if CanSubmit(x) {
      var s := x.free[0];
      var slot := DoSubmit(x).slots[s];
      MoveKeepsOthers(x, s, slot);
      ListDropHead(x.slots, x.free, Free, slot);
      ListAppend(x.slots, x.pending, Queued, s, slot);
    }
  }

  lemma TakeKeepsPartition(x: Executor)
    requires Partition(x)
    ensures Partition(DoTake(x))
  {
    if x.pending != [] && IdleWorker(x) {
      var s := x.pending[0];
      var slot := x.slots[s].(state := Running);
      MoveKeepsOthers(x, s, slot);
      ListDropHead(x.slots, x.pending, Queued, slot);
      ListAppend(x.slots, x.running, Running, s, slot);
    }
  }

  lemma FinishKeepsPartition(x: Executor, which: nat, status: int)
    requires Partition(x)
    ensures Partition(DoFinish(x, which, status))
  {
    if which < |x.running| {
      var s := x.running[which];
      var slot := DoFinish(x, which, status).slots[s];
      MoveKeepsOthers(x, s, slot);
      ListDrop(x.slots, x.running, Running, which, slot);
      ListAppend(x.slots, x.complete, Completed, s, slot);
    }
  }

  lemma DeliverNextKeepsPartition(x: Executor)
    requires Partition(x)
    ensures Partition(DoDeliverNext(x))
  {
    if x.dispatching && x.delivering == [] && x.complete != [] {
      var s := x.complete[0];
      var slot := x.slots[s].(state := Delivering);
      MoveKeepsOthers(x, s, slot);
      ListDropHead(x.slots, x.complete, Completed, slot);
      ListAppend(x.slots, x.delivering, Delivering, s, slot);
    }
  }

  lemma DeliverDoneKeepsPartition(x: Executor)
    requires Partition(x)
    ensures Partition(DoDeliverDone(x))
  {
    if x.delivering != [] {
      var s := x.delivering[0];
      var slot := x.slots[s].(state := Free);
      MoveKeepsOthers(x, s, slot);
      ListDropHead(x.slots, x.delivering, Delivering, slot);
      ListPrepend(x.slots, x.free, Free, s, slot);
    }
  }

  lemma CancelKeepsPartition(x: Executor, h: Handle)
    requires Partition(x)
    ensures Partition(DoCancel(x, h))
  {
    if CancelOutcome(x, h) == Ok {
      var slot := x.slots[h.slot].(cancel := true);
      ListSame(x.slots, x.free, Free, h.slot, slot);
      ListSame(x.slots, x.pending, Queued, h.slot, slot);
      ListSame(x.slots, x.running, Running, h.slot, slot);
      ListSame(x.slots, x.complete, Completed, h.slot, slot);
      ListSame(x.slots, x.delivering, Delivering, h.slot, slot);
    }
  }

  lemma ListCancelAll(slots: seq<Slot>, q: seq<nat>, st: SlotState)
    requires Lists(slots, q, st)
    ensures Lists(CancelAll(slots), q, st)
  {
  }

  lemma StopKeepsPartition(x: Executor, cancel: bool)
    requires Partition(x)
    ensures Partition(DoStop(x, cancel))
  {
    ListCancelAll(x.slots, x.free, Free);
    ListCancelAll(x.slots, x.pending, Queued);
    ListCancelAll(x.slots, x.running, Running);
    ListCancelAll(x.slots, x.complete, Completed);
    ListCancelAll(x.slots, x.delivering, Delivering);
  }

  lemma StepKeepsPartition(x: Executor, e: Event)
    requires Partition(x)
    ensures Partition(Step(x, e))
  {
    match e
    case Start(workers, ok) =>
    case Submit => SubmitKeepsPartition(x);
    case Take => TakeKeepsPartition(x);
    case Finish(which, status) => FinishKeepsPartition(x, which, status);
    case Exit =>
    case Cancel(h) => CancelKeepsPartition(x, h);
    case BeginDispatch =>
    case DeliverNext => DeliverNextKeepsPartition(x);
    case DeliverDone => DeliverDoneKeepsPartition(x);
    case EndDispatch =>
    case Stop(cancel) => StopKeepsPartition(x, cancel);
    case Join =>
  }
}
