/** The executor as its users see it: a board of tasks kept from the calls and their answers alone, without slots,
    generations or links. The executor keeps that board in every run; so each callback is handed the status its own
    task returned. */
module TaskBoard {
  import opened Sets
  import opened Status
  import opened Tasks
  import opened TaskOrder

  datatype Outcome = Outcome(task: nat, result: Result)

  /** `finished` and `called` list what tasks returned and what callbacks were handed, in order. */
  datatype Board = Board(
    handles: seq<Handle>, queued: seq<nat>, running: seq<nat>, waiting: seq<Outcome>, calling: seq<Outcome>,
    finished: seq<Outcome>, called: seq<Outcome>, cancelled: set<nat>, phase: Phase, alive: nat, dispatching: bool)

  const BLANK := Board([], [], [], [], [], [], [], {}, New, 0, false)

  /** Which task was given handle `h`. */
  function Position(handles: seq<Handle>, h: Handle): nat {
    if handles == [] || handles[0] == h then 0 else 1 + Position(handles[1..], h)
  }

  // The calls on the board.

  function NoteSubmit(b: Board, answer: Option<Handle>): Board {
    match answer
    case None => b
    case Some(h) => b.(handles := b.handles + [h], queued := b.queued + [|b.handles|])
  }

  function NoteTake(b: Board): Board {
    if b.queued == [] || |b.running| >= b.alive then b
    else b.(queued := b.queued[1..], running := b.running + [b.queued[0]])
  }

  function NoteFinish(b: Board, which: nat, status: int): Board {
    if which >= |b.running| then b else
      var o := Outcome(b.running[which], Result(status, b.running[which] in b.cancelled));
      b.(running := Without(b.running, which), waiting := b.waiting + [o], finished := b.finished + [o])
  }

  function NoteCancel(b: Board, h: Handle): Board {
    var id := Position(b.handles, h);
    if id in b.queued || id in b.running then b.(cancelled := b.cancelled + {id}) else b
  }

  function NoteDeliver(b: Board): Board {
    if !b.dispatching || b.calling != [] || b.waiting == [] then b
    else b.(waiting := b.waiting[1..], calling := [b.waiting[0]], called := b.called + [b.waiting[0]])
  }

  function NoteStop(b: Board, cancel: bool): Board {
    var c := b.(phase := if b.phase == Joined then Joined else Stopping);
    if !cancel then c else c.(cancelled := b.cancelled + (set id | id in b.queued) + (set id | id in b.running))
  }

  function Note(b: Board, e: Event, answer: Option<Handle>): Board {
    match e
    case Start(workers, ok) =>
      if b.phase != New || (ok && workers == 0) then b
      else b.(alive := workers, phase := if ok then Open else Stopping)
    case Submit => NoteSubmit(b, answer)
    case Take => NoteTake(b)
    case Finish(which, status) => NoteFinish(b, which, status)
    case Exit => if b.queued == [] && b.phase == Stopping && |b.running| < b.alive then b.(alive := b.alive - 1) else b
    case Cancel(h) => NoteCancel(b, h)
    case BeginDispatch => b.(dispatching := true)
    case DeliverNext => NoteDeliver(b)
    case DeliverDone => b.(calling := [])
    case EndDispatch => if b.calling == [] then b.(dispatching := false) else b
    case Stop(cancel) => NoteStop(b, cancel)
    case Join => if !b.dispatching && b.phase == Stopping && b.alive == 0 then b.(phase := Joined) else b
  }

  // The board of an executor.

  function TaskAt(slots: seq<Slot>, s: nat): nat {
    if s < |slots| then slots[s].task else 0
  }

  function OutcomeAt(slots: seq<Slot>, s: nat): Outcome {
    if s < |slots| then Outcome(slots[s].task, slots[s].result) else Outcome(0, Result(0, false))
  }

  function TasksIn(slots: seq<Slot>, q: seq<nat>): seq<nat> {
    seq(|q|, i requires 0 <= i < |q| => TaskAt(slots, q[i]))
  }

  function OutcomesIn(slots: seq<Slot>, q: seq<nat>): seq<Outcome> {
    seq(|q|, i requires 0 <= i < |q| => OutcomeAt(slots, q[i]))
  }

  function Pairs(tasks: seq<nat>, results: seq<Result>): seq<Outcome> {
    seq(|tasks|, i requires 0 <= i < |tasks| => Outcome(tasks[i], if i < |results| then results[i] else Result(0, false)))
  }

  function BoardOf(x: Executor): Board {
    Board(x.handles, TasksIn(x.slots, x.pending), TasksIn(x.slots, x.running), OutcomesIn(x.slots, x.complete),
          OutcomesIn(x.slots, x.delivering), Pairs(x.finished, x.results), Pairs(x.delivered, x.results), x.cancels,
          x.phase, x.alive, x.dispatching)
  }

  /** tr_task_executor_submit answers with the head of the free list under its next generation. */
  function Answer(x: Executor): Option<Handle> {
    if CanSubmit(x) then Some(Handle(x.free[0], x.slots[x.free[0]].generation + 1)) else None
  }

  // Changing one slot shows in no list that does not hold it.

  lemma TasksKept(slots: seq<Slot>, after: seq<Slot>, q: seq<nat>)
    requires |after| == |slots| && forall i :: 0 <= i < |q| && q[i] < |slots| ==> after[q[i]].task == slots[q[i]].task
    ensures TasksIn(after, q) == TasksIn(slots, q)
  {
  }

  lemma OutcomesKept(slots: seq<Slot>, after: seq<Slot>, q: seq<nat>)
    requires |after| == |slots|
    requires forall i :: 0 <= i < |q| && q[i] < |slots| ==>
      after[q[i]].task == slots[q[i]].task && after[q[i]].result == slots[q[i]].result
    ensures OutcomesIn(after, q) == OutcomesIn(slots, q)
  {
  }

  lemma TasksAppend(slots: seq<Slot>, q: seq<nat>, s: nat)
    ensures TasksIn(slots, q + [s]) == TasksIn(slots, q) + [TaskAt(slots, s)]
  {
  }

  lemma OutcomesAppend(slots: seq<Slot>, q: seq<nat>, s: nat)
    ensures OutcomesIn(slots, q + [s]) == OutcomesIn(slots, q) + [OutcomeAt(slots, s)]
  {
  }

  lemma TasksTail(slots: seq<Slot>, q: seq<nat>)
    requires q != []
    ensures TasksIn(slots, q)[0] == TaskAt(slots, q[0]) && TasksIn(slots, q)[1..] == TasksIn(slots, q[1..])
  {
  }

  lemma OutcomesTail(slots: seq<Slot>, q: seq<nat>)
    requires q != []
    ensures OutcomesIn(slots, q)[0] == OutcomeAt(slots, q[0]) && OutcomesIn(slots, q)[1..] == OutcomesIn(slots, q[1..])
  {
  }

  lemma TasksWithout(slots: seq<Slot>, q: seq<nat>, i: nat)
    requires i < |q|
    ensures Without(TasksIn(slots, q), i) == TasksIn(slots, Without(q, i))
  {
  }

  lemma PairsAppend(tasks: seq<nat>, results: seq<Result>, t: nat, r: Result)
    requires |tasks| <= |results|
    ensures Pairs(tasks, results + [r]) == Pairs(tasks, results)
    ensures |tasks| == |results| ==> Pairs(tasks + [t], results + [r]) == Pairs(tasks, results) + [Outcome(t, r)]
    ensures |tasks| < |results| ==> Pairs(tasks + [t], results) == Pairs(tasks, results) + [Outcome(t, results[|tasks|])]
  {
  }

  lemma TaskListed(slots: seq<Slot>, q: seq<nat>, s: nat)
    requires s in q
    ensures TaskAt(slots, s) in TasksIn(slots, q)
  {
    var i :| 0 <= i < |q| && q[i] == s;
    assert TasksIn(slots, q)[i] == TaskAt(slots, s);
  }

  lemma {:induction false} PositionIs(handles: seq<Handle>, h: Handle)
    ensures Position(handles, h) <= |handles|
    ensures Position(handles, h) < |handles| ==> handles[Position(handles, h)] == h
    ensures Position(handles, h) == |handles| ==> h !in handles
  {
    if handles != [] {
      PositionIs(handles[1..], h);
      assert handles == [handles[0]] + handles[1..];
    }
  }

  // Step by step.

  /** Every list keeps its tasks, and the lists of results their outcomes, when only slots outside them change. */
  lemma SubmitNotes(x: Executor)
    requires Inv(x)
    ensures BoardOf(DoSubmit(x)) == NoteSubmit(BoardOf(x), Answer(x))
  {
    if CanSubmit(x) {
      var y, s := DoSubmit(x), x.free[0];
      TasksKept(x.slots, y.slots, x.pending);
      TasksAppend(y.slots, x.pending, s);
      TasksKept(x.slots, y.slots, x.running);
      OutcomesKept(x.slots, y.slots, x.complete);
      OutcomesKept(x.slots, y.slots, x.delivering);
    }
  }

  lemma TakeNotes(x: Executor)
    requires Inv(x)
    ensures BoardOf(DoTake(x)) == NoteTake(BoardOf(x))
  {
    var y := DoTake(x);
    if x.pending != [] && IdleWorker(x) {
      var s := x.pending[0];
      TasksTail(x.slots, x.pending);
      TasksKept(x.slots, y.slots, x.pending[1..]);
      TasksKept(x.slots, y.slots, x.running);
      TasksAppend(y.slots, x.running, s);
      OutcomesKept(x.slots, y.slots, x.complete);
      OutcomesKept(x.slots, y.slots, x.delivering);
    }
  }

  lemma FinishNotes(x: Executor, which: nat, status: int)
    requires Inv(x)
    ensures BoardOf(DoFinish(x, which, status)) == NoteFinish(BoardOf(x), which, status)
  {
    var y := DoFinish(x, which, status);
    if which < |x.running| {
      var s := x.running[which];
      assert x.slots[s].state == Running;
      TasksKept(x.slots, y.slots, x.pending);
      TasksWithout(x.slots, x.running, which);
      TasksKept(x.slots, y.slots, Without(x.running, which));
      OutcomesKept(x.slots, y.slots, x.complete);
      OutcomesAppend(y.slots, x.complete, s);
      OutcomesKept(x.slots, y.slots, x.delivering);
      PairsAppend(x.finished, x.results, x.slots[s].task, y.slots[s].result);
      PairsAppend(x.delivered, x.results, x.slots[s].task, y.slots[s].result);
    }
  }

  /** The slot handed to the callback holds the result its task returned. */
  lemma DeliverNotes(x: Executor)
    requires Inv(x)
    ensures BoardOf(DoDeliverNext(x)) == NoteDeliver(BoardOf(x))
  {
    var y := DoDeliverNext(x);
    if x.dispatching && x.delivering == [] && x.complete != [] {
      var s := x.complete[0];
      TasksKept(x.slots, y.slots, x.pending);
      TasksKept(x.slots, y.slots, x.running);
      OutcomesTail(x.slots, x.complete);
      OutcomesKept(x.slots, y.slots, x.complete[1..]);
      PairsAppend(x.delivered, x.results, x.slots[s].task, x.slots[s].result);
    }
  }

  lemma DoneNotes(x: Executor)
    requires Inv(x)
    ensures BoardOf(DoDeliverDone(x)) == BoardOf(x).(calling := [])
  {
    var y := DoDeliverDone(x);
    if x.delivering != [] {
      TasksKept(x.slots, y.slots, x.pending);
      TasksKept(x.slots, y.slots, x.running);
      OutcomesKept(x.slots, y.slots, x.complete);
    }
  }

  lemma CancelFinds(x: Executor, h: Handle)
    requires Inv(x)
    ensures var b := BoardOf(x);
      var id := Position(b.handles, h);
      (id in b.queued || id in b.running <==> CancelOutcome(x, h) == Ok) &&
      (CancelOutcome(x, h) == Ok ==> h.slot < |x.slots| && x.slots[h.slot].task == id)
  {
    var b := BoardOf(x);
    var id := Position(x.handles, h);
    PositionIs(x.handles, h);
    if CancelOutcome(x, h) == Ok {
      assert x.handles[x.slots[h.slot].task] == h;
      TaskListed(x.slots, if x.slots[h.slot].state == Queued then x.pending else x.running, h.slot);
    }
    if id in b.queued {
      var i :| 0 <= i < |x.pending| && b.queued[i] == id;
      assert x.slots[x.pending[i]].state == Queued;
    }
    if id in b.running {
      var i :| 0 <= i < |x.running| && b.running[i] == id;
      assert x.slots[x.running[i]].state == Running;
    }
  }

  lemma CancelNotes(x: Executor, h: Handle)
    requires Inv(x)
    ensures BoardOf(DoCancel(x, h)) == NoteCancel(BoardOf(x), h)
  {
    var y := DoCancel(x, h);
    CancelFinds(x, h);
    if CancelOutcome(x, h) == Ok {
      TasksKept(x.slots, y.slots, x.pending);
      TasksKept(x.slots, y.slots, x.running);
      OutcomesKept(x.slots, y.slots, x.complete);
      OutcomesKept(x.slots, y.slots, x.delivering);
    }
  }

  lemma StopCancels(x: Executor)
    requires Inv(x)
    ensures (set i | 0 <= i < |x.slots| && Cancellable(x.slots[i]) :: x.slots[i].task) ==
      (set id | id in BoardOf(x).queued) + (set id | id in BoardOf(x).running)
  {
    var b := BoardOf(x);
    forall i | 0 <= i < |x.slots| && Cancellable(x.slots[i])
      ensures x.slots[i].task in b.queued || x.slots[i].task in b.running
    {
      TaskListed(x.slots, if x.slots[i].state == Queued then x.pending else x.running, i);
    }
    forall k | 0 <= k < |b.queued|
      ensures exists i :: 0 <= i < |x.slots| && Cancellable(x.slots[i]) && x.slots[i].task == b.queued[k]
    {
      assert Cancellable(x.slots[x.pending[k]]);
    }
    forall k | 0 <= k < |b.running|
      ensures exists i :: 0 <= i < |x.slots| && Cancellable(x.slots[i]) && x.slots[i].task == b.running[k]
    {
      assert Cancellable(x.slots[x.running[k]]);
    }
  }

  lemma StopNotes(x: Executor, cancel: bool)
    requires Inv(x)
    ensures BoardOf(DoStop(x, cancel)) == NoteStop(BoardOf(x), cancel)
  {
    if cancel {
      StopCancels(x);
      var after := CancelAll(x.slots);
      TasksKept(x.slots, after, x.pending);
      TasksKept(x.slots, after, x.running);
      OutcomesKept(x.slots, after, x.complete);
      OutcomesKept(x.slots, after, x.delivering);
    }
  }

  lemma StepNotes(x: Executor, e: Event)
    requires Inv(x)
    ensures BoardOf(Step(x, e)) == Note(BoardOf(x), e, Answer(x))
  {
    match e
    case Submit => SubmitNotes(x);
    case Take => TakeNotes(x);
    case Finish(which, status) => FinishNotes(x, which, status);
    case Cancel(h) => CancelNotes(x, h);
    case DeliverNext => DeliverNotes(x);
    case DeliverDone => DoneNotes(x);
    case Stop(cancel) => StopNotes(x, cancel);
    case _ =>
  }

  // Every run.

  /** An event and, for a submission, its answer. */
  datatype Told = Told(event: Event, answer: Option<Handle>)

  function History(x: Executor, events: seq<Event>): seq<Told>
    decreases |events|
  {
    if events == [] then [] else [Told(events[0], Answer(x))] + History(Step(x, events[0]), events[1..])
  }

  function NoteAll(b: Board, history: seq<Told>): Board
    decreases |history|
  {
    if history == [] then b else NoteAll(Note(b, history[0].event, history[0].answer), history[1..])
  }

  lemma {:induction false} RunNotes(x: Executor, events: seq<Event>)
    requires Inv(x)
    ensures BoardOf(Run(x, events)) == NoteAll(BoardOf(x), History(x, events))
    decreases |events|
  {
    if events != [] {
      StepNotes(x, events[0]);
      StepKeepsInv(x, events[0]);
      RunNotes(Step(x, events[0]), events[1..]);
      assert History(x, events)[1..] == History(Step(x, events[0]), events[1..]);
    }
  }

  /** In every run the executor stands exactly as the board kept from its calls and their answers says. */
  lemma ExecutorKeepsBoard(capacity: nat, events: seq<Event>)
    ensures BoardOf(Run(Init(capacity), events)) == NoteAll(BLANK, History(Init(capacity), events))
  {
    InitInv(capacity);
    RunNotes(Init(capacity), events);
    assert BoardOf(Init(capacity)) == BLANK;
  }

  /** What tasks returned, in the order in which they did: the statuses of the Finish events that meet a running task. */
  function Returned(b: Board, history: seq<Told>): seq<int>
    decreases |history|
  {
    if history == [] then [] else
      var e := history[0].event;
      var rest := Returned(Note(b, e, history[0].answer), history[1..]);
      if e.Finish? && e.which < |b.running| then [e.status] + rest else rest
  }

  predicate Carries(outcomes: seq<Outcome>, statuses: seq<int>) {
    |outcomes| == |statuses| && forall k :: 0 <= k < |outcomes| ==> outcomes[k].result.status == statuses[k]
  }

  lemma {:induction false} FinishedCarries(b: Board, history: seq<Told>, before: seq<int>)
    requires Carries(b.finished, before)
    ensures Carries(NoteAll(b, history).finished, before + Returned(b, history))
    decreases |history|
  {
    if history == [] {
      assert before + [] == before;
    } else {
      var e := history[0].event;
      var c := Note(b, e, history[0].answer);
      if e.Finish? && e.which < |b.running| {
        FinishedCarries(c, history[1..], before + [e.status]);
        var rest := Returned(c, history[1..]);
        assert before + [e.status] + rest == before + ([e.status] + rest);
      } else {
        FinishedCarries(c, history[1..], before);
      }
    }
  }

  lemma FinishedIsResults(x: Executor, statuses: seq<int>)
    requires |x.results| == |x.finished| && Carries(BoardOf(x).finished, statuses)
    ensures |x.results| == |statuses| && forall k :: 0 <= k < |x.results| ==> x.results[k].status == statuses[k]
  {
    var finished := BoardOf(x).finished;
    assert forall k :: 0 <= k < |x.results| ==> finished[k].result == x.results[k];
  }

  /** In every run the k-th result is the status that the k-th completed task returned. */
  lemma ResultsAreReturned(capacity: nat, events: seq<Event>)
    ensures var results := Run(Init(capacity), events).results;
      var statuses := Returned(BLANK, History(Init(capacity), events));
      |results| == |statuses| && forall k :: 0 <= k < |results| ==> results[k].status == statuses[k]
  {
    var x, history := Run(Init(capacity), events), History(Init(capacity), events);
    InitInv(capacity);
    RunKeepsInv(Init(capacity), events);
    ExecutorKeepsBoard(capacity, events);
    FinishedCarries(BLANK, history, []);
    assert [] + Returned(BLANK, history) == Returned(BLANK, history);
    FinishedIsResults(x, Returned(BLANK, history));
  }

  /** What is being called is what was called last. */
  predicate CallingIsLast(b: Board) {
    b.calling != [] ==> |b.calling| == 1 && b.called != [] && b.calling[0] == b.called[|b.called| - 1]
  }

  lemma {:induction false} CallingNotes(b: Board, history: seq<Told>)
    requires CallingIsLast(b)
    ensures CallingIsLast(NoteAll(b, history))
    decreases |history|
  {
    if history != [] {
      CallingNotes(Note(b, history[0].event, history[0].answer), history[1..]);
    }
  }

  lemma HandedResults(x: Executor)
    requires InCompletionOrder(x) && CallingIsLast(BoardOf(x))
    ensures BoardOf(x).called <= BoardOf(x).finished
    ensures x.delivering != [] ==>
      0 < |x.delivered| <= |x.results| &&
      OutcomeAt(x.slots, x.delivering[0]) == Outcome(x.delivered[|x.delivered| - 1], x.results[|x.delivered| - 1])
  {
    if x.delivering != [] {
      assert BoardOf(x).calling[0] == OutcomeAt(x.slots, x.delivering[0]);
    }
  }

  /** In every run callbacks are handed the outcomes of the completed tasks, in that order; and while one is called, the
      slot it reads holds its own task and the result that task returned. */
  lemma CallbacksAreHandedResults(capacity: nat, events: seq<Event>)
    ensures var x := Run(Init(capacity), events);
      && BoardOf(x).called <= BoardOf(x).finished
      && (x.delivering != [] ==>
            0 < |x.delivered| <= |x.results| &&
            OutcomeAt(x.slots, x.delivering[0]) == Outcome(x.delivered[|x.delivered| - 1], x.results[|x.delivered| - 1]))
  {
    var x := Run(Init(capacity), events);
    InitInv(capacity);
    RunKeepsInv(Init(capacity), events);
    ExecutorKeepsBoard(capacity, events);
    CallingNotes(BLANK, History(Init(capacity), events));
    HandedResults(x);
  }

  // Submission.

  predicate InRange(q: seq<nat>, n: nat) {
    forall i :: 0 <= i < |q| ==> q[i] < n
  }

  predicate AllInRange(x: Executor) {
    var n := |x.slots|;
    InRange(x.free, n) && InRange(x.pending, n) && InRange(x.running, n) && InRange(x.complete, n) && InRange(x.delivering, n)
  }

  /** Every step moves slots between the lists. */
  lemma StepKeepsCount(x: Executor, e: Event)
    requires AllInRange(x) && |x.delivering| <= 1 && |x.free| + Outstanding(x) == |x.slots|
    ensures var y := Step(x, e); |y.slots| == |x.slots| && |y.free| + Outstanding(y) == |y.slots|
  {
  }

  lemma {:induction false} RunKeepsCount(x: Executor, events: seq<Event>)
    requires Inv(x) && |x.free| + Outstanding(x) == |x.slots|
    ensures var y := Run(x, events); |y.slots| == |x.slots| && |y.free| + Outstanding(y) == |y.slots|
    decreases |events|
  {
    if events != [] {
      StepKeepsCount(x, events[0]);
      StepKeepsInv(x, events[0]);
      RunKeepsCount(Step(x, events[0]), events[1..]);
    }
  }

  predicate HasGeneration(x: Executor) {
    x.free != [] && x.free[0] < |x.slots| ==> x.slots[x.free[0]].generation != LAST_GENERATION
  }

  /** In every run a submission is accepted exactly when the executor is open, fewer tasks than its capacity are
      outstanding and the next free slot has a generation left; its handle was never given before. */
  lemma SubmissionIsAnswered(capacity: nat, events: seq<Event>)
    ensures var x := Run(Init(capacity), events);
      && (Answer(x).Some? <==>
            x.phase == Open && Outstanding(x) < capacity && HasGeneration(x))
      && (Answer(x).Some? ==> Answer(x).value !in x.handles)
  {
    var x := Run(Init(capacity), events);
    InitInv(capacity);
    RunKeepsInv(Init(capacity), events);
    RunKeepsCount(Init(capacity), events);
  }

  /** The slot freed last is given to the next task. */
  lemma FreedSlotIsReusedFirst(x: Executor)
    requires Inv(x) && x.delivering != [] && Answer(DoDeliverDone(x)).Some?
    ensures Answer(DoDeliverDone(x)).value.slot == x.delivering[0]
    ensures x.delivering[0] < |x.slots| && Answer(DoDeliverDone(x)).value.generation == x.slots[x.delivering[0]].generation + 1
  {
    assert x.delivering[0] < |x.slots|;
  }
}
