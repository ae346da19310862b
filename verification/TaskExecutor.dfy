/** The executor as it runs (task_executor.c): three lists threaded through the slots' next indices and
    the statistics counters, refining Tasks. */
module TaskExecutor {
  import opened Sets
  import opened Status
  import opened Tasks
  import opened TaskOrder

  const END: nat := 0xffff_ffff

  predicate LinkAt(q: seq<nat>, next: seq<nat>, i: nat) {
    i < |q| && q[i] < |next| && next[q[i]] == if i + 1 < |q| then q[i + 1] else END
  }

  /** `q` is threaded through `next` from `head`. */
  predicate Threaded(head: nat, q: seq<nat>, next: seq<nat>) {
    && head == (if q == [] then END else q[0])
    && forall i :: 0 <= i < |q| ==> LinkAt(q, next, i)
  }

  predicate EndsAt(tail: nat, q: seq<nat>) {
    tail == if q == [] then END else q[|q| - 1]
  }

  predicate ChangedOnly(a: seq<nat>, b: seq<nat>, where: set<nat>) {
    |a| == |b| && forall i :: 0 <= i < |a| && i !in where ==> b[i] == a[i]
  }

  lemma ThreadFrame(head: nat, q: seq<nat>, a: seq<nat>, b: seq<nat>, where: set<nat>)
    requires Threaded(head, q, a) && ChangedOnly(a, b, where) && forall i :: 0 <= i < |q| ==> q[i] !in where
    ensures Threaded(head, q, b)
  {
    forall i | 0 <= i < |q|
      ensures LinkAt(q, b, i)
    {
      assert LinkAt(q, a, i);
    }
  }

  lemma ThreadTail(q: seq<nat>, next: seq<nat>)
    requires q != [] && Threaded(q[0], q, next)
    ensures q[0] < |next| && Threaded(next[q[0]], q[1..], next)
    ensures next[q[0]] == END || (1 < |q| && next[q[0]] == q[1])
  {
    assert LinkAt(q, next, 0);
    forall i | 0 <= i < |q| - 1
      ensures LinkAt(q[1..], next, i)
    {
      assert LinkAt(q, next, i + 1);
    }
  }

  /** Appending `s`: its link ends the list and the old tail points to it. */
  lemma ThreadAppend(head: nat, q: seq<nat>, a: seq<nat>, s: nat, b: seq<nat>)
    requires Threaded(head, q, a) && NoDup(q) && s !in q && s < |a|
    requires b == (if q == [] || q[|q| - 1] >= |a| then a[s := END] else a[s := END][q[|q| - 1] := s])
    ensures Threaded(if q == [] then s else head, q + [s], b)
  {
    var r := q + [s];
    forall i | 0 <= i < |r|
      ensures LinkAt(r, b, i)
    {
      if i < |q| {
        assert LinkAt(q, a, i) && r[i] == q[i] && q[i] in q;
      }
    }
  }

  lemma ThreadPrepend(head: nat, q: seq<nat>, a: seq<nat>, s: nat)
    requires Threaded(head, q, a) && s !in q && s < |a|
    ensures Threaded(s, [s] + q, a[s := head])
  {
    var r, b := [s] + q, a[s := head];
    forall i | 0 <= i < |r|
      ensures LinkAt(r, b, i)
    {
      if i != 0 {
        var k := i - 1;
        assert LinkAt(q, a, k) && r[i] == q[k] && q[k] in q;
      }
    }
  }

  /** A slot in another state is not in the list. */
  lemma NotListed(slots: seq<Slot>, q: seq<nat>, st: SlotState, s: nat)
    requires Lists(slots, q, st) && (s < |slots| ==> slots[s].state != st)
    ensures s !in q
  {
  }

  /** Relinking slots in other states leaves a list alone. */
  lemma ListFrame(slots: seq<Slot>, head: nat, q: seq<nat>, st: SlotState, a: seq<nat>, b: seq<nat>, s: nat, t: nat)
    requires Lists(slots, q, st) && Threaded(head, q, a) && ChangedOnly(a, b, {s, t})
    requires (s < |slots| ==> slots[s].state != st) && (t < |slots| ==> slots[t].state != st)
    ensures Threaded(head, q, b)
  {
    NotListed(slots, q, st, s);
    NotListed(slots, q, st, t);
    ThreadFrame(head, q, a, b, {s, t});
  }

  datatype Heads = Heads(free: nat, pending: nat, pendingTail: nat, complete: nat, completeTail: nat)

  /** The free, pending and complete lists as the slots link them. */
  predicate Chained(x: Executor, h: Heads, next: seq<nat>) {
    && |x.slots| == |next| < END
    && Threaded(h.free, x.free, next)
    && Threaded(h.pending, x.pending, next) && EndsAt(h.pendingTail, x.pending)
    && Threaded(h.complete, x.complete, next) && EndsAt(h.completeTail, x.complete)
  }

  datatype Stats = Stats(queued: nat, running: nat, completed: nat, delivering: nat, outstanding: nat)

  function StatsOf(x: Executor): Stats {
    Stats(|x.pending|, |x.running|, |x.complete|, |x.delivering|, Outstanding(x))
  }

  /** The lists after a submission: `a` and `b` are the links before and after. */
  lemma SubmitChained(x: Executor, h: Heads, a: seq<nat>, head: nat, tail: nat, b: seq<nat>)
    requires Partition(x) && Chained(x, h, a) && CanSubmit(x)
    requires Threaded(head, x.pending + [x.free[0]], b) && EndsAt(tail, x.pending + [x.free[0]])
    requires ChangedOnly(a, b, {x.free[0], h.pendingTail})
    ensures Chained(DoSubmit(x), Heads(a[x.free[0]], head, tail, h.complete, h.completeTail), b)
  {
    var s := x.free[0];
    ThreadTail(x.free, a);
    ListFrame(x.slots, h.complete, x.complete, Completed, a, b, s, h.pendingTail);
    NotListed(x.slots, x.free, Free, h.pendingTail);
    assert forall i :: 0 <= i < |x.free| - 1 ==> x.free[1..][i] == x.free[i + 1] && x.free[i + 1] in x.free;
    ThreadFrame(a[s], x.free[1..], a, b, {s, h.pendingTail});
  }

  lemma FinishChained(x: Executor, h: Heads, a: seq<nat>, which: nat, status: int, head: nat, tail: nat, b: seq<nat>)
    requires Partition(x) && Chained(x, h, a) && which < |x.running|
    requires var q := x.complete + [x.running[which]]; Threaded(head, q, b) && EndsAt(tail, q)
    requires ChangedOnly(a, b, {x.running[which], h.completeTail})
    ensures Chained(DoFinish(x, which, status), h.(complete := head, completeTail := tail), b)
  {
    var s := x.running[which];
    ListFrame(x.slots, h.free, x.free, Free, a, b, s, h.completeTail);
    ListFrame(x.slots, h.pending, x.pending, Queued, a, b, s, h.completeTail);
  }

  lemma DoneChained(x: Executor, h: Heads, a: seq<nat>, s: nat)
    requires Partition(x) && Chained(x, h, a) && x.delivering == [s] && s < |a|
    ensures Chained(DoDeliverDone(x), h.(free := s), a[s := h.free])
  {
    var b := a[s := h.free];
    assert x.slots[x.delivering[0]].state == Delivering;
    NotListed(x.slots, x.free, Free, s);
    ThreadPrepend(h.free, x.free, a, s);
    ListFrame(x.slots, h.pending, x.pending, Queued, a, b, s, s);
    ListFrame(x.slots, h.complete, x.complete, Completed, a, b, s, s);
  }

  class TaskExecutor {
    const next: array<nat>
    var slots: seq<Slot>
    var heads: Heads
    var stats: Stats
    var phase: Phase
    var alive: nat
    var dispatching: bool
    /** Stands for the identity of the caller's task. */
    var submissions: nat
    ghost var x: Executor

    ghost predicate Mirrors()
      reads this
    {
      && x.slots == slots && x.phase == phase && x.alive == alive && x.dispatching == dispatching
      && submissions == |x.handles| && stats == StatsOf(x)
    }

    ghost predicate Valid()
      reads this, next
    {
      Mirrors() && Partition(x) && Chained(x, heads, next[..])
    }

    // tr_task_executor_create
    constructor (capacity: nat)
      requires 0 < capacity < END
      ensures Valid() && fresh(next) && x == Init(capacity)
    {
      next := new nat[capacity](i => if i + 1 < capacity then i + 1 else END);
      slots := seq(capacity, _ => Slot(Free, 0, 0, false, Result(0, false)));
      heads := Heads(0, END, END, END, END);
      stats, phase, alive, dispatching := Stats(0, 0, 0, 0, 0), New, 0, false;
      submissions := 0;
      x := Init(capacity);
      new;
      InitInv(capacity);
      forall i | 0 <= i < capacity
        ensures LinkAt(x.free, next[..], i)
      {
      }
    }

    // tr_task_enqueue
    method Enqueue(head: nat, tail: nat, index: nat, ghost q: seq<nat>) returns (newHead: nat, newTail: nat)
      requires Threaded(head, q, next[..]) && EndsAt(tail, q) && NoDup(q) && index !in q
      requires index < next.Length < END && forall i :: 0 <= i < |q| ==> q[i] < next.Length
      modifies next
      ensures Threaded(newHead, q + [index], next[..]) && EndsAt(newTail, q + [index])
      ensures ChangedOnly(old(next[..]), next[..], {index, tail})
    {
      ghost var a := next[..];
      next[index] := END;
      newHead := head;
      if tail != END {
        next[tail] := index;
      } else {
        newHead := index;
      }
      newTail := index;
      ThreadAppend(head, q, a, index, next[..]);
    }

    // tr_task_dequeue
    method Dequeue(head: nat, tail: nat, ghost q: seq<nat>) returns (index: nat, newHead: nat, newTail: nat)
      requires Threaded(head, q, next[..]) && EndsAt(tail, q) && q != []
      requires next.Length < END && forall i :: 0 <= i < |q| ==> q[i] < next.Length
      ensures index == q[0] && Threaded(newHead, q[1..], next[..]) && EndsAt(newTail, q[1..])
    {
      ThreadTail(q, next[..]);
      index := head;
      newHead := next[index];
      newTail := if newHead == END then END else tail;
    }

    /** The slot at the head of the free list moves to the pending list. */
    method LinkSubmission()
      requires Partition(x) && Chained(x, heads, next[..]) && CanSubmit(x)
      modifies this`heads, next
      ensures Chained(DoSubmit(x), heads, next[..])
    {
      ghost var a := next[..];
      ghost var h := heads;
      var index := heads.free;
      NotListed(x.slots, x.pending, Queued, index);
      var free := next[index];
      var head, tail := Enqueue(heads.pending, heads.pendingTail, index, x.pending);
      heads := Heads(free, head, tail, heads.complete, heads.completeTail);
      SubmitChained(x, h, a, head, tail, next[..]);
    }

    // tr_task_executor_submit
    method SubmitTask() returns (r: Status, handle: Handle)
      requires Valid()
      modifies this, next
      ensures Valid() && x == DoSubmit(old(x))
      ensures r == (if old(phase) == New then State
                    else if old(phase) != Open then Closed
                    else if old(x.free) == [] then Again
                    else if CanSubmit(old(x)) then Ok
                    else State)
      ensures r == Ok ==> x.handles == old(x.handles) + [handle]
    {
      handle := Handle(0, 0);
      if phase != Open {
        return if phase == New then State else Closed, handle;
      }
      var index := heads.free;
      if index == END {
        return Again, handle;
      }
      assert index == x.free[0];
      if slots[index].generation == LAST_GENERATION {
        return State, handle;
      }
      SubmitKeepsPartition(x);
      LinkSubmission();
      handle := MarkQueued(index);
      r := Ok;
    }

    method MarkQueued(index: nat) returns (handle: Handle)
      requires Mirrors() && CanSubmit(x) && x.free[0] == index
      modifies this`slots, this`stats, this`submissions, this`x
      ensures Mirrors() && x == DoSubmit(old(x)) && x.handles == old(x.handles) + [handle]
    {
      var generation := slots[index].generation + 1;
      slots := slots[index := Slot(Queued, generation, submissions, false, slots[index].result)];
      submissions := submissions + 1;
      stats := stats.(queued := stats.queued + 1, outstanding := stats.outstanding + 1);
      handle := Handle(index, generation);
      x := DoSubmit(x);
    }

    // tr_task_worker takes a task
    method WorkerTake() returns (index: nat)
      requires Valid() && heads.pending != END && stats.running < alive
      modifies this
      ensures Valid() && x == DoTake(old(x)) && x.running == old(x.running) + [index]
    {
      TakeKeepsPartition(x);
      var head, tail;
      index, head, tail := Dequeue(heads.pending, heads.pendingTail, x.pending);
      heads := heads.(pending := head, pendingTail := tail);
      slots := slots[index := slots[index].(state := Running)];
      stats := stats.(queued := stats.queued - 1, running := stats.running + 1);
      x := DoTake(x);
    }

    /** The slot of a finished task joins the complete list. */
    method LinkCompletion(index: nat, ghost which: nat, ghost status: int)
      requires Partition(x) && Chained(x, heads, next[..]) && which < |x.running| && x.running[which] == index
      modifies this`heads, next
      ensures Chained(DoFinish(x, which, status), heads, next[..])
    {
      ghost var a := next[..];
      ghost var h := heads;
      NotListed(x.slots, x.complete, Completed, index);
      var head, tail := Enqueue(heads.complete, heads.completeTail, index, x.complete);
      heads := heads.(complete := head, completeTail := tail);
      FinishChained(x, h, a, which, status, head, tail, next[..]);
    }

    // tr_task_worker commits the result of its task in `index`
    method WorkerFinish(index: nat, status: int, ghost which: nat)
      requires Valid() && which < |x.running| && x.running[which] == index
      modifies this, next
      ensures Valid() && x == DoFinish(old(x), which, status)
      ensures index < |slots| == |old(slots)| && slots[index].result == Result(status, old(slots)[index].cancel)
      ensures slots == old(slots)[index := old(slots)[index].(state := Completed, result := slots[index].result)]
    {
      FinishKeepsPartition(x, which, status);
      LinkCompletion(index, which, status);
      MarkCompleted(index, status, which);
    }

    method MarkCompleted(index: nat, status: int, ghost which: nat)
      requires Mirrors() && which < |x.running| && x.running[which] == index < |slots|
      modifies this`slots, this`stats, this`x
      ensures Mirrors() && x == DoFinish(old(x), which, status)
    {
      var result := Result(status, slots[index].cancel);
      slots := slots[index := slots[index].(state := Completed, result := result)];
      stats := stats.(running := stats.running - 1, completed := stats.completed + 1);
      x := DoFinish(x, which, status);
    }

    // tr_task_executor_cancel
    method CancelTask(h: Handle) returns (r: Status)
      requires Valid()
      modifies this`slots, this`x
      ensures Valid() && x == DoCancel(old(x), h) && r == CancelOutcome(old(x), h)
    {
      CancelKeepsPartition(x, h);
      if h.slot >= |slots| || h.generation == 0 {
        return Stale;
      }
      if slots[h.slot].state == Free || slots[h.slot].generation != h.generation {
        return Stale;
      }
      if slots[h.slot].state != Queued && slots[h.slot].state != Running {
        return State;
      }
      slots := slots[h.slot := slots[h.slot].(cancel := true)];
      x := DoCancel(x, h);
      r := Ok;
    }

    // tr_task_executor_dispatch, before a callback
    method BeginDelivery() returns (index: nat, handle: Handle, result: Result)
      requires Valid() && dispatching && heads.complete != END && stats.delivering == 0
      modifies this
      ensures Valid() && x == DoDeliverNext(old(x)) && x.delivering == [index]
      ensures index < |slots| && handle == Handle(index, slots[index].generation) && result == slots[index].result
    {
      DeliverNextKeepsPartition(x);
      var head, tail;
      index, head, tail := Dequeue(heads.complete, heads.completeTail, x.complete);
      heads := heads.(complete := head, completeTail := tail);
      handle, result := Handle(index, slots[index].generation), slots[index].result;
      MarkDelivering(index);
    }

    method MarkDelivering(index: nat)
      requires Mirrors() && x.dispatching && x.delivering == [] && x.complete != [] && x.complete[0] == index < |slots|
      modifies this`slots, this`stats, this`x
      ensures Mirrors() && x == DoDeliverNext(old(x))
    {
      slots := slots[index := slots[index].(state := Delivering)];
      stats := stats.(completed := stats.completed - 1, delivering := stats.delivering + 1);
      x := DoDeliverNext(x);
    }

    // tr_task_executor_dispatch, after a callback
    method EndDelivery(index: nat)
      requires Valid() && x.delivering == [index]
      modifies this, next
      ensures Valid() && x == DoDeliverDone(old(x))
    {
      assert x.delivering[0] == index;
      DeliverDoneKeepsPartition(x);
      DoneChained(x, heads, next[..], index);
      next[index] := heads.free;
      heads := heads.(free := index);
      MarkFree(index);
    }

    method MarkFree(index: nat)
      requires Mirrors() && x.delivering == [index] && index < |slots|
      modifies this`slots, this`stats, this`x
      ensures Mirrors() && x == DoDeliverDone(old(x))
    {
      slots := slots[index := slots[index].(state := Free)];
      stats := stats.(delivering := stats.delivering - 1, outstanding := stats.outstanding - 1);
      x := DoDeliverDone(x);
    }

    /** The cancellation loop of tr_task_executor_stop. */
    method RequestAll()
      modifies this`slots
      ensures slots == CancelAll(old(slots))
    {
      var i := 0;
      while i < |slots|
        invariant 0 <= i <= |slots| == |old(slots)|
        invariant forall k :: 0 <= k < i ==> slots[k] == CancelAll(old(slots))[k]
        invariant forall k :: i <= k < |slots| ==> slots[k] == old(slots)[k]
      {
        if slots[i].state == Queued || slots[i].state == Running {
          slots := slots[i := slots[i].(cancel := true)];
        }
        i := i + 1;
      }
    }

    // tr_task_executor_stop
    method StopExecutor(cancel: bool)
      requires Valid()
      modifies this`slots, this`phase, this`x
      ensures Valid() && x == DoStop(old(x), cancel)
    {
      StopKeepsPartition(x, cancel);
      if phase != Joined {
        phase := Stopping;
      }
      if cancel {
        RequestAll();
      }
      x := DoStop(x, cancel);
    }
  }
}
