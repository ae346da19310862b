/** The array form of the command queue: struct tr_command_queue with its ring indices,
    proved to implement the functions of CommandQueue. Each method is one critical section. */
module CommandRing {
  import opened Status
  import opened CommandSequence
  import opened CommandQueue
  import R = Ring

  class CommandRing {
    const items: array<Command>
    var head: nat
    var tail: nat
    var count: nat
    var nextSequence: nat
    var waitGeneration: nat
    var waitAccepting: bool
    var wakePending: bool
    var stopCommand: Command
    var stopPending: bool
    var stopClosed: bool

    /** The pending commands in order. */
    ghost var pending: seq<Command>

    ghost predicate InBounds()
      reads this, items
    {
      && 0 < items.Length
      && head < items.Length
      && count <= items.Length
      && tail == (if count == items.Length then head else R.At(head, count, items.Length))
      && nextSequence < TWO_64
      && waitGeneration < TWO_64
      && |pending| == count
      && forall i :: 0 <= i < count ==> items[R.At(head, i, items.Length)] == pending[i]
    }

    ghost function View(): Queue
      requires InBounds()
      reads this, items
    {
      Queue(items.Length, pending, if stopPending then Some(stopCommand) else None,
            stopClosed, wakePending, nextSequence, waitGeneration, waitAccepting)
    }

    ghost predicate Invariant()
      reads this, items
    {
      InBounds() && Valid(View())
    }

    constructor (capacity: nat, blank: Command)
      requires 0 < capacity
      ensures Invariant() && fresh(items) && items.Length == capacity
      ensures View() == Init(capacity)
    {
      items := new Command[capacity](_ => blank);
      head, tail, count := 0, 0, 0;
      nextSequence, waitGeneration := 0, 0;
      waitAccepting, wakePending, stopPending, stopClosed := false, false, false, false;
      stopCommand := blank;
      pending := [];
    }

    method AppendTail(command: Command)
      requires InBounds() && count < items.Length
      modifies `tail, `count, `pending, items
      ensures InBounds()
      ensures pending == old(pending) + [command]
    {
      items[tail] := command;
      tail := R.Advance(tail, items.Length);
      count := count + 1;
      pending := pending + [command];
    }

    // tr_command_queue_enqueue_locked
    method EnqueueLocked(command: Command) returns (wake: bool)
      requires Invariant() && count < items.Length && !stopClosed
      modifies this, items
      ensures Invariant()
      ensures View() == Enqueue(old(View()), command).queue
      ensures wake == Enqueue(old(View()), command).wake
    {
      EnqueueAppends(View(), command);
      nextSequence := NextSequence(nextSequence);
      AppendTail(command.(sequence := nextSequence));
      wake := !wakePending;
      wakePending := true;
    }

    // tr_command_queue_push
    method PushCommand(command: Command) returns (status: Status, wake: bool)
      requires Invariant()
      modifies this, items
      ensures Invariant()
      ensures var r := Push(old(View()), command);
        View() == r.queue && status == r.status && wake == r.wake
    {
      if stopClosed {
        return Closed, false;
      }
      if count == items.Length {
        return Again, false;
      }
      wake := EnqueueLocked(command);
      status := Ok;
    }

    /** One pass of the loop in tr_command_queue_push_wait. */
    method PushCommandWait(command: Command, expectedGeneration: nat) returns (status: WaitStatus, wake: bool)
      requires Invariant()
      modifies this, items
      ensures Invariant()
      ensures var r := PushWait(old(View()), command, expectedGeneration);
        View() == r.queue && status == r.status && wake == r.wake
    {
      if expectedGeneration == 0 {
        return Done(Invalid), false;
      }
      if waitAccepting && waitGeneration == expectedGeneration && count == items.Length {
        return Blocked, false;
      }
      if !waitAccepting || waitGeneration != expectedGeneration {
        return Done(Closed), false;
      }
      wake := EnqueueLocked(command);
      status := Done(Ok);
    }

    // tr_command_queue_push_wait_force
    method PushStopCommand(command: Command) returns (status: Status, wake: bool)
      requires Invariant()
      modifies this
      ensures Invariant()
      ensures var r := PushStop(old(View()), command);
        View() == r.queue && status == r.status && wake == r.wake
    {
      if !command.kind.Stop? {
        return Invalid, false;
      }
      if stopClosed {
        return State, false;
      }
      PushStopAppends(View(), command);
      nextSequence := NextSequence(nextSequence);
      stopCommand := command.(sequence := nextSequence);
      stopPending := true;
      stopClosed := true;
      waitAccepting := false;
      wake := !wakePending;
      wakePending := true;
      status := Ok;
    }

    // tr_command_queue_wait_open
    method Open() returns (status: Status)
      requires Invariant()
      modifies this
      ensures Invariant()
      ensures View() == WaitOpen(old(View())).queue && status == WaitOpen(old(View())).status
    {
      if stopPending {
        return State;
      }
      stopClosed := false;
      waitGeneration := NextSequence(waitGeneration);
      waitAccepting := true;
      status := Ok;
    }

    // tr_command_queue_wait_close
    method Close()
      requires Invariant()
      modifies this
      ensures Invariant()
      ensures View() == WaitClose(old(View()))
    {
      waitGeneration := NextSequence(waitGeneration);
      waitAccepting := false;
    }

    // tr_command_queue_is_empty
    method IsEmpty() returns (empty: bool)
      requires Invariant()
      ensures empty <==> Contents(View()) == []
    {
      empty := count == 0 && !stopPending;
    }

    method TakeHead() returns (command: Command)
      requires InBounds() && 0 < count
      modifies `head, `count, `pending
      ensures InBounds()
      ensures old(pending) == [command] + pending
    {
      command := items[head];
      head := R.Advance(head, items.Length);
      count := count - 1;
      pending := pending[1..];
    }

    /** The ring part of tr_command_queue_pop_batch. */
    method PopRing(max: nat) returns (out: seq<Command>)
      requires InBounds()
      modifies `head, `count, `pending
      ensures InBounds()
      ensures |out| == Min(max, |old(pending)|)
      ensures out == old(pending)[..|out|] && pending == old(pending)[|out|..]
    {
      out := [];
      while |out| < max && count != 0
        invariant |out| <= max
        invariant InBounds()
        invariant old(pending) == out + pending
        decreases count
      {
        var command := TakeHead();
        out := out + [command];
      }
    }

    // tr_command_queue_pop_batch
    method Pop(max: nat) returns (out: seq<Command>)
      requires Invariant()
      modifies this
      ensures Invariant()
      ensures (out, View()) == PopBatch(old(View()), max)
    {
      if max == 0 {
        return [];
      }
      PopTakesPrefix(View(), max);
      out := PopRing(max);
      assert out + [] == out;
      if count == 0 && stopPending && |out| < max {
        out := out + [stopCommand];
        stopPending := false;
      }
      if count == 0 && !stopPending {
        wakePending := false;
      }
    }
  }
}
