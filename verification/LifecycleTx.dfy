/** The reserved GOAWAY and RESET/REFUSED items as the reactor handles them in place (reactor.c): the flush loop
    over all connections behind its pending counter, refining SendPath. */
module LifecycleTx {
  import opened Status
  import opened CommandSequence
  import opened SendPath

  function One(r: Reserved): nat {
    if r.Waiting? then 1 else 0
  }

  function WaitingIn(s: Slot): nat {
    One(s.goaway) + One(s.reset)
  }

  /** How many reserved items are held back on all connections. */
  function WaitingCount(slots: seq<Slot>): nat {
    if slots == [] then 0 else WaitingCount(slots[..|slots| - 1]) + WaitingIn(slots[|slots| - 1])
  }

  lemma {:induction false} CountUpdate(slots: seq<Slot>, i: nat, s: Slot)
    requires i < |slots|
    ensures WaitingCount(slots[i := s]) == WaitingCount(slots) - WaitingIn(slots[i]) + WaitingIn(s)
    ensures WaitingIn(slots[i]) <= WaitingCount(slots)
  {
    var u, last := slots[i := s], |slots| - 1;
    if i == last {
      assert u[..last] == slots[..last];
    } else {
      CountUpdate(slots[..last], i, s);
      assert u[..last] == slots[..last][i := s];
    }
  }

  /** With nothing held back, a flush changes nothing: the counter's early exit is sound. */
  lemma NothingToFlush(slots: seq<Slot>, lastProcessed: nat)
    requires WaitingCount(slots) == 0
    ensures Flush(slots, lastProcessed) == slots
  {
    forall i | 0 <= i < |slots|
      ensures TryLifecycle(slots[i], lastProcessed) == slots[i]
    {
      CountUpdate(slots, i, slots[i]);
    }
  }

  class LifecycleTx {
    var slots: seq<Slot>
    var pending: nat
    var lastProcessed: nat

    ghost predicate Valid()
      reads this
    {
      pending == WaitingCount(slots)
    }

    constructor (connections: nat)
      ensures Valid() && slots == Init(0, connections).slots && lastProcessed == 0
    {
      slots := seq(connections, _ => FreshSlot(0, FreeSlot));
      pending, lastProcessed := 0, 0;
      new;
      FreshCount(slots);
    }

    /** Replace a slot that holds back one item less. */
    method Admit(i: nat, s: Slot)
      requires Valid() && i < |slots| && WaitingIn(s) + 1 == WaitingIn(slots[i])
      modifies this`slots, this`pending
      ensures Valid() && slots == old(slots)[i := s]
    {
      CountUpdate(slots, i, s);
      assert pending != 0;
      pending := pending - 1;
      slots := slots[i := s];
    }

    // tr_connection_try_enqueue_reserved_tx on the GOAWAY item
    method TryGoawayAt(i: nat)
      requires Valid() && i < |slots|
      modifies this`slots, this`pending
      ensures Valid() && slots == old(slots)[i := TryGoaway(old(slots)[i], lastProcessed)]
    {
      var s := slots[i];
      if !s.state.Active? || !s.goaway.Waiting? {
        return;
      }
      if !AfterEq(lastProcessed, s.goaway.after) {
        return;
      }
      Admit(i, Enter(s.(goaway := Queued(s.goaway.item)), s.goaway.item));
    }

    // tr_connection_try_enqueue_reserved_tx on the RESET/REFUSED item
    method TryResetAt(i: nat)
      requires Valid() && i < |slots|
      modifies this`slots, this`pending
      ensures Valid() && slots == old(slots)[i := TryReset(old(slots)[i], lastProcessed)]
    {
      var s := slots[i];
      if !s.state.Active? || !s.reset.Waiting? {
        return;
      }
      if !AfterEq(lastProcessed, s.reset.after) {
        return;
      }
      Admit(i, Enter(s.(reset := Queued(s.reset.item)), s.reset.item));
    }

    // tr_connection_try_enqueue_lifecycle_tx
    method TryLifecycleAt(i: nat)
      requires Valid() && i < |slots|
      modifies this`slots, this`pending
      ensures Valid() && slots == old(slots)[i := TryLifecycle(old(slots)[i], lastProcessed)]
    {
      var resetFirst := slots[i].resetFirst;
      if resetFirst {
        TryResetAt(i);
      }
      TryGoawayAt(i);
      if !resetFirst {
        TryResetAt(i);
      }
    }

    // tr_reactor_flush_lifecycle_tx
    method FlushLifecycle()
      requires Valid()
      modifies this`slots, this`pending
      ensures Valid() && slots == Flush(old(slots), lastProcessed)
    {
      if pending == 0 {
        NothingToFlush(slots, lastProcessed);
        return;
      }
      var i := 0;
      while i < |slots|
        invariant Valid() && 0 <= i <= |slots| == |old(slots)|
        invariant forall k :: 0 <= k < i ==> slots[k] == TryLifecycle(old(slots)[k], lastProcessed)
        invariant forall k :: i <= k < |slots| ==> slots[k] == old(slots)[k]
      {
        TryLifecycleAt(i);
        i := i + 1;
      }
    }

    /** The end of one iteration of tr_process_commands: advance, then flush. */
    method Processed(sequence: nat)
      requires Valid()
      modifies this
      ensures Valid() && lastProcessed == sequence && slots == Flush(old(slots), sequence)
    {
      lastProcessed := sequence;
      FlushLifecycle();
    }

    /** Hold an item back behind the frontier, and let it in at once if nothing precedes it. */
    method Hold(i: nat, s: Slot)
      requires Valid() && i < |slots| && WaitingIn(s) == WaitingIn(slots[i]) + 1
      modifies this`slots, this`pending
      ensures Valid() && slots == old(slots)[i := TryLifecycle(s, lastProcessed)]
    {
      CountUpdate(slots, i, s);
      slots := slots[i := s];
      pending := pending + 1;
      TryLifecycleAt(i);
    }

    // tr_reactor_send_goaway_on_owner: `frontier` is the newest accepted command, the `at`-th issued
    method GoawayOnOwner(i: nat, generation: nat, lastStream: nat, frontier: nat, at: nat) returns (status: Status)
      requires Valid()
      modifies this`slots, this`pending
      ensures Valid()
      ensures forall r: Reactor ::
        r.slots == old(slots) && r.lastProcessed == lastProcessed && r.queue.nextSequence == frontier && Frontier(r) == at ==>
        SendGoaway(r, i, generation, lastStream) == (status, r.(slots := slots))
    {
      if |slots| <= i {
        return Invalid;
      }
      var s := slots[i];
      if !s.state.Active? || s.generation != generation {
        return Stale;
      }
      if s.goaway != Idle {
        return if s.goaway.item == Goaway(lastStream) then Ok else State;
      }
      Hold(i, Accept(s, Goaway(lastStream)).(
        goaway := Waiting(Goaway(lastStream), frontier, at), resetFirst := s.reset.Waiting?));
      status := Ok;
    }

    // tr_reactor_send_stream_terminal_on_owner
    method TerminalOnOwner(i: nat, generation: nat, terminal: Item, frontier: nat, at: nat) returns (status: Status)
      requires Valid()
      modifies this`slots, this`pending
      ensures Valid()
      ensures forall r: Reactor ::
        r.slots == old(slots) && r.lastProcessed == lastProcessed && r.queue.nextSequence == frontier && Frontier(r) == at ==>
        SendTerminal(r, i, generation, terminal) == (status, r.(slots := slots))
    {
      if |slots| <= i || !terminal.Terminal? || terminal.stream == 0 {
        return Invalid;
      }
      var s := slots[i];
      if !s.state.Active? || s.generation != generation {
        return Stale;
      }
      if s.reset != Idle {
        return if s.reset.item == terminal then Ok else Again;
      }
      Hold(i, Accept(s, terminal).(
        reset := Waiting(terminal, frontier, at), resetFirst := !s.goaway.Waiting?));
      status := Ok;
    }

    // tr_connection_close_internal: held-back items are dropped and the counter follows
    method CloseAt(i: nat, generation: nat)
      requires Valid()
      modifies this`slots, this`pending
      ensures Valid()
      ensures slots == if i < |old(slots)| && old(slots)[i].state.Active? && old(slots)[i].generation == generation
                       then old(slots)[i := CloseSlot(old(slots)[i])] else old(slots)
    {
      if |slots| <= i || !slots[i].state.Active? || slots[i].generation != generation {
        return;
      }
      CountUpdate(slots, i, CloseSlot(slots[i]));
      if slots[i].goaway.Waiting? {
        pending := pending - 1;
      }
      if slots[i].reset.Waiting? {
        pending := pending - 1;
      }
      slots := slots[i := CloseSlot(slots[i])];
    }
  }

  lemma {:induction false} FreshCount(slots: seq<Slot>)
    requires forall i :: 0 <= i < |slots| ==> WaitingIn(slots[i]) == 0
    ensures WaitingCount(slots) == 0
  {
    if slots != [] {
      FreshCount(slots[..|slots| - 1]);
    }
  }
}
