/** The two reserved items of a connection (reactor.c): each is embedded in its connection, so it must never be linked
    twice, and it must enter the TX FIFO as soon as its frontier is processed. */
module SendReserved {
  import opened Status
  import opened CommandSequence
  import opened SendPath
  import Q = CommandQueue

  // Linked exactly while queued.

  predicate Once(fifo: seq<Item>, i: nat, j: nat) {
    i < j < |fifo| ==> !(fifo[i].Goaway? && fifo[j].Goaway?) && !(fifo[i].Terminal? && fifo[j].Terminal?)
  }

  /** The FIFO holds at most one GOAWAY and one terminal item, each exactly while its reserved item is queued. */
  ghost predicate Embedded(s: Slot) {
    && (forall i :: 0 <= i < |s.fifo| && s.fifo[i].Goaway? ==> s.goaway == Queued(s.fifo[i]))
    && (forall i :: 0 <= i < |s.fifo| && s.fifo[i].Terminal? ==> s.reset == Queued(s.fifo[i]))
    && (forall i, j :: 0 <= i < j < |s.fifo| ==> Once(s.fifo, i, j))
    && (s.goaway != Idle ==> s.goaway.item.Goaway?) && (s.reset != Idle ==> s.reset.item.Terminal?)
    && (s.goaway.Queued? ==> s.goaway.item in s.fifo) && (s.reset.Queued? ==> s.reset.item in s.fifo)
  }

  lemma AppendOnce(fifo: seq<Item>, x: Item)
    requires forall i, j :: 0 <= i < j < |fifo| ==> Once(fifo, i, j)
    requires forall i :: 0 <= i < |fifo| ==> !(fifo[i].Goaway? && x.Goaway?) && !(fifo[i].Terminal? && x.Terminal?)
    ensures forall i, j :: 0 <= i < j < |fifo| + 1 ==> Once(fifo + [x], i, j)
  {
    forall i, j | 0 <= i < j < |fifo| + 1
      ensures Once(fifo + [x], i, j)
    {
      assert j < |fifo| ==> Once(fifo, i, j);
    }
  }

  lemma EnterFrame(s: Slot, id: nat)
    requires Embedded(s)
    ensures Embedded(Enter(s, Frame(id))) && Embedded(Accept(s, Frame(id))) && Embedded(Enter(Accept(s, Frame(id)), Frame(id)))
  {
    var t := Enter(s, Frame(id));
    assert forall i :: 0 <= i < |s.fifo| ==> t.fifo[i] == s.fifo[i];
    AppendOnce(s.fifo, Frame(id));
  }

  lemma EnterReserved(s: Slot, t: Slot, item: Item)
    requires Embedded(s) && t.fifo == s.fifo + [item]
    requires if item.Goaway? then s.goaway.Waiting? && t.goaway == Queued(item) && t.reset == s.reset
             else item.Terminal? && s.reset.Waiting? && t.reset == Queued(item) && t.goaway == s.goaway
    ensures Embedded(t)
  {
    assert t.fifo[|s.fifo|] == item;
    assert forall i :: 0 <= i < |s.fifo| ==> t.fifo[i] == s.fifo[i];
    assert forall x :: x in s.fifo ==> x in t.fifo;
    AppendOnce(s.fifo, item);
  }

  lemma LifecycleEmbedded(s: Slot, lastProcessed: nat)
    requires Embedded(s)
    ensures Embedded(TryLifecycle(s, lastProcessed))
  {
    GoawayEmbedded(s, lastProcessed);
    ResetEmbedded(s, lastProcessed);
    GoawayEmbedded(TryReset(s, lastProcessed), lastProcessed);
    ResetEmbedded(TryGoaway(s, lastProcessed), lastProcessed);
  }

  lemma GoawayEmbedded(s: Slot, lastProcessed: nat)
    requires Embedded(s)
    ensures Embedded(TryGoaway(s, lastProcessed))
  {
    if Ready(s, s.goaway, lastProcessed) {
      EnterReserved(s, TryGoaway(s, lastProcessed), s.goaway.item);
    }
  }

  lemma ResetEmbedded(s: Slot, lastProcessed: nat)
    requires Embedded(s)
    ensures Embedded(TryReset(s, lastProcessed))
  {
    if Ready(s, s.reset, lastProcessed) {
      EnterReserved(s, TryReset(s, lastProcessed), s.reset.item);
    }
  }

  lemma CompleteEmbedded(s: Slot, p: nat, t: Slot)
    requires Embedded(s) && p < |s.fifo|
    requires t == s.(
      fifo := s.fifo[..p] + s.fifo[p + 1..],
      goaway := if s.fifo[p].Goaway? && s.goaway.Queued? then Idle else s.goaway,
      reset := if s.fifo[p].Terminal? && s.reset.Queued? then Idle else s.reset)
    ensures Embedded(t)
  {
    assert forall i :: 0 <= i < |t.fifo| ==> t.fifo[i] == s.fifo[if i < p then i else i + 1];
    forall i | 0 <= i < |s.fifo| && i != p
      ensures s.fifo[i] in t.fifo && Once(s.fifo, i, p) && Once(s.fifo, p, i)
    {
      assert t.fifo[if i < p then i else i - 1] == s.fifo[i];
    }
    forall i, j | 0 <= i < j < |t.fifo|
      ensures Once(t.fifo, i, j)
    {
      assert Once(s.fifo, if i < p then i else i + 1, if j < p then j else j + 1);
    }
  }

  // Never left waiting.

  /** No reserved item waits for a frontier that is processed. */
  predicate NoneReady(s: Slot, lastProcessed: nat) {
    !Ready(s, s.goaway, lastProcessed) && !Ready(s, s.reset, lastProcessed)
  }

  lemma LifecycleEmpties(s: Slot, lastProcessed: nat)
    ensures NoneReady(TryLifecycle(s, lastProcessed), lastProcessed)
    ensures NoneReady(s, lastProcessed) ==> TryLifecycle(s, lastProcessed) == s
  {
  }

  // Every step.

  ghost predicate SlotOk(s: Slot, lastProcessed: nat) {
    Embedded(s) && NoneReady(s, lastProcessed)
  }

  ghost predicate AllOk(r: Reactor) {
    forall i :: 0 <= i < |r.slots| ==> SlotOk(r.slots[i], r.lastProcessed)
  }

  lemma WriteOk(r: Reactor, i: nat, s: Slot, t: Reactor)
    requires AllOk(r) && i < |r.slots| && SlotOk(s, r.lastProcessed)
    requires t.slots == r.slots[i := s] && t.lastProcessed == r.lastProcessed
    ensures AllOk(t)
  {
  }

  lemma FlushOk(r: Reactor, lastProcessed: nat, t: Reactor)
    requires AllOk(r) && t.slots == Flush(r.slots, lastProcessed) && t.lastProcessed == lastProcessed
    ensures AllOk(t)
  {
    forall i | 0 <= i < |t.slots|
      ensures SlotOk(t.slots[i], lastProcessed)
    {
      LifecycleEmbedded(r.slots[i], lastProcessed);
      LifecycleEmpties(r.slots[i], lastProcessed);
    }
  }

  lemma SendOk(r: Reactor, onOwner: bool, slot: nat, generation: nat, id: nat)
    requires AllOk(r)
    ensures AllOk(Send(r, onOwner, slot, generation, id).1)
  {
    var t := Send(r, onOwner, slot, generation, id).1;
    if t != r {
      EnterFrame(r.slots[slot], id);
      WriteOk(r, slot, t.slots[slot], t);
    }
  }

  lemma GoawayOk(r: Reactor, slot: nat, generation: nat, lastStream: nat)
    requires AllOk(r)
    ensures AllOk(SendGoaway(r, slot, generation, lastStream).1)
  {
    var t := SendGoaway(r, slot, generation, lastStream).1;
    if IsActive(r, slot, generation) && r.slots[slot].goaway == Idle {
      var s := r.slots[slot];
      var pending := Accept(s, Goaway(lastStream)).(
        goaway := Waiting(Goaway(lastStream), r.queue.nextSequence, Frontier(r)), resetFirst := s.reset.Waiting?);
      LifecycleEmbedded(pending, r.lastProcessed);
      LifecycleEmpties(pending, r.lastProcessed);
      WriteOk(r, slot, t.slots[slot], t);
    }
  }

  lemma TerminalOk(r: Reactor, slot: nat, generation: nat, terminal: Item)
    requires AllOk(r)
    ensures AllOk(SendTerminal(r, slot, generation, terminal).1)
  {
    var t := SendTerminal(r, slot, generation, terminal).1;
    if IsActive(r, slot, generation) && r.slots[slot].reset == Idle && terminal.Terminal? && terminal.stream != 0 {
      var s := r.slots[slot];
      var pending := Accept(s, terminal).(
        reset := Waiting(terminal, r.queue.nextSequence, Frontier(r)), resetFirst := !s.goaway.Waiting?);
      LifecycleEmbedded(pending, r.lastProcessed);
      LifecycleEmpties(pending, r.lastProcessed);
      WriteOk(r, slot, t.slots[slot], t);
    }
  }

  lemma DispatchOk(r: Reactor, succeeds: bool)
    requires AllOk(r)
    ensures AllOk(Dispatch(r, succeeds))
  {
    var t := Dispatch(r, succeeds);
    if t.slots != r.slots {
      var c := r.batch[0];
      if c.kind.Send? {
        EnterFrame(r.slots[c.slot], c.payload);
      }
      WriteOk(r, c.slot, t.slots[c.slot], t);
    }
  }

  lemma CompleteOk(r: Reactor, slot: nat, position: nat)
    requires AllOk(r)
    ensures AllOk(Complete(r, slot, position))
  {
    var t := Complete(r, slot, position);
    if slot < |r.slots| && r.slots[slot].state.Active? && position < |r.slots[slot].fifo| {
      CompleteEmbedded(r.slots[slot], position, t.slots[slot]);
      WriteOk(r, slot, t.slots[slot], t);
    }
  }

  lemma AdoptOk(r: Reactor, onOwner: bool, succeeds: bool)
    requires AllOk(r)
    ensures AllOk(Adopt(r, onOwner, succeeds))
  {
    var t, slot := Adopt(r, onOwner, succeeds), FindFree(r.slots, 0);
    if slot < |r.slots| && t.slots != r.slots {
      WriteOk(r, slot, t.slots[slot], t);
    }
  }

  lemma StepOk(r: Reactor, e: Event)
    requires AllOk(r)
    ensures AllOk(Step(r, e))
  {
    match e
    case ESend(onOwner, slot, generation, id) => SendOk(r, onOwner, slot, generation, id);
    case EGoaway(slot, generation, lastStream) => GoawayOk(r, slot, generation, lastStream);
    case ETerminal(slot, generation, terminal) => TerminalOk(r, slot, generation, terminal);
    case EAdopt(onOwner, succeeds) => AdoptOk(r, onOwner, succeeds);
    case EBegin(max) => if Step(r, e).slots != r.slots { FlushOk(r, r.lastProcessed, Step(r, e)); }
    case EDispatch(succeeds) => DispatchOk(r, succeeds);
    case EFinish => if Step(r, e) != r { FlushOk(r, r.batch[0].sequence, Step(r, e)); }
    case EClose(slot, generation) => if IsActive(r, slot, generation) { WriteOk(r, slot, CloseSlot(r.slots[slot]), Step(r, e)); }
    case EComplete(slot, position) => CompleteOk(r, slot, position);
    case _ =>
  }

  lemma {:induction false} RunOk(r: Reactor, events: seq<Event>)
    requires AllOk(r)
    ensures AllOk(Run(r, events))
    decreases |events|
  {
    if events != [] {
      StepOk(r, events[0]);
      RunOk(Step(r, events[0]), events[1..]);
    }
  }

  /** In every run a reserved item is linked in the TX FIFO exactly once while it is queued and not at all otherwise, so
      completing it frees it for the next one; and none is left waiting once its frontier is processed. */
  lemma ReservedItemsAreLinkedOnce(capacity: nat, connections: nat, events: seq<Event>, i: nat)
    requires i < |Run(Init(capacity, connections), events).slots|
    ensures var r := Run(Init(capacity, connections), events);
      Embedded(r.slots[i]) && NoneReady(r.slots[i], r.lastProcessed)
  {
    RunOk(Init(capacity, connections), events);
    assert SlotOk(Run(Init(capacity, connections), events).slots[i], Run(Init(capacity, connections), events).lastProcessed);
  }

  /** In every run the flush that follows an empty batch finds nothing to do. */
  lemma EmptyBatchFlushIsIdle(capacity: nat, connections: nat, events: seq<Event>)
    ensures var r := Run(Init(capacity, connections), events); Flush(r.slots, r.lastProcessed) == r.slots
  {
    var r := Run(Init(capacity, connections), events);
    RunOk(Init(capacity, connections), events);
    forall i | 0 <= i < |r.slots|
      ensures TryLifecycle(r.slots[i], r.lastProcessed) == r.slots[i]
    {
      assert SlotOk(r.slots[i], r.lastProcessed);
      LifecycleEmpties(r.slots[i], r.lastProcessed);
    }
  }
}
