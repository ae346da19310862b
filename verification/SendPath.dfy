/** How frames reach a connection's TX FIFO (reactor.c): direct owner sends, SEND commands
    through the queue, and the two reserved items (GOAWAY, RESET/REFUSED) held back behind a
    recorded FIFO frontier. Every function below is one atomic step of some thread; a run is
    any interleaving of them, so user callbacks are arbitrary owner steps inside a dispatch.

    `accepted` and `entered` are histories of one connection generation: what was admitted
    and what entered the TX FIFO. The code keeps no such fields.
 */
module SendPath {
  import opened Status
  import opened CommandSequence
  import Q = CommandQueue

  const COMMAND_BATCH: nat := 64
  const CONNECTION_GENERATION_MAX: nat := 0xfffe_ffff
  const UINT32_MAX: nat := 0xffff_ffff

  datatype Item =
    | Frame(id: nat)
    | Goaway(lastStream: nat)
    | Terminal(refused: bool, stream: nat, reason: nat)

  /** An embedded reserved item: the busy and enqueued flags and the frontier it waits for.
      `at` is the issue index of that frontier (history). */
  datatype Reserved = Idle | Waiting(item: Item, after: nat, at: nat) | Queued(item: Item)

  datatype SlotState = FreeSlot | ReservedSlot | Active

  datatype Slot = Slot(
    generation: nat,
    state: SlotState,
    fifo: seq<Item>,
    goaway: Reserved,
    reset: Reserved,
    resetFirst: bool,
    accepted: seq<Item>,
    entered: seq<Item>)

  /** `batch` is the unprocessed part of the popped batch, so command_dispatching holds exactly
      while it is nonempty; `midCommand` says that the effect of batch[0] has happened but
      last_processed_command_sequence has not advanced yet. `processed` counts commands. */
  datatype Reactor = Reactor(
    queue: Q.Queue,
    batch: seq<Q.Command>,
    midCommand: bool,
    lastProcessed: nat,
    processed: nat,
    started: bool,
    accepting: bool,
    slots: seq<Slot>)

  function FreshSlot(generation: nat, state: SlotState): Slot {
    Slot(generation, state, [], Idle, Idle, false, [], [])
  }

  function Init(capacity: nat, connections: nat): Reactor {
    Reactor(Q.Init(capacity), [], false, 0, 0, false, false, seq(connections, _ => FreshSlot(0, FreeSlot)))
  }

  predicate IsActive(r: Reactor, slot: nat, generation: nat) {
    slot < |r.slots| && r.slots[slot].state.Active? && r.slots[slot].generation == generation
  }

  // tr_slot_live
  predicate IsLive(r: Reactor, slot: nat, generation: nat) {
    slot < |r.slots| && !r.slots[slot].state.FreeSlot? && r.slots[slot].generation == generation
  }

  function Accept(s: Slot, item: Item): Slot {
    s.(accepted := s.accepted + [item])
  }

  // tr_enqueue_tx_item_owner
  function Enter(s: Slot, item: Item): Slot {
    s.(fifo := s.fifo + [item], entered := s.entered + [item])
  }

  // tr_connection_try_enqueue_reserved_tx, once per reserved item
  predicate Ready(s: Slot, reserved: Reserved, lastProcessed: nat) {
    s.state.Active? && reserved.Waiting? && AfterEq(lastProcessed, reserved.after)
  }

  function TryGoaway(s: Slot, lastProcessed: nat): Slot {
    if Ready(s, s.goaway, lastProcessed) then Enter(s.(goaway := Queued(s.goaway.item)), s.goaway.item) else s
  }

  function TryReset(s: Slot, lastProcessed: nat): Slot {
    if Ready(s, s.reset, lastProcessed) then Enter(s.(reset := Queued(s.reset.item)), s.reset.item) else s
  }

  // tr_connection_try_enqueue_lifecycle_tx
  function TryLifecycle(s: Slot, lastProcessed: nat): Slot {
    if s.resetFirst then TryGoaway(TryReset(s, lastProcessed), lastProcessed)
    else TryReset(TryGoaway(s, lastProcessed), lastProcessed)
  }

  // tr_reactor_flush_lifecycle_tx
  function Flush(slots: seq<Slot>, lastProcessed: nat): (flushed: seq<Slot>)
    ensures |flushed| == |slots|
    ensures forall i :: 0 <= i < |slots| ==> flushed[i] == TryLifecycle(slots[i], lastProcessed)
  {
    seq(|slots|, i requires 0 <= i < |slots| => TryLifecycle(slots[i], lastProcessed))
  }

  /** The admission tail of tr_reactor_sendv_limited. */
  function Send(r: Reactor, onOwner: bool, slot: nat, generation: nat, id: nat): (Status, Reactor) {
    if onOwner && r.batch == [] && Q.Contents(r.queue) == [] then
      if !r.accepting then (Closed, r)
      else if !IsActive(r, slot, generation) then (Stale, r)
      else (Ok, r.(slots := r.slots[slot := Enter(Accept(r.slots[slot], Frame(id)), Frame(id))]))
    else if !r.started || !r.accepting then (Closed, r)
    else if !IsLive(r, slot, generation) then (Stale, r)
    else
      var p := Q.Push(r.queue, Q.Command(Q.Send, slot, generation, id, 0));
      if p.status.Ok? then
        (Ok, r.(queue := p.queue, slots := r.slots[slot := Accept(r.slots[slot], Frame(id))]))
      else (p.status, r)
  }

  /** The push of a queued send that found its connection live, when the connection was closed between that test
      and the push. The caller is told it was accepted; there is no connection left to send it on. */
  function LateSend(r: Reactor, slot: nat, generation: nat, id: nat): Reactor {
    if |r.slots| <= slot || r.slots[slot].generation < generation || IsLive(r, slot, generation) then r
    else r.(queue := Q.Push(r.queue, Q.Command(Q.Send, slot, generation, id, 0)).queue)
  }

  /** The issue index of the newest accepted command. */
  function Frontier(r: Reactor): nat {
    r.processed + |r.batch| + |Q.Contents(r.queue)|
  }

  // tr_reactor_send_goaway_on_owner
  function SendGoaway(r: Reactor, slot: nat, generation: nat, lastStream: nat): (Status, Reactor) {
    if |r.slots| <= slot then (Invalid, r)
    else if !IsActive(r, slot, generation) then (Stale, r)
    else
      var s := r.slots[slot];
      match s.goaway
      case Waiting(item, _, _) => (if item == Goaway(lastStream) then Ok else State, r)
      case Queued(item) => (if item == Goaway(lastStream) then Ok else State, r)
      case Idle =>
        var pending := Accept(s, Goaway(lastStream)).(
          goaway := Waiting(Goaway(lastStream), r.queue.nextSequence, Frontier(r)),
          resetFirst := s.reset.Waiting?);
        (Ok, r.(slots := r.slots[slot := TryLifecycle(pending, r.lastProcessed)]))
  }

  // tr_reactor_send_stream_terminal_on_owner
  function SendTerminal(r: Reactor, slot: nat, generation: nat, terminal: Item): (Status, Reactor) {
    if |r.slots| <= slot || !terminal.Terminal? || terminal.stream == 0 then (Invalid, r)
    else if !IsActive(r, slot, generation) then (Stale, r)
    else
      var s := r.slots[slot];
      match s.reset
      case Waiting(item, _, _) => (if item == terminal then Ok else Again, r)
      case Queued(item) => (if item == terminal then Ok else Again, r)
      case Idle =>
        var pending := Accept(s, terminal).(
          reset := Waiting(terminal, r.queue.nextSequence, Frontier(r)),
          resetFirst := !s.goaway.Waiting?);
        (Ok, r.(slots := r.slots[slot := TryLifecycle(pending, r.lastProcessed)]))
  }

  /** tr_slot_reserve: the first free slot whose generation can still step. */
  function FindFree(slots: seq<Slot>, from: nat): (slot: nat)
    ensures slot < |slots| ==>
      from <= slot && slots[slot].state.FreeSlot? && slots[slot].generation < CONNECTION_GENERATION_MAX
    decreases |slots| - from
  {
    if |slots| <= from then |slots|
    else if slots[from].state.FreeSlot? && slots[from].generation < CONNECTION_GENERATION_MAX then from
    else FindFree(slots, from + 1)
  }

  /** tr_reactor_adopt_fd: on the owner the connection becomes active at once (if adoption
      succeeds), elsewhere the slot is reserved and an ADOPT command is queued. */
  function Adopt(r: Reactor, onOwner: bool, succeeds: bool): Reactor {
    var slot := FindFree(r.slots, 0);
    if !r.accepting || (!onOwner && !r.started) || |r.slots| <= slot then r
    else
      var generation := r.slots[slot].generation + 1;
      if onOwner then
        r.(slots := r.slots[slot := FreshSlot(generation, if succeeds then Active else FreeSlot)])
      else
        var p := Q.Push(r.queue, Q.Command(Q.AdoptFd, slot, generation, 0, 0));
        r.(queue := p.queue,
           slots := r.slots[slot := FreshSlot(generation, if p.status.Ok? then ReservedSlot else FreeSlot)])
  }

  // tr_connection_close_internal, as far as the send path is concerned
  function CloseSlot(s: Slot): Slot {
    s.(state := FreeSlot, fifo := [], goaway := Idle, reset := Idle)
  }

  function CloseConnection(r: Reactor, slot: nat, generation: nat): Reactor {
    if IsActive(r, slot, generation) then r.(slots := r.slots[slot := CloseSlot(r.slots[slot])]) else r
  }

  /** tr_connection_complete_tx: the item at `position` leaves the FIFO and, if reserved,
      its embedded slot becomes free again. */
  function Complete(r: Reactor, slot: nat, position: nat): Reactor {
    if |r.slots| <= slot || !r.slots[slot].state.Active? || |r.slots[slot].fifo| <= position then r
    else
      var s := r.slots[slot];
      var item := s.fifo[position];
      r.(slots := r.slots[slot := s.(
        fifo := s.fifo[..position] + s.fifo[position + 1..],
        goaway := if item.Goaway? && s.goaway.Queued? then Idle else s.goaway,
        reset := if item.Terminal? && s.reset.Queued? then Idle else s.reset)])
  }

  /** tr_process_commands up to the dispatch loop. */
  function BeginBatch(r: Reactor, max: nat): Reactor {
    if r.batch != [] then r
    else
      var (out, queue) := Q.PopBatch(r.queue, Q.Min(max, COMMAND_BATCH));
      r.(queue := queue, batch := out, slots := if out == [] then Flush(r.slots, r.lastProcessed) else r.slots)
  }

  /** The switch of tr_process_commands; `succeeds` is the outcome of tr_connection_adopt. */
  function Dispatch(r: Reactor, succeeds: bool): Reactor {
    if r.batch == [] || r.midCommand then r
    else
      var c := r.batch[0];
      var mid := r.(midCommand := true);
      match c.kind
      case Send =>
        if IsActive(r, c.slot, c.generation)
        then mid.(slots := r.slots[c.slot := Enter(r.slots[c.slot], Frame(c.payload))]) else mid
      case AdoptFd =>
        if c.slot < |r.slots|
        then mid.(slots := r.slots[c.slot := r.slots[c.slot].(
          generation := c.generation, state := if succeeds then Active else FreeSlot,
          fifo := [], goaway := Idle, reset := Idle, resetFirst := false)]) else mid
      case CloseConn => CloseConnection(mid, c.slot, c.generation)
      case Abort => CloseConnection(mid, c.slot, c.generation)
      case _ => mid
  }

  /** The end of one loop iteration: advance, then flush. */
  function Finish(r: Reactor): Reactor {
    if r.batch == [] || !r.midCommand then r
    else
      r.(batch := r.batch[1..], midCommand := false,
         lastProcessed := r.batch[0].sequence, processed := r.processed + 1,
         slots := Flush(r.slots, r.batch[0].sequence))
  }

  datatype Event =
    | ESend(onOwner: bool, slot: nat, generation: nat, id: nat)
    | ELateSend(slot: nat, generation: nat, id: nat)
    | EGoaway(slot: nat, generation: nat, lastStream: nat)
    | ETerminal(slot: nat, generation: nat, terminal: Item)
    | EAdopt(onOwner: bool, succeeds: bool)
    | ESubmit(command: Q.Command)
    | ESubmitWait(command: Q.Command, expectedGeneration: nat)
    | EStop(command: Q.Command)
    | EOpen
    | EShut
    | EBegin(max: nat)
    | EDispatch(succeeds: bool)
    | EFinish
    | EClose(slot: nat, generation: nat)
    | EComplete(slot: nat, position: nat)
    | EAdmission(started: bool, accepting: bool)

  /** SEND and ADOPT commands are built only by Send and Adopt. */
  predicate Foreign(c: Q.Command) {
    !c.kind.Send? && !c.kind.AdoptFd?
  }

  function Step(r: Reactor, e: Event): Reactor {
    match e
    case ESend(onOwner, slot, generation, id) => Send(r, onOwner, slot, generation, id).1
    case ELateSend(slot, generation, id) => LateSend(r, slot, generation, id)
    case EGoaway(slot, generation, lastStream) => SendGoaway(r, slot, generation, lastStream).1
    case ETerminal(slot, generation, terminal) => SendTerminal(r, slot, generation, terminal).1
    case EAdopt(onOwner, succeeds) => Adopt(r, onOwner, succeeds)
    case ESubmit(c) => if Foreign(c) then r.(queue := Q.Push(r.queue, c).queue) else r
    case ESubmitWait(c, g) => if Foreign(c) then r.(queue := Q.PushWait(r.queue, c, g).queue) else r
    case EStop(c) => r.(queue := Q.PushStop(r.queue, c).queue)
    case EOpen => r.(queue := Q.WaitOpen(r.queue).queue)
    case EShut => r.(queue := Q.WaitClose(r.queue))
    case EBegin(max) => BeginBatch(r, max)
    case EDispatch(succeeds) => Dispatch(r, succeeds)
    case EFinish => Finish(r)
    case EClose(slot, generation) => CloseConnection(r, slot, generation)
    case EComplete(slot, position) => Complete(r, slot, position)
    case EAdmission(started, accepting) => r.(started := started, accepting := accepting)
  }

  function Run(r: Reactor, events: seq<Event>): Reactor
    decreases |events|
  {
    if events == [] then r else Run(Step(r, events[0]), events[1..])
  }
}
