/** What a call on the send path does (reactor.c): the exact answer of every send, what an answer Ok obliges the
    reactor to, and that the reactor can always work off what it accepted. */
module SendEffects {
  import opened Status
  import opened SendPath
  import opened SendOrder
  import Q = CommandQueue

  // One call.

  /** A queued command would be taken. */
  predicate RingHasRoom(r: Reactor) {
    !r.queue.stopClosed && |r.queue.pending| < r.queue.capacity
  }

  /** Only the connection in `slot` is concerned, and it stays the same connection. */
  predicate OnlySlot(r: Reactor, next: Reactor, slot: nat) {
    && slot < |r.slots| == |next.slots|
    && next.slots[slot].generation == r.slots[slot].generation && next.slots[slot].state == r.slots[slot].state
    && (forall i :: 0 <= i < |r.slots| && i != slot ==> next.slots[i] == r.slots[i])
    && next.started == r.started && next.accepting == r.accepting
  }

  /** What stands between now and the wire for the connection in `slot`: what entered, then what is upcoming. */
  ghost function Course(r: Reactor, slot: nat): seq<Item>
    requires slot < |r.slots|
  {
    var s := r.slots[slot];
    s.entered + Upcoming(Outstanding(r), r.processed, Held(s), slot, s.generation)
  }

  /** The exact answer of a send. On the owner with nothing outstanding it needs an active connection; otherwise a
      started reactor, a live connection and room in the ring. */
  function SendAnswer(r: Reactor, onOwner: bool, slot: nat, generation: nat): Status {
    var direct := onOwner && Outstanding(r) == [];
    if !r.accepting || (!direct && !r.started) then Closed
    else if !(if direct then IsActive(r, slot, generation) else IsLive(r, slot, generation)) then Stale
    else if direct || RingHasRoom(r) then Ok
    else if r.queue.stopClosed then Closed
    else Again
  }

  lemma NothingOutstanding(r: Reactor)
    ensures Outstanding(r) == [] <==> r.batch == [] && Q.Contents(r.queue) == []
  {
  }

  /** The frame went straight into the FIFO. */
  predicate SentDirectly(r: Reactor, next: Reactor, slot: nat, item: Item) {
    && OnlySlot(r, next, slot) && next.slots[slot].accepted == r.slots[slot].accepted + [item]
    && next.slots[slot].entered == r.slots[slot].entered + [item] && next.slots[slot].fifo == r.slots[slot].fifo + [item]
    && Outstanding(next) == Outstanding(r)
  }

  /** The frame is outstanding behind everything else. */
  predicate SentByCommand(r: Reactor, next: Reactor, slot: nat, generation: nat, item: Item) {
    && OnlySlot(r, next, slot) && next.slots[slot].accepted == r.slots[slot].accepted + [item]
    && next.slots[slot].entered == r.slots[slot].entered && next.slots[slot].fifo == r.slots[slot].fifo
    && |Outstanding(next)| == |Outstanding(r)| + 1 && Outstanding(r) <= Outstanding(next)
    && ItemsOf(Outstanding(next)[|Outstanding(r)|], slot, generation) == [item]
  }

  /** A send that answers Ok has accepted exactly its frame, for exactly its connection, and the frame is in the FIFO
      or outstanding behind everything else. Any other answer changes nothing. */
  lemma SendDoesWhatItSays(r: Reactor, onOwner: bool, slot: nat, generation: nat, id: nat)
    requires Inv(r)
    ensures var (status, next) := Send(r, onOwner, slot, generation, id);
      && status == SendAnswer(r, onOwner, slot, generation)
      && (if status != Ok then next == r
          else if onOwner && Outstanding(r) == [] then SentDirectly(r, next, slot, Frame(id))
          else SentByCommand(r, next, slot, generation, Frame(id)))
  {
    NothingOutstanding(r);
    var (status, next) := Send(r, onOwner, slot, generation, id);
    if status == Ok && onOwner && Outstanding(r) == [] {
      SameCommands(r, next.slots);
    } else if status == Ok {
      QueuedSend(r, slot, generation, id, next);
    }
  }

  lemma QueuedSend(r: Reactor, slot: nat, generation: nat, id: nat, next: Reactor)
    requires Inv(r) && IsLive(r, slot, generation)
    requires var p := Q.Push(r.queue, Q.Command(Q.Send, slot, generation, id, 0));
      && p.status.Ok?
      && next == r.(queue := p.queue, slots := r.slots[slot := Accept(r.slots[slot], Frame(id))])
    ensures SentByCommand(r, next, slot, generation, Frame(id))
  {
    var c := Q.Command(Q.Send, slot, generation, id, 0);
    PushAppends(r.queue, c);
    NumberedAppend(r, next.queue, c, next);
  }

  /** The exact answer of GOAWAY: Ok for a new one and for one that repeats the one under way. */
  function GoawayAnswer(r: Reactor, slot: nat, generation: nat, lastStream: nat): Status {
    if |r.slots| <= slot then Invalid
    else if !IsActive(r, slot, generation) then Stale
    else if r.slots[slot].goaway.Idle? || r.slots[slot].goaway.item == Goaway(lastStream) then Ok
    else State
  }

  /** A reserved item that is new is accepted and either in the FIFO or held back; nothing else changes. */
  predicate Reserves(r: Reactor, next: Reactor, slot: nat, item: Item) {
    && OnlySlot(r, next, slot) && Outstanding(next) == Outstanding(r)
    && next.slots[slot].accepted == r.slots[slot].accepted + [item]
    && r.slots[slot].entered <= next.slots[slot].entered
    && (item in next.slots[slot].entered[|r.slots[slot].entered|..]
        || exists w :: w in Held(next.slots[slot]) && w.item == item)
  }

  lemma GoawayDoesWhatItSays(r: Reactor, slot: nat, generation: nat, lastStream: nat)
    requires Inv(r)
    ensures var (status, next) := SendGoaway(r, slot, generation, lastStream);
      && status == GoawayAnswer(r, slot, generation, lastStream)
      && (if status == Ok && r.slots[slot].goaway.Idle? then Reserves(r, next, slot, Goaway(lastStream)) else next == r)
  {
    var (status, next) := SendGoaway(r, slot, generation, lastStream);
    if status == Ok && r.slots[slot].goaway.Idle? {
      var s := r.slots[slot];
      var w := Waiting(Goaway(lastStream), r.queue.nextSequence, Frontier(r));
      var pending := Accept(s, Goaway(lastStream)).(goaway := w, resetFirst := s.reset.Waiting?);
      SameCommands(r, next.slots);
      LifecycleKeeps(pending, r.lastProcessed);
      assert pending.entered == s.entered;
    }
  }

  function TerminalAnswer(r: Reactor, slot: nat, generation: nat, terminal: Item): Status {
    if |r.slots| <= slot || !terminal.Terminal? || terminal.stream == 0 then Invalid
    else if !IsActive(r, slot, generation) then Stale
    else if r.slots[slot].reset.Idle? || r.slots[slot].reset.item == terminal then Ok
    else Again
  }

  lemma TerminalDoesWhatItSays(r: Reactor, slot: nat, generation: nat, terminal: Item)
    requires Inv(r)
    ensures var (status, next) := SendTerminal(r, slot, generation, terminal);
      && status == TerminalAnswer(r, slot, generation, terminal)
      && (if status == Ok && r.slots[slot].reset.Idle? then Reserves(r, next, slot, terminal) else next == r)
  {
    var (status, next) := SendTerminal(r, slot, generation, terminal);
    if status == Ok && r.slots[slot].reset.Idle? {
      var s := r.slots[slot];
      var w := Waiting(terminal, r.queue.nextSequence, Frontier(r));
      var pending := Accept(s, terminal).(reset := w, resetFirst := !s.goaway.Waiting?);
      SameCommands(r, next.slots);
      LifecycleKeeps(pending, r.lastProcessed);
      assert pending.entered == s.entered;
    }
  }

  /** A try leaves acceptance alone and puts each waiting item into the FIFO or keeps it waiting. */
  predicate Tried(s: Slot, t: Slot) {
    && t.state == s.state && t.generation == s.generation && t.accepted == s.accepted && s.entered <= t.entered
    && (s.goaway.Waiting? ==> t.goaway == s.goaway || s.goaway.item in t.entered[|s.entered|..])
    && (s.reset.Waiting? ==> t.reset == s.reset || s.reset.item in t.entered[|s.entered|..])
  }

  lemma GoawayTried(s: Slot, lastProcessed: nat)
    ensures Tried(s, TryGoaway(s, lastProcessed)) && TryGoaway(s, lastProcessed).reset == s.reset
  {
    var t := TryGoaway(s, lastProcessed);
    if t != s {
      assert t.entered[|s.entered|..][0] == s.goaway.item;
    }
  }

  lemma ResetTried(s: Slot, lastProcessed: nat)
    ensures Tried(s, TryReset(s, lastProcessed)) && TryReset(s, lastProcessed).goaway == s.goaway
  {
    var t := TryReset(s, lastProcessed);
    if t != s {
      assert t.entered[|s.entered|..][0] == s.reset.item;
    }
  }

  lemma TriedOnward(s: Slot, u: Slot, t: Slot)
    requires Tried(s, u) && Tried(u, t)
    requires u.goaway == s.goaway || u.reset == s.reset
    ensures Tried(s, t)
  {
    assert t.entered[|s.entered|..] == u.entered[|s.entered|..] + t.entered[|u.entered|..];
  }

  lemma LifecycleKeeps(s: Slot, lastProcessed: nat)
    ensures var t := TryLifecycle(s, lastProcessed);
      && Tried(s, t)
      && (s.goaway.Waiting? ==> s.goaway.item in t.entered[|s.entered|..] || (s.goaway in Held(t) && t.goaway == s.goaway))
      && (s.reset.Waiting? ==> s.reset.item in t.entered[|s.entered|..] || (s.reset in Held(t) && t.reset == s.reset))
  {
    if s.resetFirst {
      ResetTried(s, lastProcessed);
      GoawayTried(TryReset(s, lastProcessed), lastProcessed);
      TriedOnward(s, TryReset(s, lastProcessed), TryLifecycle(s, lastProcessed));
    } else {
      GoawayTried(s, lastProcessed);
      ResetTried(TryGoaway(s, lastProcessed), lastProcessed);
      TriedOnward(s, TryGoaway(s, lastProcessed), TryLifecycle(s, lastProcessed));
    }
  }

  // Every run.

  /** What the answer to one event promises to the connection in `slot`. */
  function PromisedBy(r: Reactor, e: Event, slot: nat): seq<Item>
    requires slot < |r.slots|
  {
    match e
    case ESend(onOwner, i, generation, id) =>
      if i == slot && SendAnswer(r, onOwner, i, generation) == Ok then [Frame(id)] else []
    case EGoaway(i, generation, lastStream) =>
      if i == slot && r.slots[slot].goaway.Idle? && GoawayAnswer(r, i, generation, lastStream) == Ok
      then [Goaway(lastStream)] else []
    case ETerminal(i, generation, terminal) =>
      if i == slot && r.slots[slot].reset.Idle? && TerminalAnswer(r, i, generation, terminal) == Ok then [terminal] else []
    case _ => []
  }

  /** What callers were promised on the present connection of `slot`, in the order of the answers. */
  function Promised(r: Reactor, events: seq<Event>, slot: nat): seq<Item>
    requires slot < |r.slots|
    decreases |events|
  {
    if events == [] then [] else
      var last := |events| - 1;
      SlotCount(r, events[..last]);
      var before := Run(r, events[..last]);
      StepSlotCount(before, events[last]);
      if Step(before, events[last]).slots[slot].generation != before.slots[slot].generation then []
      else Promised(r, events[..last], slot) + PromisedBy(before, events[last], slot)
  }

  /** From `a` to `b`, acceptance grew by exactly what was promised, or the connection is another one. */
  predicate Grown(a: Slot, b: Slot, promised: seq<Item>) {
    b.accepted == if b.generation != a.generation then [] else a.accepted + promised
  }

  lemma CallKeepsPromises(r: Reactor, e: Event, slot: nat)
    requires Inv(r) && slot < |r.slots| && (e.ESend? || e.EGoaway? || e.ETerminal?)
    ensures |Step(r, e).slots| == |r.slots| && Grown(r.slots[slot], Step(r, e).slots[slot], PromisedBy(r, e, slot))
  {
    match e {
      case ESend(onOwner, i, generation, id) => SendDoesWhatItSays(r, onOwner, i, generation, id);
      case EGoaway(i, generation, lastStream) => GoawayDoesWhatItSays(r, i, generation, lastStream);
      case ETerminal(i, generation, terminal) => TerminalDoesWhatItSays(r, i, generation, terminal);
    }
  }

  lemma TurnKeepsPromises(r: Reactor, e: Event, slot: nat)
    requires Inv(r) && slot < |r.slots| && (e.EBegin? || e.EDispatch? || e.EFinish? || e.EAdopt?)
    ensures |Step(r, e).slots| == |r.slots| && Grown(r.slots[slot], Step(r, e).slots[slot], [])
  {
    StepSlotCount(r, e);
    match e {
      case EBegin(max) => LifecycleKeeps(r.slots[slot], r.lastProcessed);
      case EFinish =>
        if r.batch != [] {
          LifecycleKeeps(r.slots[slot], r.batch[0].sequence);
        }
      case EDispatch(succeeds) => DispatchAccepts(r, succeeds, slot);
      case EAdopt(onOwner, succeeds) => AdoptAccepts(r, onOwner, succeeds, slot);
    }
  }

  lemma StepKeepsPromises(r: Reactor, e: Event, slot: nat)
    requires Inv(r) && slot < |r.slots|
    ensures |Step(r, e).slots| == |r.slots| && Grown(r.slots[slot], Step(r, e).slots[slot], PromisedBy(r, e, slot))
  {
    if e.ESend? || e.EGoaway? || e.ETerminal? {
      CallKeepsPromises(r, e, slot);
    } else if e.EBegin? || e.EDispatch? || e.EFinish? || e.EAdopt? {
      TurnKeepsPromises(r, e, slot);
    }
  }

  lemma AdoptAccepts(r: Reactor, onOwner: bool, succeeds: bool, slot: nat)
    requires slot < |r.slots|
    ensures var t := Adopt(r, onOwner, succeeds).slots[slot];
      t.accepted == if t.generation != r.slots[slot].generation then [] else r.slots[slot].accepted
  {
  }

  lemma DispatchAccepts(r: Reactor, succeeds: bool, slot: nat)
    requires Inv(r) && slot < |r.slots|
    ensures var t := Dispatch(r, succeeds).slots[slot];
      t.accepted == r.slots[slot].accepted && t.generation == r.slots[slot].generation
  {
    if r.batch != [] && !r.midCommand && r.batch[0].kind.AdoptFd? && r.batch[0].slot == slot {
      assert Outstanding(r)[0] == r.batch[0];
      assert SlotInv(r.slots[slot], slot, Outstanding(r), r.processed);
    }
  }

  lemma RunSnoc(r: Reactor, events: seq<Event>, e: Event)
    ensures Run(r, events + [e]) == Step(Run(r, events), e)
    decreases |events|
  {
    if events == [] {
      assert (events + [e])[1..] == [];
    } else {
      RunSnoc(Step(r, events[0]), events[1..], e);
      assert (events + [e])[1..] == events[1..] + [e];
    }
  }

  /** In every run, what was accepted for a connection is exactly what its callers were promised, in that order, and
      nothing of it is lost: it has entered the FIFO or is on its course there. */
  lemma {:induction false} PromisesAreKept(capacity: nat, connections: nat, events: seq<Event>, slot: nat)
    requires 0 < capacity <= UINT32_MAX && slot < connections
    ensures var r := Run(Init(capacity, connections), events);
      && slot < |r.slots| && r.slots[slot].accepted == Promised(Init(capacity, connections), events, slot)
      && (r.slots[slot].state.Active? ==> Course(r, slot) == Promised(Init(capacity, connections), events, slot))
    decreases |events|
  {
    var r0 := Init(capacity, connections);
    InitInv(capacity, connections);
    if events != [] {
      var last := |events| - 1;
      PromisesAreKept(capacity, connections, events[..last], slot);
      RunKeepsInv(r0, events[..last]);
      assert events == events[..last] + [events[last]];
      RunSnoc(r0, events[..last], events[last]);
      StepKeepsPromises(Run(r0, events[..last]), events[last], slot);
    }
    RunKeepsInv(r0, events);
    var r := Run(r0, events);
    assert SlotInv(r.slots[slot], slot, Outstanding(r), r.processed);
  }

  // Connections come and go.

  /** Closing an active connection ends it and drops its queue; closing any other does nothing. */
  lemma CloseEnds(r: Reactor, slot: nat, generation: nat)
    ensures var next := Step(r, EClose(slot, generation));
      if IsActive(r, slot, generation) then
        && !IsLive(next, slot, generation) && next.slots[slot].fifo == [] && next.slots[slot].generation == generation
        && (forall i :: 0 <= i < |r.slots| && i != slot ==> next.slots[i] == r.slots[i])
        && Outstanding(next) == Outstanding(r)
      else next == r
  {
  }

  /** Adoption on the owner yields a fresh active connection under a generation of its own, exactly when the reactor
      accepts, some slot is free and the descriptor could be taken. */
  lemma AdoptYieldsConnection(r: Reactor, succeeds: bool)
    ensures var next := Adopt(r, true, succeeds);
      var slot := FindFree(r.slots, 0);
      && (r.accepting && succeeds && slot < |r.slots| ==>
            && next.slots[slot] == FreshSlot(r.slots[slot].generation + 1, Active)
            && IsActive(next, slot, r.slots[slot].generation + 1)
            && (forall i :: 0 <= i < |r.slots| && i != slot ==> next.slots[i] == r.slots[i]))
      && (!r.accepting || |r.slots| <= slot ==> next == r)
  {
  }

  /** Adoption from elsewhere reserves the slot under its next generation and queues the command that will activate
      it, exactly when the reactor is started and accepts, some slot is free and the ring has room; without room the
      generation is spent and nothing is queued. */
  lemma AdoptReservesSlot(r: Reactor, succeeds: bool)
    requires Q.Valid(r.queue)
    ensures var next := Adopt(r, false, succeeds);
      var slot := FindFree(r.slots, 0);
      if !r.accepting || !r.started || |r.slots| <= slot then next == r else
        && |next.slots| == |r.slots| && (forall i :: 0 <= i < |r.slots| && i != slot ==> next.slots[i] == r.slots[i])
        && next.slots[slot] == FreshSlot(r.slots[slot].generation + 1, if RingHasRoom(r) then ReservedSlot else FreeSlot)
        && (if !RingHasRoom(r) then next.queue == r.queue else
              |Q.Contents(next.queue)| == |Q.Contents(r.queue)| + 1 &&
              var c := Q.Contents(next.queue)[|Q.Contents(r.queue)|];
              c.kind.AdoptFd? && c.slot == slot && c.generation == r.slots[slot].generation + 1)
  {
  }

  lemma {:induction false} FindFreeFinds(slots: seq<Slot>, from: nat)
    ensures FindFree(slots, from) < |slots| <==>
      exists i :: from <= i < |slots| && slots[i].state.FreeSlot? && slots[i].generation < CONNECTION_GENERATION_MAX
    decreases |slots| - from
  {
    if from < |slots| && !(slots[from].state.FreeSlot? && slots[from].generation < CONNECTION_GENERATION_MAX) {
      FindFreeFinds(slots, from + 1);
    }
  }

  /** What dispatching the next command does to the connection it names. */
  lemma DispatchActs(r: Reactor, succeeds: bool)
    requires Inv(r) && r.batch != [] && !r.midCommand
    ensures var c := r.batch[0]; var next := Dispatch(r, succeeds);
      && next.midCommand
      && (c.kind.Send? && IsActive(r, c.slot, c.generation) ==>
            next.slots[c.slot].fifo == r.slots[c.slot].fifo + [Frame(c.payload)])
      && (c.kind.AdoptFd? && c.slot < |r.slots| ==> (IsActive(next, c.slot, c.generation) <==> succeeds))
      && ((c.kind.CloseConn? || c.kind.Abort?) ==> !IsActive(next, c.slot, c.generation))
      && (forall i :: 0 <= i < |r.slots| && i != c.slot ==> next.slots[i] == r.slots[i])
  {
  }

  // Working off what was accepted.

  function Remaining(r: Reactor): nat {
    3 * |Outstanding(r)| + if r.batch == [] then 2 else if r.midCommand then 0 else 1
  }

  /** The next thing the owner does. */
  function NextTurn(r: Reactor): Event {
    if r.batch == [] then EBegin(1) else if r.midCommand then EFinish else EDispatch(true)
  }

  lemma BeginTakesOne(r: Reactor)
    requires Inv(r) && Outstanding(r) != [] && r.batch == []
    ensures var next := BeginBatch(r, 1); next.batch != [] && Outstanding(next) == Outstanding(r)
  {
    Q.PopTakesPrefix(r.queue, 1);
    var (out, queue) := Q.PopBatch(r.queue, 1);
    assert Outstanding(r) == out + Q.Contents(queue);
    assert out != [];
    NothingMid(r, BeginBatch(r, 1));
  }

  lemma NothingMid(r: Reactor, next: Reactor)
    requires Numbered(r) && r.batch == [] && next.midCommand == r.midCommand
    ensures Outstanding(next) == next.batch + Q.Contents(next.queue)
  {
  }

  lemma FinishDropsOne(r: Reactor)
    requires r.batch != [] && r.midCommand
    ensures Outstanding(Finish(r)) == Outstanding(r)[1..]
  {
    assert Outstanding(r)[1..] == r.batch[1..] + Q.Contents(r.queue);
  }

  lemma DispatchKeepsLength(r: Reactor)
    requires r.batch != [] && !r.midCommand
    ensures |Outstanding(Dispatch(r, true))| == |Outstanding(r)| && Dispatch(r, true).midCommand && Dispatch(r, true).batch != []
  {
  }

  lemma TurnMakesProgress(r: Reactor)
    requires Inv(r) && Outstanding(r) != []
    ensures Remaining(Step(r, NextTurn(r))) < Remaining(r)
  {
    if r.batch == [] {
      BeginTakesOne(r);
    } else if r.midCommand {
      FinishDropsOne(r);
    } else {
      DispatchKeepsLength(r);
    }
  }

  /** From every state of every run the owner's turns alone work off every outstanding command; then every active
      connection's FIFO has received all that was accepted for it. */
  lemma {:induction false} CommandsDrain(r: Reactor) returns (events: seq<Event>)
    requires Inv(r)
    ensures var t := Run(r, events);
      && Inv(t) && Outstanding(t) == []
      && forall i :: 0 <= i < |t.slots| && t.slots[i].state.Active? ==> t.slots[i].entered == t.slots[i].accepted
    decreases Remaining(r)
  {
    if Outstanding(r) == [] {
      events := [];
      forall i | 0 <= i < |r.slots| && r.slots[i].state.Active?
        ensures r.slots[i].entered == r.slots[i].accepted
      {
        assert SlotInv(r.slots[i], i, [], r.processed);
        assert Held(r.slots[i]) == [];
      }
    } else {
      TurnMakesProgress(r);
      StepKeepsInv(r, NextTurn(r));
      var rest := CommandsDrain(Step(r, NextTurn(r)));
      events := [NextTurn(r)] + rest;
      assert events[1..] == rest;
    }
  }

  /** A send that passed its test before the connection closed is queued or refused like any command, and changes no
      connection. */
  lemma LateSendIsQueued(r: Reactor, slot: nat, generation: nat, id: nat)
    requires Q.Valid(r.queue) && slot < |r.slots| && generation <= r.slots[slot].generation && !IsLive(r, slot, generation)
    ensures var t := LateSend(r, slot, generation, id);
      && t == r.(queue := t.queue)
      && (if !RingHasRoom(r) then t == r else
            |Q.Contents(t.queue)| == |Q.Contents(r.queue)| + 1 &&
            var c := Q.Contents(t.queue)[|Q.Contents(r.queue)|];
            c.kind.Send? && c.slot == slot && c.generation == generation && c.payload == id)
  {
  }
}
