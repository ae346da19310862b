/** The TX FIFO of a connection receives items in the order they were accepted, in every run:
    across direct owner sends, queued SENDs and the reserved GOAWAY and RESET items. */
module SendOrder {
  import opened Status
  import opened CommandSequence
  import opened SendPath
  import Q = CommandQueue

  /** Commands accepted but not fully processed. The one being dispatched has already had its
      effect, so it is kept only for its place in the order. */
  function Outstanding(r: Reactor): seq<Q.Command> {
    (if r.midCommand && r.batch != [] then [r.batch[0].(kind := Q.Quiesce)] + r.batch[1..] else r.batch)
    + Q.Contents(r.queue)
  }

  function ItemsOf(c: Q.Command, slot: nat, generation: nat): seq<Item> {
    if c.kind.Send? && c.slot == slot && c.generation == generation then [Frame(c.payload)] else []
  }

  /** The reserved items still held back, in the order the code will try them. */
  function Held(s: Slot): (held: seq<Reserved>)
    ensures forall w :: w in held ==> w.Waiting?
  {
    if !s.goaway.Waiting? && !s.reset.Waiting? then []
    else if !s.reset.Waiting? then [s.goaway]
    else if !s.goaway.Waiting? then [s.reset]
    else if s.resetFirst then [s.reset, s.goaway]
    else [s.goaway, s.reset]
  }

  /** What will enter the FIFO of (slot, generation) once `out` is processed: SENDs in order,
      each held item right after its frontier. `base` is the number of processed commands. */
  function Upcoming(out: seq<Q.Command>, base: nat, held: seq<Reserved>, slot: nat, generation: nat): seq<Item>
    requires forall w :: w in held ==> w.Waiting?
    decreases |out| + |held|
  {
    if held != [] && held[0].at <= base then [held[0].item] + Upcoming(out, base, held[1..], slot, generation)
    else if out == [] then []
    else if ItemsOf(out[0], slot, generation) == [] then Upcoming(out[1..], base + 1, held, slot, generation)
    else [Frame(out[0].payload)] + Upcoming(out[1..], base + 1, held, slot, generation)
  }

  /** Held items wait for a command in (low, frontier], earlier-accepted items first. */
  ghost predicate Ordered(held: seq<Reserved>, low: int, frontier: nat)
    requires forall w :: w in held ==> w.Waiting?
  {
    && |held| <= 2
    && (forall i :: 0 <= i < |held| ==> low < held[i].at <= frontier && held[i].after == SequenceOf(held[i].at))
    && (|held| == 2 ==> held[0].at <= held[1].at)
  }

  ghost predicate Numbered(r: Reactor) {
    && Q.Valid(r.queue)
    && r.queue.capacity <= UINT32_MAX
    && |r.batch| <= COMMAND_BATCH
    && (r.midCommand ==> r.batch != [])
    && r.lastProcessed == SequenceOf(r.processed)
    && r.queue.nextSequence == SequenceOf(Frontier(r))
    && ConsecutiveFrom(Outstanding(r), r.processed)
  }

  ghost predicate ConsecutiveFrom(out: seq<Q.Command>, base: nat) {
    forall k :: 0 <= k < |out| ==> out[k].sequence == SequenceOf(base + 1 + k)
  }

  predicate AdoptsSlot(c: Q.Command, slot: nat) {
    c.kind.AdoptFd? && c.slot == slot
  }

  /** A command names a generation of the slot that exists, and an ADOPT only a slot still reserved for it. */
  predicate Timely(c: Q.Command, slot: nat, generation: nat, reserved: bool) {
    && (c.kind.Send? && c.slot == slot ==> c.generation <= generation)
    && (AdoptsSlot(c, slot) ==> reserved && c.generation == generation)
  }

  predicate AllTimely(out: seq<Q.Command>, slot: nat, generation: nat, reserved: bool) {
    forall k :: 0 <= k < |out| ==> Timely(out[k], slot, generation, reserved)
  }

  predicate NoFutureGeneration(s: Slot, slot: nat, out: seq<Q.Command>) {
    AllTimely(out, slot, s.generation, s.state.ReservedSlot?)
  }

  /** A reserved slot has exactly one ADOPT under way, ahead of every SEND to it. */
  ghost predicate AdoptLeads(s: Slot, slot: nat, out: seq<Q.Command>, k: nat) {
    && k < |out|
    && AdoptsSlot(out[k], slot)
    && (forall j :: 0 <= j < k ==> ItemsOf(out[j], slot, s.generation) == [])
    && (forall j :: 0 <= j < |out| && j != k ==> !AdoptsSlot(out[j], slot))
  }

  ghost predicate SlotInv(s: Slot, slot: nat, out: seq<Q.Command>, base: nat) {
    && NoFutureGeneration(s, slot, out)
    && match s.state
       case Active =>
         && Ordered(Held(s), base, base + |out|)
         && s.accepted == s.entered + Upcoming(out, base, Held(s), slot, s.generation)
       case ReservedSlot =>
         && s.goaway.Idle? && s.reset.Idle? && s.entered == []
         && s.accepted == Upcoming(out, base, [], slot, s.generation)
         && exists k :: AdoptLeads(s, slot, out, k)
       case FreeSlot =>
         s.goaway.Idle? && s.reset.Idle? && s.entered <= s.accepted
  }

  ghost predicate Inv(r: Reactor) {
    && Numbered(r)
    && SlotsInv(r.slots, Outstanding(r), r.processed)
  }

  ghost predicate SlotsInv(slots: seq<Slot>, out: seq<Q.Command>, base: nat) {
    forall i :: 0 <= i < |slots| ==> SlotInv(slots[i], i, out, base)
  }

  // ---------------------------------------------------------------------------------
  // How Upcoming reacts to its parts
  // ---------------------------------------------------------------------------------

  lemma {:induction false} UpcomingAppend(out: seq<Q.Command>, base: nat, held: seq<Reserved>, slot: nat, generation: nat,
                                          c: Q.Command)
    requires forall w :: w in held ==> w.Waiting? && w.at <= base + |out|
    ensures Upcoming(out + [c], base, held, slot, generation)
         == Upcoming(out, base, held, slot, generation) + ItemsOf(c, slot, generation)
    decreases |out| + |held|
  {
    if held != [] && held[0].at <= base {
      UpcomingAppend(out, base, held[1..], slot, generation, c);
    } else if out != [] {
      assert (out + [c])[1..] == out[1..] + [c];
      UpcomingAppend(out[1..], base + 1, held, slot, generation, c);
    } else {
      assert held == [];
      assert (out + [c])[1..] == [];
    }
  }

  lemma {:induction false} UpcomingHold(out: seq<Q.Command>, base: nat, held: seq<Reserved>, slot: nat, generation: nat,
                                        w: Reserved)
    requires forall v :: v in held ==> v.Waiting? && v.at <= base + |out|
    requires w.Waiting? && w.at == base + |out|
    ensures Upcoming(out, base, held + [w], slot, generation)
         == Upcoming(out, base, held, slot, generation) + [w.item]
    decreases |out| + |held|
  {
    if held != [] && held[0].at <= base {
      assert (held + [w])[1..] == held[1..] + [w];
      UpcomingHold(out, base, held[1..], slot, generation, w);
    } else if out != [] {
      UpcomingHold(out[1..], base + 1, held, slot, generation, w);
    } else {
      assert held == [] && held + [w] == [w];
      JustHeld(base, slot, generation, w);
    }
  }

  lemma JustHeld(base: nat, slot: nat, generation: nat, w: Reserved)
    requires w.Waiting? && w.at <= base
    ensures Upcoming([], base, [w], slot, generation) == [w.item] && Upcoming([], base, [], slot, generation) == []
  {
    assert [w][1..] == [];
  }

  /** Commands that send nothing to (slot, generation) leave nothing upcoming. */
  lemma {:induction false} UpcomingNothing(out: seq<Q.Command>, base: nat, slot: nat, generation: nat)
    requires forall k :: 0 <= k < |out| ==> ItemsOf(out[k], slot, generation) == []
    ensures Upcoming(out, base, [], slot, generation) == []
  {
    if out != [] {
      UpcomingNothing(out[1..], base + 1, slot, generation);
    }
  }

  /** A command with no effect on this connection may stand in for another one. */
  lemma UpcomingHead(out: seq<Q.Command>, base: nat, held: seq<Reserved>, slot: nat, generation: nat, c: Q.Command)
    requires out != [] && !c.kind.Send?
    requires forall w :: w in held ==> w.Waiting?
    requires held != [] ==> base < held[0].at
    ensures Upcoming(out, base, held, slot, generation)
         == ItemsOf(out[0], slot, generation) + Upcoming([c] + out[1..], base, held, slot, generation)
  {
    assert ([c] + out[1..])[1..] == out[1..];
  }

  // ---------------------------------------------------------------------------------
  // One connection
  // ---------------------------------------------------------------------------------

  lemma NoFutureAppend(s: Slot, t: Slot, slot: nat, out: seq<Q.Command>, c: Q.Command)
    requires NoFutureGeneration(s, slot, out) && t.generation == s.generation && t.state == s.state
    requires !AdoptsSlot(c, slot)
    requires c.kind.Send? && c.slot == slot ==> c.generation <= s.generation
    ensures NoFutureGeneration(t, slot, out + [c])
  {
  }

  lemma ReservedAppend(s: Slot, t: Slot, slot: nat, out: seq<Q.Command>, c: Q.Command)
    requires exists k :: AdoptLeads(s, slot, out, k)
    requires !AdoptsSlot(c, slot) && t.generation == s.generation
    ensures exists k :: AdoptLeads(t, slot, out + [c], k)
  {
    var k :| AdoptLeads(s, slot, out, k);
    assert AdoptLeads(t, slot, out + [c], k);
  }

  lemma Associate<T>(a: seq<T>, b: seq<T>, c: seq<T>)
    ensures a + (b + c) == (a + b) + c
  {
  }

  lemma ActiveAppend(s: Slot, t: Slot, slot: nat, out: seq<Q.Command>, base: nat, c: Q.Command)
    requires SlotInv(s, slot, out, base) && s.state.Active?
    requires t == s.(accepted := s.accepted + ItemsOf(c, slot, s.generation))
    requires NoFutureGeneration(t, slot, out + [c])
    ensures SlotInv(t, slot, out + [c], base)
  {
    assert Held(t) == Held(s);
    UpcomingAppend(out, base, Held(s), slot, s.generation, c);
    Associate(s.entered, Upcoming(out, base, Held(s), slot, s.generation), ItemsOf(c, slot, s.generation));
  }

  /** What a newly queued command means for one slot. */
  lemma SlotAppend(s: Slot, slot: nat, out: seq<Q.Command>, base: nat, c: Q.Command)
    requires SlotInv(s, slot, out, base)
    requires !AdoptsSlot(c, slot)
    requires c.kind.Send? && c.slot == slot ==> c.generation == s.generation && !s.state.FreeSlot?
    ensures SlotInv(if c.kind.Send? && c.slot == slot then Accept(s, Frame(c.payload)) else s, slot, out + [c], base)
  {
    var t := s.(accepted := s.accepted + ItemsOf(c, slot, s.generation));
    assert t == if c.kind.Send? && c.slot == slot then Accept(s, Frame(c.payload)) else s;
    NoFutureAppend(s, t, slot, out, c);
    if s.state.Active? {
      ActiveAppend(s, t, slot, out, base, c);
    } else if s.state.ReservedSlot? {
      ReservedAppend(s, t, slot, out, c);
      UpcomingAppend(out, base, [], slot, s.generation, c);
    }
  }

  /** An active slot in the middle of a flush: held items may already have reached their frontier. */
  ghost predicate Tracks(s: Slot, slot: nat, out: seq<Q.Command>, base: nat) {
    && s.state.Active?
    && Ordered(Held(s), base - 1, base + |out|)
    && s.accepted == s.entered + Upcoming(out, base, Held(s), slot, s.generation)
  }

  /** Entering the head of the held list consumes the head of what is upcoming. */
  lemma EnterHead(s: Slot, t: Slot, slot: nat, out: seq<Q.Command>, base: nat)
    requires Tracks(s, slot, out, base) && Held(s) != [] && Held(s)[0].at <= base
    requires t.state.Active? && t.generation == s.generation && t.accepted == s.accepted
    requires Held(t) == Held(s)[1..] && t.entered == s.entered + [Held(s)[0].item]
    ensures Tracks(t, slot, out, base)
  {
    var rest := Upcoming(out, base, Held(t), slot, s.generation);
    assert s.entered + ([Held(s)[0].item] + rest) == t.entered + rest;
  }

  lemma GoawayTracks(s: Slot, slot: nat, out: seq<Q.Command>, base: nat)
    requires Tracks(s, slot, out, base) && |out| < TWO_63 - 1
    requires s.goaway.Waiting? ==> Held(s)[0] == s.goaway || base < Held(s)[0].at
    ensures Tracks(TryGoaway(s, SequenceOf(base)), slot, out, base)
    ensures var t := TryGoaway(s, SequenceOf(base)); t.goaway.Waiting? ==> t == s && base < t.goaway.at
  {
    if s.goaway.Waiting? {
      assert s.goaway in Held(s);
      AfterEqIsIssueOrder(base, s.goaway.at);
      if s.goaway.at <= base {
        EnterHead(s, TryGoaway(s, SequenceOf(base)), slot, out, base);
      }
    }
  }

  lemma ResetTracks(s: Slot, slot: nat, out: seq<Q.Command>, base: nat)
    requires Tracks(s, slot, out, base) && |out| < TWO_63 - 1
    requires s.reset.Waiting? ==> Held(s)[0] == s.reset || base < Held(s)[0].at
    ensures Tracks(TryReset(s, SequenceOf(base)), slot, out, base)
    ensures var t := TryReset(s, SequenceOf(base)); t.reset.Waiting? ==> t == s && base < t.reset.at
  {
    if s.reset.Waiting? {
      assert s.reset in Held(s);
      AfterEqIsIssueOrder(base, s.reset.at);
      if s.reset.at <= base {
        EnterHead(s, TryReset(s, SequenceOf(base)), slot, out, base);
      }
    }
  }

  /** Flushing after `base` commands: exactly the held items whose frontier is reached enter,
      in the order in which they were accepted. */
  lemma FlushTracks(s: Slot, slot: nat, out: seq<Q.Command>, base: nat)
    requires Tracks(s, slot, out, base) && |out| < TWO_63 - 1
    ensures var t := TryLifecycle(s, SequenceOf(base));
      Tracks(t, slot, out, base) && (t.goaway.Waiting? ==> base < t.goaway.at) && (t.reset.Waiting? ==> base < t.reset.at)
  {
    if s.resetFirst {
      ResetTracks(s, slot, out, base);
      GoawayTracks(TryReset(s, SequenceOf(base)), slot, out, base);
    } else {
      GoawayTracks(s, slot, out, base);
      ResetTracks(TryGoaway(s, SequenceOf(base)), slot, out, base);
    }
  }

  lemma SlotFlush(s: Slot, slot: nat, out: seq<Q.Command>, base: nat)
    requires NoFutureGeneration(s, slot, out) && |out| < TWO_63 - 1
    requires if s.state.Active? then Tracks(s, slot, out, base) else SlotInv(s, slot, out, base)
    ensures SlotInv(TryLifecycle(s, SequenceOf(base)), slot, out, base)
  {
    if s.state.Active? {
      FlushTracks(s, slot, out, base);
    }
  }

  // ---------------------------------------------------------------------------------
  // The whole reactor, one kind of step at a time
  // ---------------------------------------------------------------------------------

  lemma OutstandingFits(r: Reactor)
    requires Numbered(r)
    ensures |Outstanding(r)| < TWO_63 - 1
    ensures Frontier(r) == r.processed + |Outstanding(r)|
  {
  }

  /** A command that went to the back of the queue. */
  lemma NumberedAppend(r: Reactor, queue: Q.Queue, c: Q.Command, next: Reactor)
    requires Numbered(r) && Q.Appended(r.queue, c, queue)
    requires next == r.(queue := queue, slots := next.slots)
    ensures Numbered(next)
    ensures Outstanding(next) == Outstanding(r) + [c.(sequence := queue.nextSequence)]
  {
    NextIsSuccessor(Frontier(r));
    OutstandingFits(r);
    OutstandingAppend(r, queue, c, next);
    ConsecutiveAppend(Outstanding(r), r.processed, c.(sequence := queue.nextSequence));
  }

  lemma OutstandingAppend(r: Reactor, queue: Q.Queue, c: Q.Command, next: Reactor)
    requires Q.Contents(queue) == Q.Contents(r.queue) + [c.(sequence := queue.nextSequence)]
    requires next == r.(queue := queue, slots := next.slots)
    ensures Outstanding(next) == Outstanding(r) + [c.(sequence := queue.nextSequence)]
    ensures Frontier(next) == Frontier(r) + 1
  {
    var batch := if r.midCommand && r.batch != [] then [r.batch[0].(kind := Q.Quiesce)] + r.batch[1..] else r.batch;
    Associate(batch, Q.Contents(r.queue), [c.(sequence := queue.nextSequence)]);
  }

  lemma ConsecutiveAppend(out: seq<Q.Command>, base: nat, c: Q.Command)
    requires ConsecutiveFrom(out, base) && c.sequence == SequenceOf(base + 1 + |out|)
    ensures ConsecutiveFrom(out + [c], base)
  {
  }

  lemma PushAppends(q: Q.Queue, c: Q.Command)
    requires Q.Valid(q)
    ensures Q.Push(q, c).status.Ok? ==> Q.Appended(q, c, Q.Push(q, c).queue)
    ensures !Q.Push(q, c).status.Ok? ==> Q.Push(q, c).queue == q
  {
    if Q.Push(q, c).status.Ok? {
      Q.EnqueueAppends(q, c);
    }
  }

  /** Every slot sees the appended command; only the addressed one records an acceptance. */
  lemma AppendKeepsInv(r: Reactor, queue: Q.Queue, c: Q.Command, next: Reactor)
    requires Inv(r) && Q.Appended(r.queue, c, queue) && !c.kind.AdoptFd?
    requires c.kind.Send? ==> IsLive(r, c.slot, c.generation)
    requires next == r.(queue := queue, slots :=
      if c.kind.Send? then r.slots[c.slot := Accept(r.slots[c.slot], Frame(c.payload))] else r.slots)
    ensures Inv(next)
  {
    NumberedAppend(r, queue, c, next);
    var queued := c.(sequence := queue.nextSequence);
    forall i | 0 <= i < |next.slots|
      ensures SlotInv(next.slots[i], i, Outstanding(next), next.processed)
    {
      SlotAppend(r.slots[i], i, Outstanding(r), r.processed, queued);
    }
  }

  /** A SEND to a generation that is no longer live concerns no connection. */
  lemma SlotAppendLate(s: Slot, slot: nat, out: seq<Q.Command>, base: nat, c: Q.Command)
    requires SlotInv(s, slot, out, base) && c.kind.Send?
    requires c.slot == slot ==> c.generation < s.generation || (c.generation == s.generation && s.state.FreeSlot?)
    ensures SlotInv(s, slot, out + [c], base)
  {
    NoFutureAppend(s, s, slot, out, c);
    if s.state.Active? {
      UpcomingAppend(out, base, Held(s), slot, s.generation, c);
    } else if s.state.ReservedSlot? {
      ReservedAppend(s, s, slot, out, c);
      UpcomingAppend(out, base, [], slot, s.generation, c);
    }
  }

  lemma LateSendKeepsInv(r: Reactor, slot: nat, generation: nat, id: nat)
    requires Inv(r)
    ensures Inv(LateSend(r, slot, generation, id))
  {
    var c := Q.Command(Q.Send, slot, generation, id, 0);
    var next := LateSend(r, slot, generation, id);
    PushAppends(r.queue, c);
    if next.queue != r.queue {
      NumberedAppend(r, next.queue, c, next);
      var queued := c.(sequence := next.queue.nextSequence);
      forall i | 0 <= i < |next.slots|
        ensures SlotInv(next.slots[i], i, Outstanding(next), next.processed)
      {
        SlotAppendLate(r.slots[i], i, Outstanding(r), r.processed, queued);
      }
    }
  }

  /** Steps that leave the commands alone and rework a single slot. */
  lemma OneSlotKeepsInv(r: Reactor, slot: nat, s: Slot)
    requires Inv(r) && slot < |r.slots|
    requires SlotInv(s, slot, Outstanding(r), r.processed)
    ensures Inv(r.(slots := r.slots[slot := s]))
  {
    SameCommands(r, r.slots[slot := s]);
    OneSlotReplaced(r.slots, slot, s, Outstanding(r), r.processed);
  }

  lemma SameCommands(r: Reactor, slots: seq<Slot>)
    requires Numbered(r)
    ensures var next := r.(slots := slots); Numbered(next) && Outstanding(next) == Outstanding(r)
  {
  }

  lemma OneSlotReplaced(slots: seq<Slot>, slot: nat, s: Slot, out: seq<Q.Command>, base: nat)
    requires SlotsInv(slots, out, base) && slot < |slots| && SlotInv(s, slot, out, base)
    ensures SlotsInv(slots[slot := s], out, base)
  {
  }

  /** A direct send finds nothing outstanding, hence nothing held back: it enters in its turn. */
  lemma SlotDirect(s: Slot, slot: nat, base: nat, item: Item)
    requires SlotInv(s, slot, [], base) && s.state.Active?
    ensures SlotInv(Enter(Accept(s, item), item), slot, [], base)
  {
    assert Held(s) == [];
    assert Held(Enter(Accept(s, item), item)) == [];
  }

  lemma SendKeepsInv(r: Reactor, onOwner: bool, slot: nat, generation: nat, id: nat)
    requires Inv(r)
    ensures Inv(Send(r, onOwner, slot, generation, id).1)
  {
    var (status, next) := Send(r, onOwner, slot, generation, id);
    if status.Ok? {
      if onOwner && r.batch == [] && Q.Contents(r.queue) == [] {
        assert Outstanding(r) == [];
        SlotDirect(r.slots[slot], slot, r.processed, Frame(id));
        OneSlotKeepsInv(r, slot, Enter(Accept(r.slots[slot], Frame(id)), Frame(id)));
      } else {
        var c := Q.Command(Q.Send, slot, generation, id, 0);
        PushAppends(r.queue, c);
        AppendKeepsInv(r, Q.Push(r.queue, c).queue, c, next);
      }
    }
  }

  /** A reserved item accepted at the current frontier joins the back of what is upcoming. */
  lemma SlotHold(s: Slot, pending: Slot, slot: nat, out: seq<Q.Command>, base: nat, w: Reserved)
    requires SlotInv(s, slot, out, base) && s.state.Active?
    requires w.Waiting? && w.at == base + |out| && w.after == SequenceOf(w.at)
    requires pending.state.Active? && pending.generation == s.generation
    requires pending.entered == s.entered && pending.accepted == s.accepted + [w.item]
    requires Held(pending) == Held(s) + [w]
    ensures Tracks(pending, slot, out, base) && NoFutureGeneration(pending, slot, out)
  {
    var held, all := Held(s), Held(pending);
    OneMoreHeld(held, all, w, base, |out|);
    OneMoreUpcoming(out, base, held, all, slot, s.generation, w, s.accepted, s.entered);
  }

  lemma OneMoreHeld(held: seq<Reserved>, all: seq<Reserved>, w: Reserved, base: nat, n: nat)
    requires (forall v :: v in held ==> v.Waiting?) && (forall v :: v in all ==> v.Waiting?)
    requires Ordered(held, base, base + n) && all == held + [w] && |all| <= 2
    requires w.Waiting? && w.at == base + n && w.after == SequenceOf(w.at)
    ensures Ordered(all, base - 1, base + n)
  {
  }

  lemma OneMoreUpcoming(out: seq<Q.Command>, base: nat, held: seq<Reserved>, all: seq<Reserved>, slot: nat, generation: nat,
                        w: Reserved, accepted: seq<Item>, entered: seq<Item>)
    requires (forall v :: v in held ==> v.Waiting?) && (forall v :: v in all ==> v.Waiting?)
    requires Ordered(held, base, base + |out|) && w.Waiting? && w.at == base + |out| && all == held + [w]
    requires accepted == entered + Upcoming(out, base, held, slot, generation)
    ensures accepted + [w.item] == entered + Upcoming(out, base, all, slot, generation)
  {
    UpcomingHold(out, base, held, slot, generation, w);
    Associate(entered, Upcoming(out, base, held, slot, generation), [w.item]);
  }

  lemma HoldKeepsInv(r: Reactor, slot: nat, pending: Slot, w: Reserved)
    requires Inv(r) && slot < |r.slots| && r.slots[slot].state.Active?
    requires w.Waiting? && w.after == r.queue.nextSequence && w.at == Frontier(r)
    requires pending.state.Active? && pending.generation == r.slots[slot].generation
    requires pending.entered == r.slots[slot].entered
    requires pending.accepted == r.slots[slot].accepted + [w.item]
    requires Held(pending) == Held(r.slots[slot]) + [w]
    ensures Inv(r.(slots := r.slots[slot := TryLifecycle(pending, r.lastProcessed)]))
  {
    OutstandingFits(r);
    SlotHold(r.slots[slot], pending, slot, Outstanding(r), r.processed, w);
    SlotFlush(pending, slot, Outstanding(r), r.processed);
    OneSlotKeepsInv(r, slot, TryLifecycle(pending, r.lastProcessed));
  }

  lemma GoawayKeepsInv(r: Reactor, slot: nat, generation: nat, lastStream: nat)
    requires Inv(r)
    ensures Inv(SendGoaway(r, slot, generation, lastStream).1)
  {
    if IsActive(r, slot, generation) && r.slots[slot].goaway.Idle? {
      var s := r.slots[slot];
      var w := Waiting(Goaway(lastStream), r.queue.nextSequence, Frontier(r));
      var pending := Accept(s, Goaway(lastStream)).(goaway := w, resetFirst := s.reset.Waiting?);
      assert Held(pending) == Held(s) + [w];
      HoldKeepsInv(r, slot, pending, w);
    }
  }

  lemma TerminalKeepsInv(r: Reactor, slot: nat, generation: nat, terminal: Item)
    requires Inv(r)
    ensures Inv(SendTerminal(r, slot, generation, terminal).1)
  {
    if terminal.Terminal? && terminal.stream != 0 && IsActive(r, slot, generation) && r.slots[slot].reset.Idle? {
      var s := r.slots[slot];
      var w := Waiting(terminal, r.queue.nextSequence, Frontier(r));
      var pending := Accept(s, terminal).(reset := w, resetFirst := !s.goaway.Waiting?);
      assert Held(pending) == Held(s) + [w];
      HoldKeepsInv(r, slot, pending, w);
    }
  }

  lemma CloseKeepsInv(r: Reactor, slot: nat, generation: nat)
    requires Inv(r)
    ensures Inv(CloseConnection(r, slot, generation))
  {
    if IsActive(r, slot, generation) {
      assert SlotInv(r.slots[slot], slot, Outstanding(r), r.processed);
      OneSlotKeepsInv(r, slot, CloseSlot(r.slots[slot]));
    }
  }

  /** The invariant does not look at the FIFO itself, only at what entered it and what is held. */
  lemma SlotSame(s: Slot, t: Slot, slot: nat, out: seq<Q.Command>, base: nat)
    requires SlotInv(s, slot, out, base) && s.state.Active?
    requires t.state == s.state && t.generation == s.generation && Held(t) == Held(s)
    requires t.accepted == s.accepted && t.entered == s.entered
    ensures SlotInv(t, slot, out, base)
  {
  }

  lemma CompleteIsSame(r: Reactor, slot: nat, position: nat)
    requires slot < |r.slots| && r.slots[slot].state.Active? && position < |r.slots[slot].fifo|
    ensures var s, t := r.slots[slot], Complete(r, slot, position).slots[slot];
      && Complete(r, slot, position) == r.(slots := r.slots[slot := t])
      && t.state == s.state && t.generation == s.generation && Held(t) == Held(s)
      && t.accepted == s.accepted && t.entered == s.entered
  {
  }

  lemma CompleteKeepsInv(r: Reactor, slot: nat, position: nat)
    requires Inv(r)
    ensures Inv(Complete(r, slot, position))
  {
    if slot < |r.slots| && r.slots[slot].state.Active? && position < |r.slots[slot].fifo| {
      var t := Complete(r, slot, position).slots[slot];
      CompleteIsSame(r, slot, position);
      SlotSame(r.slots[slot], t, slot, Outstanding(r), r.processed);
      OneSlotKeepsInv(r, slot, t);
    }
  }

  lemma FlushKeepsInv(r: Reactor)
    requires Numbered(r)
    requires forall i :: 0 <= i < |r.slots| ==>
      && NoFutureGeneration(r.slots[i], i, Outstanding(r))
      && if r.slots[i].state.Active? then Tracks(r.slots[i], i, Outstanding(r), r.processed)
         else SlotInv(r.slots[i], i, Outstanding(r), r.processed)
    ensures Inv(r.(slots := Flush(r.slots, r.lastProcessed)))
  {
    var next := r.(slots := Flush(r.slots, r.lastProcessed));
    OutstandingFits(r);
    assert Outstanding(next) == Outstanding(r);
    forall i | 0 <= i < |r.slots|
      ensures SlotInv(next.slots[i], i, Outstanding(next), next.processed)
    {
      SlotFlush(r.slots[i], i, Outstanding(r), r.processed);
    }
  }

  /** Moving commands from the queue to the batch does not change their order. */
  lemma PopKeepsInv(r: Reactor, out: seq<Q.Command>, queue: Q.Queue)
    requires Inv(r) && r.batch == [] && |out| <= COMMAND_BATCH
    requires Q.Valid(queue) && queue.capacity == r.queue.capacity && queue.nextSequence == r.queue.nextSequence
    requires Q.Contents(r.queue) == out + Q.Contents(queue)
    ensures Inv(r.(queue := queue, batch := out))
  {
    var popped := r.(queue := queue, batch := out);
    assert Outstanding(popped) == Outstanding(r);
  }

  lemma BeginKeepsInv(r: Reactor, max: nat)
    requires Inv(r)
    ensures Inv(BeginBatch(r, max))
  {
    if r.batch == [] {
      var (out, queue) := Q.PopBatch(r.queue, Q.Min(max, COMMAND_BATCH));
      Q.PopTakesPrefix(r.queue, Q.Min(max, COMMAND_BATCH));
      PopKeepsInv(r, out, queue);
      IdleFlushKeepsInv(r.(queue := queue, batch := out));
    }
  }

  /** A flush between commands. */
  lemma IdleFlushKeepsInv(r: Reactor)
    requires Inv(r)
    ensures Inv(r.(slots := Flush(r.slots, r.lastProcessed)))
  {
    forall i | 0 <= i < |r.slots|
      ensures NoFutureGeneration(r.slots[i], i, Outstanding(r))
      ensures if r.slots[i].state.Active? then Tracks(r.slots[i], i, Outstanding(r), r.processed)
              else SlotInv(r.slots[i], i, Outstanding(r), r.processed)
    {
      assert SlotInv(r.slots[i], i, Outstanding(r), r.processed);
    }
    FlushKeepsInv(r);
  }

  lemma NoFutureHead(s: Slot, t: Slot, slot: nat, out: seq<Q.Command>, c: Q.Command)
    requires NoFutureGeneration(s, slot, out) && out != [] && Foreign(c)
    requires t.generation == s.generation
    requires t.state == s.state || forall k :: 0 < k < |out| ==> !AdoptsSlot(out[k], slot)
    ensures NoFutureGeneration(t, slot, [c] + out[1..])
  {
  }

  /** Consuming the head of `out` without touching the slot. */
  lemma SlotSkip(s: Slot, slot: nat, out: seq<Q.Command>, base: nat, c: Q.Command)
    requires SlotInv(s, slot, out, base) && out != []
    requires Foreign(c) && ItemsOf(out[0], slot, s.generation) == [] && !AdoptsSlot(out[0], slot)
    ensures SlotInv(s, slot, [c] + out[1..], base)
  {
    NoFutureHead(s, s, slot, out, c);
    match s.state {
      case Active => UpcomingHead(out, base, Held(s), slot, s.generation, c);
      case ReservedSlot =>
        UpcomingHead(out, base, [], slot, s.generation, c);
        var k :| AdoptLeads(s, slot, out, k);
        assert AdoptLeads(s, slot, [c] + out[1..], k);
      case FreeSlot =>
    }
  }

  /** A SEND reaching its active connection enters the FIFO. */
  lemma SlotEnter(s: Slot, slot: nat, out: seq<Q.Command>, base: nat, c: Q.Command)
    requires SlotInv(s, slot, out, base) && out != [] && s.state.Active?
    requires Foreign(c) && ItemsOf(out[0], slot, s.generation) != []
    ensures SlotInv(Enter(s, Frame(out[0].payload)), slot, [c] + out[1..], base)
  {
    var t := Enter(s, Frame(out[0].payload));
    NoFutureHead(s, t, slot, out, c);
    UpcomingHead(out, base, Held(s), slot, s.generation, c);
    Associate(s.entered, [Frame(out[0].payload)], Upcoming([c] + out[1..], base, Held(s), slot, s.generation));
    assert Held(t) == Held(s);
  }

  /** An ADOPT turns its reserved slot into an active connection whose SENDs are still to come. */
  lemma SlotAdopt(s: Slot, t: Slot, slot: nat, out: seq<Q.Command>, base: nat, c: Q.Command)
    requires SlotInv(s, slot, out, base) && out != [] && Foreign(c) && AdoptsSlot(out[0], slot)
    requires !t.state.ReservedSlot? && t.generation == out[0].generation
    requires t.goaway.Idle? && t.reset.Idle? && t.accepted == s.accepted && t.entered == s.entered
    ensures SlotInv(t, slot, [c] + out[1..], base)
  {
    var k :| AdoptLeads(s, slot, out, k);
    NoFutureHead(s, t, slot, out, c);
    UpcomingHead(out, base, [], slot, s.generation, c);
    assert Held(t) == [];
  }

  /** A command addressed to another slot or generation, or none. */
  lemma DispatchSlot(r: Reactor, succeeds: bool, i: nat)
    requires Inv(r) && r.batch != [] && !r.midCommand && i < |r.slots|
    requires var k := r.batch[0].kind; k.Send? || k.AdoptFd?
    ensures SlotInv(Dispatch(r, succeeds).slots[i], i, [r.batch[0].(kind := Q.Quiesce)] + Outstanding(r)[1..], r.processed)
  {
    var s, out, c := r.slots[i], Outstanding(r), r.batch[0];
    var done := c.(kind := Q.Quiesce);
    assert out[0] == c;
    if AdoptsSlot(c, i) {
      SlotAdopt(s, Dispatch(r, succeeds).slots[i], i, out, r.processed, done);
    } else if ItemsOf(c, i, s.generation) != [] && s.state.Active? {
      SlotEnter(s, i, out, r.processed, done);
    } else if s.state.FreeSlot? {
      NoFutureHead(s, s, i, out, done);
    } else {
      if s.state.ReservedSlot? {
        NothingBeforeAdopt(s, i, out, r.processed);
      }
      SlotSkip(s, i, out, r.processed, done);
    }
  }

  /** No SEND to a reserved slot comes before its ADOPT. */
  lemma NothingBeforeAdopt(s: Slot, slot: nat, out: seq<Q.Command>, base: nat)
    requires SlotInv(s, slot, out, base) && s.state.ReservedSlot? && out != [] && !AdoptsSlot(out[0], slot)
    ensures ItemsOf(out[0], slot, s.generation) == []
  {
    var k :| AdoptLeads(s, slot, out, k);
  }

  /** Between its effect and its bookkeeping a command keeps its number. */
  lemma MidCommandNumbered(r: Reactor, next: Reactor)
    requires Numbered(r) && r.batch != [] && !r.midCommand
    requires next == r.(midCommand := true, slots := next.slots)
    ensures Numbered(next)
    ensures Outstanding(next) == [r.batch[0].(kind := Q.Quiesce)] + Outstanding(r)[1..]
  {
    assert Outstanding(next) == [r.batch[0].(kind := Q.Quiesce)] + Outstanding(r)[1..];
    forall k | 0 <= k < |Outstanding(next)|
      ensures Outstanding(next)[k].sequence == Outstanding(r)[k].sequence
    {
    }
  }

  lemma DispatchKeepsInv(r: Reactor, succeeds: bool)
    requires Inv(r)
    ensures Inv(Dispatch(r, succeeds))
  {
    if r.batch != [] && !r.midCommand {
      if r.batch[0].kind.Send? || r.batch[0].kind.AdoptFd? {
        var next := Dispatch(r, succeeds);
        MidCommandNumbered(r, next);
        forall i | 0 <= i < |next.slots|
          ensures SlotInv(next.slots[i], i, Outstanding(next), next.processed)
        {
          DispatchSlot(r, succeeds, i);
        }
      } else {
        DispatchForeign(r, succeeds);
      }
    }
  }

  lemma DispatchForeign(r: Reactor, succeeds: bool)
    requires Inv(r) && r.batch != [] && !r.midCommand && Foreign(r.batch[0])
    ensures Inv(Dispatch(r, succeeds))
  {
    var c, mid := r.batch[0], r.(midCommand := true);
    MidCommandNumbered(r, mid);
    forall i | 0 <= i < |r.slots|
      ensures SlotInv(mid.slots[i], i, Outstanding(mid), mid.processed)
    {
      SlotSkip(r.slots[i], i, Outstanding(r), r.processed, c.(kind := Q.Quiesce));
    }
    CloseKeepsInv(mid, c.slot, c.generation);
  }

  /** The finished command leaves; held items may now have reached their frontier. */
  lemma SlotAdvance(s: Slot, slot: nat, out: seq<Q.Command>, base: nat)
    requires SlotInv(s, slot, out, base) && out != [] && Foreign(out[0])
    ensures NoFutureGeneration(s, slot, out[1..])
    ensures if s.state.Active? then Tracks(s, slot, out[1..], base + 1) else SlotInv(s, slot, out[1..], base + 1)
  {
    if s.state.ReservedSlot? {
      var k: nat :| AdoptLeads(s, slot, out, k);
      assert 0 < k;
      assert AdoptLeads(s, slot, out[1..], k - 1);
    }
  }

  function Advance(r: Reactor): Reactor
    requires r.batch != []
  {
    r.(batch := r.batch[1..], midCommand := false,
       lastProcessed := r.batch[0].sequence, processed := r.processed + 1)
  }

  lemma AdvanceNumbered(r: Reactor)
    requires Numbered(r) && r.batch != [] && r.midCommand
    ensures Foreign(Outstanding(r)[0])
    ensures Outstanding(Advance(r)) == Outstanding(r)[1..]
    ensures Numbered(Advance(r))
  {
    var out := Outstanding(r);
    assert out[0] == r.batch[0].(kind := Q.Quiesce);
    assert Outstanding(Advance(r)) == out[1..];
    assert ConsecutiveFrom(out[1..], r.processed + 1);
  }

  lemma FinishKeepsInv(r: Reactor)
    requires Inv(r)
    ensures Inv(Finish(r))
  {
    if r.batch != [] && r.midCommand {
      var out := Outstanding(r);
      AdvanceNumbered(r);
      forall i | 0 <= i < |r.slots|
        ensures NoFutureGeneration(r.slots[i], i, out[1..])
        ensures if r.slots[i].state.Active? then Tracks(r.slots[i], i, out[1..], r.processed + 1)
                else SlotInv(r.slots[i], i, out[1..], r.processed + 1)
      {
        SlotAdvance(r.slots[i], i, out, r.processed);
      }
      FlushKeepsInv(Advance(r));
    }
  }

  lemma SlotFresh(s: Slot, slot: nat, out: seq<Q.Command>, base: nat, state: SlotState)
    requires SlotInv(s, slot, out, base) && s.state.FreeSlot? && !state.ReservedSlot?
    ensures SlotInv(FreshSlot(s.generation + 1, state), slot, out, base)
  {
    UpcomingNothing(out, base, slot, s.generation + 1);
  }

  lemma SlotReserve(s: Slot, slot: nat, out: seq<Q.Command>, base: nat, c: Q.Command)
    requires SlotInv(s, slot, out, base) && s.state.FreeSlot?
    requires AdoptsSlot(c, slot) && c.generation == s.generation + 1
    ensures SlotInv(FreshSlot(s.generation + 1, ReservedSlot), slot, out + [c], base)
  {
    var t := FreshSlot(s.generation + 1, ReservedSlot);
    assert AdoptLeads(t, slot, out + [c], |out|);
    UpcomingNothing(out + [c], base, slot, s.generation + 1);
  }

  lemma RemoteAdoptKeepsInv(r: Reactor, slot: nat, c: Q.Command, next: Reactor)
    requires Inv(r) && slot < |r.slots| && r.slots[slot].state.FreeSlot?
    requires AdoptsSlot(c, slot) && c.generation == r.slots[slot].generation + 1
    requires Q.Appended(r.queue, c, next.queue)
    requires next == r.(queue := next.queue, slots := r.slots[slot := FreshSlot(c.generation, ReservedSlot)])
    ensures Inv(next)
  {
    NumberedAppend(r, next.queue, c, next);
    var queued := c.(sequence := next.queue.nextSequence);
    forall i | 0 <= i < |next.slots|
      ensures SlotInv(next.slots[i], i, Outstanding(next), next.processed)
    {
      if i == slot {
        SlotReserve(r.slots[slot], slot, Outstanding(r), r.processed, queued);
      } else {
        SlotAppend(r.slots[i], i, Outstanding(r), r.processed, queued);
      }
    }
  }

  lemma FreshKeepsInv(r: Reactor, slot: nat, state: SlotState)
    requires Inv(r) && slot < |r.slots| && r.slots[slot].state.FreeSlot? && !state.ReservedSlot?
    ensures Inv(r.(slots := r.slots[slot := FreshSlot(r.slots[slot].generation + 1, state)]))
  {
    var out, s := Outstanding(r), r.slots[slot];
    assert SlotInv(s, slot, out, r.processed);
    SlotFresh(s, slot, out, r.processed, state);
    OneSlotKeepsInv(r, slot, FreshSlot(s.generation + 1, state));
  }

  lemma AdoptKeepsInv(r: Reactor, onOwner: bool, succeeds: bool)
    requires Inv(r)
    ensures Inv(Adopt(r, onOwner, succeeds))
  {
    var slot := FindFree(r.slots, 0);
    var next := Adopt(r, onOwner, succeeds);
    if next != r {
      if onOwner {
        FreshKeepsInv(r, slot, if succeeds then Active else FreeSlot);
      } else {
        var c := Q.Command(Q.AdoptFd, slot, r.slots[slot].generation + 1, 0, 0);
        PushAppends(r.queue, c);
        if Q.Push(r.queue, c).status.Ok? {
          RemoteAdoptKeepsInv(r, slot, c, next);
        } else {
          FreshKeepsInv(r, slot, FreeSlot);
        }
      }
    }
  }

  /** Commands with no send item behind them. */
  lemma ForeignKeepsInv(r: Reactor, e: Event)
    requires Inv(r) && (e.ESubmit? || e.ESubmitWait? || e.EStop?)
    ensures Inv(Step(r, e))
  {
    var next := Step(r, e);
    if next.queue != r.queue {
      if e.EStop? {
        Q.PushStopAppends(r.queue, e.command);
      } else {
        Q.EnqueueAppends(r.queue, e.command);
      }
      AppendKeepsInv(r, next.queue, e.command, next);
    }
  }

  lemma RoundKeepsInv(r: Reactor, e: Event)
    requires Inv(r) && (e.EOpen? || e.EShut? || e.EAdmission?)
    ensures Inv(Step(r, e))
  {
    var next := Step(r, e);
    assert Q.Contents(next.queue) == Q.Contents(r.queue);
    assert Outstanding(next) == Outstanding(r);
  }

  lemma StepKeepsInv(r: Reactor, e: Event)
    requires Inv(r)
    ensures Inv(Step(r, e))
  {
    match e {
      case ESend(onOwner, slot, generation, id) => SendKeepsInv(r, onOwner, slot, generation, id);
      case ELateSend(slot, generation, id) => LateSendKeepsInv(r, slot, generation, id);
      case EGoaway(slot, generation, lastStream) => GoawayKeepsInv(r, slot, generation, lastStream);
      case ETerminal(slot, generation, terminal) => TerminalKeepsInv(r, slot, generation, terminal);
      case EAdopt(onOwner, succeeds) => AdoptKeepsInv(r, onOwner, succeeds);
      case ESubmit(_) => ForeignKeepsInv(r, e);
      case ESubmitWait(_, _) => ForeignKeepsInv(r, e);
      case EStop(_) => ForeignKeepsInv(r, e);
      case EOpen => RoundKeepsInv(r, e);
      case EShut => RoundKeepsInv(r, e);
      case EBegin(max) => BeginKeepsInv(r, max);
      case EDispatch(succeeds) => DispatchKeepsInv(r, succeeds);
      case EFinish => FinishKeepsInv(r);
      case EClose(slot, generation) => CloseKeepsInv(r, slot, generation);
      case EComplete(slot, position) => CompleteKeepsInv(r, slot, position);
      case EAdmission(_, _) => RoundKeepsInv(r, e);
    }
  }

  lemma {:induction false} RunKeepsInv(r: Reactor, events: seq<Event>)
    requires Inv(r)
    ensures Inv(Run(r, events))
    decreases |events|
  {
    if events != [] {
      StepKeepsInv(r, events[0]);
      RunKeepsInv(Step(r, events[0]), events[1..]);
    }
  }

  lemma InitInv(capacity: nat, connections: nat)
    requires 0 < capacity <= UINT32_MAX
    ensures Inv(Init(capacity, connections))
  {
  }

  /** In every run, the FIFO of every connection has received a prefix of what was accepted for
      it, in acceptance order; and once no command is outstanding, all of it. */
  lemma TxFifoIsAcceptanceOrder(capacity: nat, connections: nat, events: seq<Event>, slot: nat)
    requires 0 < capacity <= UINT32_MAX && slot < connections
    ensures var r := Run(Init(capacity, connections), events);
      && slot < |r.slots|
      && r.slots[slot].entered <= r.slots[slot].accepted
      && (r.slots[slot].state.Active? && r.batch == [] && Q.Contents(r.queue) == [] ==>
            r.slots[slot].entered == r.slots[slot].accepted)
  {
    InitInv(capacity, connections);
    RunKeepsInv(Init(capacity, connections), events);
    SlotCount(Init(capacity, connections), events);
    var r := Run(Init(capacity, connections), events);
    var s := r.slots[slot];
    assert SlotInv(s, slot, Outstanding(r), r.processed);
    if s.state.Active? && r.batch == [] && Q.Contents(r.queue) == [] {
      assert Outstanding(r) == [];
      assert Held(s) == [];
    }
  }

  lemma StepSlotCount(r: Reactor, e: Event)
    ensures |Step(r, e).slots| == |r.slots|
  {
  }

  lemma {:induction false} SlotCount(r: Reactor, events: seq<Event>)
    ensures |Run(r, events).slots| == |r.slots|
    decreases |events|
  {
    if events != [] {
      StepSlotCount(r, events[0]);
      SlotCount(Step(r, events[0]), events[1..]);
    }
  }
}
