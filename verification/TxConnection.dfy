/** The TX path of a connection as it runs: frame preparation, selection, completion and the send loop of
    tr_connection_flush_tx, proved against TxFrames and TxQueue. */
module TxConnection {
  import opened TxFrames
  import opened TxQueue
  import opened TxOrder
  import opened TxSlices
  import opened Status
  import C = Crc32c

  /** What one sendmsg call does. */
  datatype Kernel = Accepted(octets: nat) | Interrupted | WouldBlock | Failed

  // tr_tx_prepare_frame
  method PrepareFrame(it: TxItem, ghost crc: Checksum) returns (p: TxItem)
    requires crc == C.Crc && ItemOk(crc, it)
    ensures p == Prepare(crc, it)
  {
    if it.header.Some? {
      return it;
    }
    var remaining := |Flatten(it.msg.slices)| - it.pos;
    var len := if remaining > it.msg.maxFrame then it.msg.maxFrame else remaining;
    var flags := it.msg.flags.(first := false, last := false);
    if it.msg.kind.Data? {
      if it.pos == 0 {
        flags := flags.(first := true);
      }
      if it.pos + len == |Flatten(it.msg.slices)| {
        flags := flags.(last := true);
      }
    } else {
      flags := it.msg.flags;
    }
    assert Flatten(it.msg.slices)[it.pos..][..len] == Chunk(it.msg, it.pos);
    var sum := CrcRange(it.msg.slices, it.pos, len);
    p := it.(header := Some(Header(it.msg.kind, flags, it.msg.stream, it.msg.messageId, len, sum)), wirePos := 0);
  }

  /** What one system call offers the kernel: the unsent octets of the prepared frame, capped. */
  method Offer(it: TxItem, budget: nat, ghost crc: Checksum) returns (offered: seq<seq<Octet>>)
    requires ItemOk(crc, it) && it.header.Some? && 0 < budget
    ensures var rest := |Octets(FrameOf(it))| - it.wirePos;
      |Gathered(offered)| == (if rest < budget then rest else budget) && 0 < |Gathered(offered)|
    ensures Gathered(offered) <= Octets(FrameOf(it))[it.wirePos..]
  {
    var iov := BuildIov(it.msg.slices, it.header.value, it.pos, it.wirePos);
    offered := Clip(iov, budget);
  }

  class Connection {
    var fifo: seq<TxItem>
    var control: seq<nat>
    var active: Option<nat>
    var streak: nat
    ghost const crc: Checksum
    ghost var messages: seq<Message>
    ghost var sent: seq<nat>
    ghost var frames: seq<Sent>
    ghost var output: seq<Octet>
    var nextId: nat

    ghost function View(): Tx
      reads this
    {
      Tx(fifo, control, active, streak, messages, sent, frames, output)
    }

    ghost predicate Valid()
      reads this
    {
      Shape(crc, View()) && nextId == |messages|
    }

    constructor ()
      ensures Valid() && View() == EMPTY && crc == C.Crc
    {
      fifo, control, active, streak, nextId := [], [], None, 0, 0;
      messages, sent, frames, output := [], [], [], [];
      crc := C.Crc;
    }

    // tr_enqueue_tx_item_owner
    method EnqueueTx(m: Message, early: bool)
      requires Valid() && Sendable(m) && crc == C.Crc
      modifies this
      ensures Valid() && View() == Enqueue(crc, old(View()), m, early)
    {
      EnqueueKeepsShape(crc, View(), m, early);
      var it := TxItem(nextId, m, 0, None, 0);
      if early {
        it := PrepareFrame(it, crc);
      }
      fifo := fifo + [it];
      if !m.kind.Data? {
        control := control + [nextId];
      }
      nextId := nextId + 1;
      messages := messages + [m];
    }

    // tr_connection_next_tx
    method NextTx() returns (i: nat)
      requires Valid() && fifo != []
      modifies this`active
      ensures i == Select(old(View())) && i < |fifo| && active == Some(fifo[i].id)
    {
      SelectIsSchedulable(crc, View());
      if active.Some? {
        FindSound(fifo, active.value);
        i := Find(fifo, active.value);
        if i < |fifo| && fifo[i].wirePos != 0 {
          return;
        }
      }
      i := 0;
      if fifo[0].msg.kind.Data? && control != [] && streak < CONTROL_BURST {
        var c := Find(fifo, control[0]);
        if c < |fifo| && CanBypass(fifo[c].msg) {
          i := c;
        }
      }
      active := Some(fifo[i].id);
    }

    // tr_connection_complete_tx
    method CompleteTx(i: nat)
      requires i < |fifo|
      requires !fifo[i].msg.kind.Data? ==> control != [] && control[0] == fifo[i].id
      modifies this`fifo, this`control
      ensures fifo == Remove(old(fifo), i)
      ensures control == if old(fifo)[i].msg.kind.Data? then old(control) else Drop(old(control))
    {
      if !fifo[i].msg.kind.Data? {
        assert control[0] == fifo[i].id;
        control := control[1..];
      }
      fifo := fifo[..i] + fifo[i + 1..];
    }

    /** A frame of the DATA item at `i` is out: the next one, or the end. */
    method ContinueOrComplete(i: nat)
      requires i < |fifo| && fifo[i].header.Some? && fifo[i].msg.kind.Data?
      modifies this`fifo, this`control
      ensures control == old(control)
      ensures var it := old(fifo)[i]; var pos := it.pos + it.header.value.payloadLen;
        fifo == if pos < |Body(it.msg)| then old(fifo)[i := TxItem(it.id, it.msg, pos, None, 0)] else Remove(old(fifo), i)
    {
      var it := fifo[i];
      var pos := it.pos + it.header.value.payloadLen;
      if pos < |Flatten(it.msg.slices)| {
        fifo := fifo[i := TxItem(it.id, it.msg, pos, None, 0)];
      } else {
        CompleteTx(i);
      }
    }

    /** The frame of the item at `i` is out. */
    method FinishFrame(i: nat)
      requires i < |fifo| && fifo[i].header.Some?
      requires fifo[i].pos + fifo[i].header.value.payloadLen <= |Body(fifo[i].msg)|
      requires !fifo[i].msg.kind.Data? ==> control != [] && control[0] == fifo[i].id
      modifies this
      ensures View() == EndFrame(old(View()), i, old(fifo)[i]) && nextId == old(nextId)
    {
      var it := fifo[i];
      active := None;
      frames := frames + [Sent(it.id, FrameOf(it))];
      if it.msg.kind.Data? {
        streak := 0;
        ContinueOrComplete(i);
      } else {
        if CanBypass(it.msg) && streak < CONTROL_BURST {
          streak := streak + 1;
        }
        CompleteTx(i);
      }
    }

    /** `n` octets of the item at `i` were accepted. */
    method Advance(i: nat, n: nat)
      requires i < |fifo| && ItemOk(crc, fifo[i]) && fifo[i].header.Some? && active == Some(fifo[i].id)
      requires !fifo[i].msg.kind.Data? ==> control != [] && control[0] == fifo[i].id
      requires fifo[i].wirePos + n <= HEADER_SIZE + fifo[i].header.value.payloadLen
      modifies this
      ensures View() == Commit(old(View()), i, old(fifo)[i], n) && nextId == old(nextId)
    {
      var it := fifo[i];
      var wireLen := HEADER_SIZE + it.header.value.payloadLen;
      sent := sent + [it.id];
      output := output + Octets(FrameOf(it))[it.wirePos..it.wirePos + n];
      if it.wirePos + n < wireLen {
        fifo := fifo[i := it.(wirePos := it.wirePos + n)];
      } else {
        FinishFrame(i);
      }
    }

    /** The item to send from, with its frame prepared: what an iteration does before the system call. */
    method SelectAndPrepare() returns (i: nat)
      requires Valid() && crc == C.Crc && fifo != []
      modifies this`fifo, this`active
      ensures Valid() && View() == Step(crc, old(View()), Stall)
      ensures i < |fifo| && i == Select(old(View())) && active == Some(fifo[i].id)
      ensures i < |old(fifo)| && fifo == old(fifo)[i := Prepare(crc, old(fifo)[i])]
    {
      StallKeepsShape(crc, View());
      SelectIsSchedulable(crc, View());
      i := NextTx();
      var it := PrepareFrame(fifo[i], crc);
      fifo := fifo[i := it];
    }

    /** Select, prepare, gather and cap: the item to send from and how many of its octets are offered. */
    method OfferNext(budget: nat) returns (i: nat, most: nat)
      requires Valid() && crc == C.Crc && fifo != [] && 0 < budget
      modifies this`fifo, this`active
      ensures Valid() && View() == Step(crc, old(View()), Stall)
      ensures i < |fifo| && i == Select(old(View())) && active == Some(fifo[i].id)
      ensures i < |old(fifo)| && fifo == old(fifo)[i := Prepare(crc, old(fifo)[i])]
      ensures 0 < most <= budget && ItemOk(crc, fifo[i]) && fifo[i].header.Some?
      ensures fifo[i].wirePos + most <= HEADER_SIZE + fifo[i].header.value.payloadLen == |Octets(FrameOf(fifo[i]))|
      ensures !fifo[i].msg.kind.Data? ==> control != [] && control[0] == fifo[i].id
    {
      ghost var before := View();
      SelectIsSchedulable(crc, before);
      i := SelectAndPrepare();
      PrepareIsFrameAt(crc, before.fifo[i]);
      var offered := Offer(fifo[i], budget, crc);
      most := |Gathered(offered)|;
    }

    /** `n` octets were accepted after the stall that `before` led to. */
    method AdvanceFrom(ghost before: Tx, i: nat, n: nat)
      requires Valid() && Shape(crc, before) && i < |before.fifo| && i == Select(before) && 0 < n
      requires View() == before.(fifo := before.fifo[i := Prepare(crc, before.fifo[i])], active := Some(before.fifo[i].id))
      requires ItemOk(crc, fifo[i]) && fifo[i].header.Some?
      requires fifo[i].wirePos + n <= HEADER_SIZE + fifo[i].header.value.payloadLen == |Octets(FrameOf(fifo[i]))|
      requires !fifo[i].msg.kind.Data? ==> control != [] && control[0] == fifo[i].id
      modifies this
      ensures Valid() && View() == Step(crc, before, Write(n - 1)) && |output| == |before.output| + n
    {
      WriteAfterStall(crc, before, View(), i, n);
      Advance(i, n);
    }

    /** One iteration of the send loop: select, prepare, gather, cap, and let the kernel take `outcome`. */
    method SendOnce(budget: nat, outcome: Kernel) returns (n: nat, ghost event: Event)
      requires Valid() && crc == C.Crc && fifo != [] && 0 < budget
      modifies this
      ensures Valid() && View() == Step(crc, old(View()), event)
      ensures n <= budget && |output| == |old(output)| + n
      ensures if outcome.Accepted? then 0 < n && event == Write(n - 1) else n == 0 && event == Stall
    {
      ghost var before := View();
      var i, most := OfferNext(budget);
      n := 0;
      event := Stall;
      if outcome.Accepted? {
        n := most;
        if 0 < outcome.octets < n {
          n := outcome.octets;
        }
        event := Write(n - 1);
        AdvanceFrom(before, i, n);
      }
    }

    /** The send loop of tr_connection_flush_tx against every behaviour of the kernel. Returns the events
        it amounts to, whether the connection must be closed, and what is left of the budget. */
    method FlushTx(budget: nat, kernel: seq<Kernel>) returns (ghost events: seq<Event>, failed: bool, left: nat)
      requires Valid() && crc == C.Crc
      modifies this
      ensures Valid() && View() == Run(crc, old(View()), events)
      ensures left <= budget && |output| == |old(output)| + budget - left
    {
      events := [];
      failed := false;
      left := budget;
      var k := 0;
      while k < |kernel| && left != 0 && fifo != []
        invariant 0 <= k <= |kernel| && Valid() && View() == Run(crc, old(View()), events)
        invariant left <= budget && |output| == |old(output)| + budget - left
      {
        ghost var event;
        var n;
        n, event := SendOnce(left, kernel[k]);
        RunSnoc(crc, old(View()), events, event);
        events := events + [event];
        left := left - n;
        if kernel[k].WouldBlock? || kernel[k].Failed? {
          failed := kernel[k].Failed?;
          return;
        }
        k := k + 1;
      }
    }
  }

  /** A write is a stall in which the kernel then takes something. */
  lemma CommitAfterStall(crc: Checksum, s: Tx, stalled: Tx, i: nat, n: nat)
    requires i < |s.fifo| && i == Select(s) && 0 < n
    requires stalled == s.(fifo := s.fifo[i := Prepare(crc, s.fifo[i])], active := Some(s.fifo[i].id))
    ensures Commit(stalled, i, stalled.fifo[i], n) == Step(crc, s, Write(n - 1))
  {
    var it := Prepare(crc, s.fifo[i]);
    assert Remove(stalled.fifo, i) == Remove(s.fifo, i);
    var next := it.pos + FrameOf(it).header.payloadLen;
    assert stalled.fifo[i := TxItem(it.id, it.msg, next, None, 0)] == s.fifo[i := TxItem(it.id, it.msg, next, None, 0)];
    assert stalled.fifo[i := it.(wirePos := it.wirePos + n)] == s.fifo[i := it.(wirePos := it.wirePos + n)];
  }

  /** What a write leaves behind, seen from the stall that precedes it. */
  lemma WriteAfterStall(crc: Checksum, s: Tx, stalled: Tx, i: nat, n: nat)
    requires Shape(crc, s) && i < |s.fifo| && i == Select(s) && 0 < n
    requires stalled == s.(fifo := s.fifo[i := Prepare(crc, s.fifo[i])], active := Some(s.fifo[i].id))
    requires stalled.fifo[i].wirePos + n <= |Octets(FrameOf(stalled.fifo[i]))|
    ensures var t := Commit(stalled, i, stalled.fifo[i], n);
      && t == Step(crc, s, Write(n - 1)) && Shape(crc, t) && t.messages == s.messages && |t.output| == |s.output| + n
  {
    StepKeepsShape(crc, s, Write(n - 1));
    CommitAfterStall(crc, s, stalled, i, n);
    CommitOutputs(stalled, i, stalled.fifo[i], n);
  }

  lemma CommitOutputs(s: Tx, i: nat, it: TxItem, n: nat)
    requires i < |s.fifo| && it.wirePos + n <= |Octets(FrameOf(it))|
    ensures |Commit(s, i, it, n).output| == |s.output| + n
  {
  }

  lemma {:induction false} RunSnoc(crc: Checksum, s: Tx, events: seq<Event>, e: Event)
    ensures Run(crc, s, events + [e]) == Step(crc, Run(crc, s, events), e)
    decreases |events|
  {
    if events == [] {
      assert (events + [e])[1..] == [];
    } else {
      RunSnoc(crc, Step(crc, s, events[0]), events[1..], e);
      assert (events + [e])[1..] == events[1..] + [e];
    }
  }
}
