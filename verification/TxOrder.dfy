/** What the TX scheduler guarantees over every run: its lists stay consistent, the only reordering is
    a header-only control frame overtaking DATA with no fence between them, and a DATA head is
    overtaken by at most CONTROL_BURST control frames between two of its own. */
module TxOrder {
  import opened TxFrames
  import opened TxQueue
  import opened Status

  // Every step keeps the shape.

  lemma PrepareIsFrameAt(crc: Checksum, it: TxItem)
    requires ItemOk(crc, it)
    ensures var p := Prepare(crc, it);
      && ItemOk(crc, p) && p.header.Some? && p == it.(header := p.header)
      && FrameOf(p) == FrameAt(crc, it.msg, it.pos)
      && |Octets(FrameOf(p))| == HEADER_SIZE + FrameLen(it.msg, it.pos)
      && p.wirePos < |Octets(FrameOf(p))|
  {
  }

  predicate OthersIdle(fifo: seq<TxItem>, i: nat) {
    forall j :: 0 <= j < |fifo| && j != i ==> fifo[j].wirePos == 0
  }

  lemma ReplaceKeepsShape(crc: Checksum, s: Tx, i: nat, it: TxItem, t: Tx)
    requires Shape(crc, s) && Schedulable(s.fifo, s.streak, i) && OthersIdle(s.fifo, i)
    requires it.id == s.fifo[i].id && it.msg == s.fifo[i].msg && ItemOk(crc, it) && (i != 0 ==> it.pos == 0)
    requires t.fifo == s.fifo[i := it] && t.control == s.control && t.messages == s.messages
    requires t.streak <= CONTROL_BURST
    requires it.wirePos != 0 ==> t.active == Some(it.id) && t.streak == s.streak
    ensures Shape(crc, t)
  {
    ReplaceKeepsControl(s.fifo, i, it);
  }

  lemma RemoveKeepsItems(crc: Checksum, fifo: seq<TxItem>, messages: seq<Message>, i: nat)
    requires Ids(fifo, messages) && ItemsOk(crc, fifo) && i < |fifo| && OthersIdle(fifo, i)
    ensures Ids(Remove(fifo, i), messages) && ItemsOk(crc, Remove(fifo, i))
    ensures forall j :: 0 <= j < |fifo| - 1 ==> Remove(fifo, i)[j].wirePos == 0
  {
    var r := Remove(fifo, i);
    assert forall j :: 0 <= j < |r| ==> r[j] == fifo[if j < i then j else j + 1];
  }

  lemma RemoveKeepsShape(crc: Checksum, s: Tx, i: nat, t: Tx)
    requires Shape(crc, s) && Schedulable(s.fifo, s.streak, i) && OthersIdle(s.fifo, i)
    requires !s.fifo[i].msg.kind.Data? ==> i == FirstControl(s.fifo)
    requires t.fifo == Remove(s.fifo, i) && t.messages == s.messages && t.streak <= CONTROL_BURST
    requires t.control == if s.fifo[i].msg.kind.Data? then s.control else Drop(s.control)
    ensures Shape(crc, t)
  {
    RemoveKeepsItems(crc, s.fifo, s.messages, i);
    FirstControlIs(s.fifo);
    if s.fifo[i].msg.kind.Data? {
      assert t.fifo == s.fifo[1..];
    } else {
      RemoveFirstControl(s.fifo);
    }
  }

  lemma CommitKeepsShape(crc: Checksum, s: Tx, i: nat, k: nat)
    requires Shape(crc, s) && Schedulable(s.fifo, s.streak, i) && OthersIdle(s.fifo, i)
    requires !s.fifo[i].msg.kind.Data? ==> i == FirstControl(s.fifo)
    requires 0 < k
    ensures Shape(crc, Commit(s, i, Prepare(crc, s.fifo[i]), k))
  {
    var it := Prepare(crc, s.fifo[i]);
    var t := Commit(s, i, it, k);
    PrepareIsFrameAt(crc, s.fifo[i]);
    FirstControlIs(s.fifo);
    var wire := |Octets(FrameOf(it))|;
    var pos := it.pos + FrameLen(it.msg, it.pos);
    if it.wirePos + k < wire {
      ReplaceKeepsShape(crc, s, i, it.(wirePos := it.wirePos + k), t);
    } else if it.msg.kind.Data? && pos < |Body(it.msg)| {
      ReplaceKeepsShape(crc, s, i, TxItem(it.id, it.msg, pos, None, 0), t);
    } else {
      RemoveKeepsShape(crc, s, i, t);
    }
  }

  lemma StallKeepsShape(crc: Checksum, s: Tx)
    requires Shape(crc, s)
    ensures Shape(crc, Step(crc, s, Stall))
  {
    if s.fifo != [] {
      SelectIsSchedulable(crc, s);
      var i := Select(s);
      PrepareIsFrameAt(crc, s.fifo[i]);
      ReplaceKeepsShape(crc, s, i, Prepare(crc, s.fifo[i]), Step(crc, s, Stall));
    } else {
      SelectEmpty(s);
    }
  }

  lemma SelectEmpty(s: Tx)
    requires s.fifo == []
    ensures Select(s) == 0
  {
  }

  lemma AppendKeepsItems(crc: Checksum, fifo: seq<TxItem>, messages: seq<Message>, m: Message, early: bool)
    requires Ids(fifo, messages) && ItemsOk(crc, fifo) && Sendable(m)
    ensures var t := fifo + [NewItem(crc, |messages|, m, early)]; Ids(t, messages + [m]) && ItemsOk(crc, t)
  {
  }

  lemma AppendKeepsInFlight(s: Tx, it: TxItem, t: Tx)
    requires InFlightOk(s) && it.wirePos == 0
    requires t.fifo == s.fifo + [it] && t.active == s.active && t.streak == s.streak
    ensures InFlightOk(t)
  {
    AppendExtendsControl(s.fifo, it);
    FirstControlIs(s.fifo);
  }

  lemma EnqueueKeepsShape(crc: Checksum, s: Tx, m: Message, early: bool)
    requires Shape(crc, s)
    ensures Shape(crc, Enqueue(crc, s, m, early))
  {
    if Sendable(m) {
      var it := NewItem(crc, |s.messages|, m, early);
      AppendKeepsItems(crc, s.fifo, s.messages, m, early);
      AppendKeepsInFlight(s, it, Enqueue(crc, s, m, early));
      AppendExtendsControl(s.fifo, it);
    }
  }

  /** A write to a nonempty queue is a commit of the selected item. */
  lemma WriteIsCommit(crc: Checksum, s: Tx, n: nat) returns (i: nat)
    requires Shape(crc, s) && s.fifo != []
    ensures Schedulable(s.fifo, s.streak, i) && OthersIdle(s.fifo, i)
    ensures !s.fifo[i].msg.kind.Data? ==> i == FirstControl(s.fifo)
    ensures Step(crc, s, Write(n)) == Commit(s, i, Prepare(crc, s.fifo[i]), n + 1)
  {
    SelectIsSchedulable(crc, s);
    i := Select(s);
  }

  lemma WriteKeepsShape(crc: Checksum, s: Tx, n: nat)
    requires Shape(crc, s) && s.fifo != []
    ensures Shape(crc, Step(crc, s, Write(n)))
  {
    var i := WriteIsCommit(crc, s, n);
    CommitKeepsShape(crc, s, i, n + 1);
  }

  lemma StepKeepsShape(crc: Checksum, s: Tx, e: Event)
    requires Shape(crc, s)
    ensures Shape(crc, Step(crc, s, e))
  {
    match e
    case Send(m, early) => EnqueueKeepsShape(crc, s, m, early);
    case Stall => StallKeepsShape(crc, s);
    case Write(n) =>
      if s.fifo != [] {
        WriteKeepsShape(crc, s, n);
      } else {
        SelectEmpty(s);
      }
  }

  lemma {:induction false} RunKeepsShape(crc: Checksum, s: Tx, events: seq<Event>)
    requires Shape(crc, s)
    ensures Shape(crc, Run(crc, s, events))
    decreases |events|
  {
    if events != [] {
      StepKeepsShape(crc, s, events[0]);
      RunKeepsShape(crc, Step(crc, s, events[0]), events[1..]);
    }
  }

  // Order.

  /** `x`, enqueued after `y`, may still be sent before it. */
  predicate MayOvertake(messages: seq<Message>, x: nat, y: nat)
    requires x < |messages|
  {
    && y < x
    && messages[y].kind.Data? && CanBypass(messages[x])
    && (forall z :: y < z < x ==> !Fence(messages[z]))
  }

  predicate SentKnown(s: Tx) {
    forall p :: 0 <= p < |s.sent| ==> s.sent[p] < |s.messages|
  }

  /** Whatever overtook an item still queued was allowed to. */
  predicate AheadOfQueue(s: Tx)
    requires SentKnown(s)
  {
    forall p, j :: 0 <= p < |s.sent| && 0 <= j < |s.fifo| && s.fifo[j].id < s.sent[p] ==>
      MayOvertake(s.messages, s.sent[p], s.fifo[j].id)
  }

  /** An item that left the queue was sent. */
  predicate GoneIsSent(s: Tx) {
    forall id: nat :: id < |s.messages| && (forall j :: 0 <= j < |s.fifo| ==> s.fifo[j].id != id) ==> id in s.sent
  }

  /** Two writes are out of enqueue order only if the earlier one was allowed to overtake. */
  predicate WritesOrdered(s: Tx)
    requires SentKnown(s)
  {
    forall p, q :: 0 <= p < q < |s.sent| && s.sent[q] < s.sent[p] ==> MayOvertake(s.messages, s.sent[p], s.sent[q])
  }

  predicate Order(s: Tx) {
    SentKnown(s) && AheadOfQueue(s) && GoneIsSent(s) && WritesOrdered(s)
  }

  /** The histories and the queue contents after a write to item `i`. */
  lemma CommitHistory(crc: Checksum, s: Tx, i: nat, k: nat)
    requires Shape(crc, s) && i < |s.fifo|
    ensures var t := Commit(s, i, Prepare(crc, s.fifo[i]), k);
      && t.sent == s.sent + [s.fifo[i].id] && t.messages == s.messages
      && (forall j :: 0 <= j < |t.fifo| ==> exists l :: 0 <= l < |s.fifo| && s.fifo[l].id == t.fifo[j].id)
      && (forall l :: 0 <= l < |s.fifo| && l != i ==> exists j :: 0 <= j < |t.fifo| && s.fifo[l].id == t.fifo[j].id)
  {
    var t := Commit(s, i, Prepare(crc, s.fifo[i]), k);
    if |t.fifo| == |s.fifo| {
      assert forall j :: 0 <= j < |s.fifo| ==> t.fifo[j].id == s.fifo[j].id;
    } else {
      assert t.fifo == Remove(s.fifo, i);
      forall l | 0 <= l < |s.fifo| && l != i
        ensures exists j :: 0 <= j < |t.fifo| && s.fifo[l].id == t.fifo[j].id
      {
        assert t.fifo[if l < i then l else l - 1] == s.fifo[l];
      }
    }
  }

  /** The scheduled item may overtake everything queued before it. */
  lemma ScheduledMayOvertake(crc: Checksum, s: Tx, i: nat, j: nat)
    requires Shape(crc, s) && Order(s) && Schedulable(s.fifo, s.streak, i) && j < i
    ensures MayOvertake(s.messages, s.fifo[i].id, s.fifo[j].id)
  {
    FirstControlIs(s.fifo);
    var x, y := s.fifo[i].id, s.fifo[j].id;
    forall z: nat | y < z < x
      ensures !Fence(s.messages[z])
    {
      if l :| 0 <= l < |s.fifo| && s.fifo[l].id == z {
        assert l < i;
      } else {
        assert z in s.sent;
        var p :| 0 <= p < |s.sent| && s.sent[p] == z;
        assert MayOvertake(s.messages, z, y);
      }
    }
  }

  lemma CommitKeepsOrder(crc: Checksum, s: Tx, i: nat, k: nat)
    requires Shape(crc, s) && Order(s) && Schedulable(s.fifo, s.streak, i)
    ensures Order(Commit(s, i, Prepare(crc, s.fifo[i]), k))
  {
    var t := Commit(s, i, Prepare(crc, s.fifo[i]), k);
    CommitHistory(crc, s, i, k);
    CommitKeepsWritesOrdered(s, i, t);
    CommitKeepsAhead(crc, s, i, t);
    CommitKeepsGone(s, i, t);
  }

  lemma CommitKeepsWritesOrdered(s: Tx, i: nat, t: Tx)
    requires Order(s) && i < |s.fifo| && s.fifo[i].id < |s.messages|
    requires t.sent == s.sent + [s.fifo[i].id] && t.messages == s.messages
    ensures SentKnown(t) && WritesOrdered(t)
  {
  }

  lemma CommitKeepsAhead(crc: Checksum, s: Tx, i: nat, t: Tx)
    requires Shape(crc, s) && Order(s) && Schedulable(s.fifo, s.streak, i)
    requires t.sent == s.sent + [s.fifo[i].id] && t.messages == s.messages
    requires forall j :: 0 <= j < |t.fifo| ==> exists l :: 0 <= l < |s.fifo| && s.fifo[l].id == t.fifo[j].id
    ensures SentKnown(t) && AheadOfQueue(t)
  {
    forall p, j | 0 <= p < |t.sent| && 0 <= j < |t.fifo| && t.fifo[j].id < t.sent[p]
      ensures MayOvertake(t.messages, t.sent[p], t.fifo[j].id)
    {
      var l :| 0 <= l < |s.fifo| && s.fifo[l].id == t.fifo[j].id;
      if p == |s.sent| {
        assert l < i;
        ScheduledMayOvertake(crc, s, i, l);
      }
    }
  }

  lemma CommitKeepsGone(s: Tx, i: nat, t: Tx)
    requires Order(s) && i < |s.fifo|
    requires t.sent == s.sent + [s.fifo[i].id] && t.messages == s.messages
    requires forall l :: 0 <= l < |s.fifo| && l != i ==> exists j :: 0 <= j < |t.fifo| && s.fifo[l].id == t.fifo[j].id
    ensures GoneIsSent(t)
  {
    forall id: nat | id < |t.messages| && (forall j :: 0 <= j < |t.fifo| ==> t.fifo[j].id != id)
      ensures id in t.sent
    {
      if l :| 0 <= l < |s.fifo| && s.fifo[l].id == id {
        assert l == i;
        assert t.sent[|s.sent|] == id;
      } else {
        assert id in s.sent;
      }
    }
  }

  lemma EnqueueKeepsOrder(crc: Checksum, s: Tx, m: Message, early: bool)
    requires Shape(crc, s) && Order(s)
    ensures Order(Enqueue(crc, s, m, early))
  {
    if Sendable(m) {
      var t := Enqueue(crc, s, m, early);
      assert forall j :: 0 <= j < |s.fifo| ==> t.fifo[j] == s.fifo[j];
      assert t.fifo[|s.fifo|].id == |s.messages|;
      assert SentKnown(t);
      forall x: nat, y: nat | x < |s.messages| && MayOvertake(s.messages, x, y)
        ensures MayOvertake(t.messages, x, y)
      {
        assert forall z :: y <= z <= x ==> t.messages[z] == s.messages[z];
      }
      GoneAfterEnqueue(crc, s, m, early);
    }
  }

  lemma GoneAfterEnqueue(crc: Checksum, s: Tx, m: Message, early: bool)
    requires Order(s) && Sendable(m)
    ensures GoneIsSent(Enqueue(crc, s, m, early))
  {
    var t := Enqueue(crc, s, m, early);
    forall id: nat | id < |t.messages| && (forall j :: 0 <= j < |t.fifo| ==> t.fifo[j].id != id)
      ensures id in t.sent
    {
      assert t.fifo[|s.fifo|].id == |s.messages|;
      assert forall j :: 0 <= j < |s.fifo| ==> s.fifo[j] == t.fifo[j];
    }
  }

  lemma StallKeepsOrder(crc: Checksum, s: Tx)
    requires Shape(crc, s) && Order(s)
    ensures Order(Step(crc, s, Stall))
  {
    var t := Step(crc, s, Stall);
    assert |t.fifo| == |s.fifo|;
    assert forall j :: 0 <= j < |s.fifo| ==> t.fifo[j].id == s.fifo[j].id;
  }

  lemma StepKeepsOrder(crc: Checksum, s: Tx, e: Event)
    requires Shape(crc, s) && Order(s)
    ensures Order(Step(crc, s, e))
  {
    match e
    case Send(m, early) => EnqueueKeepsOrder(crc, s, m, early);
    case Stall => StallKeepsOrder(crc, s);
    case Write(n) =>
      if s.fifo != [] {
        var i := WriteIsCommit(crc, s, n);
        CommitKeepsOrder(crc, s, i, n + 1);
      } else {
        SelectEmpty(s);
      }
  }

  lemma {:induction false} RunKeepsOrder(crc: Checksum, s: Tx, events: seq<Event>)
    requires Shape(crc, s) && Order(s)
    ensures Shape(crc, Run(crc, s, events)) && Order(Run(crc, s, events))
    decreases |events|
  {
    if events != [] {
      StepKeepsShape(crc, s, events[0]);
      StepKeepsOrder(crc, s, events[0]);
      RunKeepsOrder(crc, Step(crc, s, events[0]), events[1..]);
    }
  }

  predicate Queued(s: Tx, id: nat) {
    exists j :: 0 <= j < |s.fifo| && s.fifo[j].id == id
  }

  /** In every run, when two writes are out of enqueue order, the overtaker is a header-only control
      message, the overtaken one is DATA, and no fence was enqueued between them. In particular DATA is
      sent in enqueue order, control is sent in enqueue order, and a fence neither overtakes nor is
      overtaken. */
  lemma OnlyControlOvertakesData(crc: Checksum, events: seq<Event>, p: nat, q: nat)
    requires var s := Run(crc, EMPTY, events); p < q < |s.sent| && s.sent[q] < s.sent[p]
    ensures var s := Run(crc, EMPTY, events); var x, y := s.sent[p], s.sent[q];
      && x < |s.messages|
      && s.messages[y].kind.Data? && CanBypass(s.messages[x])
      && (forall z :: y < z < x ==> !Fence(s.messages[z]))
  {
    RunKeepsOrder(crc, EMPTY, events);
    assert MayOvertake(Run(crc, EMPTY, events).messages, Run(crc, EMPTY, events).sent[p], Run(crc, EMPTY, events).sent[q]);
  }

  /** Once any octet of message `x` is out, every earlier message has left the queue completely, unless
      it is DATA that `x` may overtake. */
  lemma EarlierMessagesAreDone(crc: Checksum, events: seq<Event>, x: nat, y: nat)
    requires var s := Run(crc, EMPTY, events); x in s.sent && y < x && Queued(s, y)
    ensures var s := Run(crc, EMPTY, events);
      && x < |s.messages| && s.messages[y].kind.Data? && CanBypass(s.messages[x])
      && (forall z :: y < z < x ==> !Fence(s.messages[z]))
  {
    var s := Run(crc, EMPTY, events);
    RunKeepsOrder(crc, EMPTY, events);
    var p :| 0 <= p < |s.sent| && s.sent[p] == x;
    var j :| 0 <= j < |s.fifo| && s.fifo[j].id == y;
    assert MayOvertake(s.messages, x, y);
  }

  /** The assertion in tr_connection_complete_tx never fails: a selected control item is the oldest one. */
  lemma ControlHeadAssertionHolds(crc: Checksum, events: seq<Event>)
    ensures var s := Run(crc, EMPTY, events);
      var i := Select(s);
      s.fifo != [] ==> i < |s.fifo| && (!s.fifo[i].msg.kind.Data? ==> s.control != [] && s.control[0] == s.fifo[i].id)
  {
    RunKeepsShape(crc, EMPTY, events);
    var s := Run(crc, EMPTY, events);
    if s.fifo != [] {
      SelectIsSchedulable(crc, s);
    }
  }

  // The burst bound.

  predicate NoDataIn(frames: seq<Sent>) {
    forall i :: 0 <= i < |frames| ==> !frames[i].frame.header.kind.Data?
  }

  predicate DataHead(s: Tx) {
    s.fifo != [] && s.fifo[0].msg.kind.Data?
  }

  lemma StallCounts(crc: Checksum, s: Tx)
    requires Shape(crc, s) && DataHead(s)
    ensures var t := Step(crc, s, Stall); t.frames == s.frames && t.streak == s.streak && DataHead(t)
  {
    SelectIsSchedulable(crc, s);
  }

  /** One write from a DATA head: either a DATA frame completes, or the head stays and the streak counts
      the control frames completed. */
  lemma WriteCounts(crc: Checksum, s: Tx, n: nat)
    requires Shape(crc, s) && DataHead(s)
    ensures var t := Step(crc, s, Write(n));
      && s.frames <= t.frames
      && (NoDataIn(t.frames[|s.frames|..]) ==>
            DataHead(t) && t.streak == s.streak + |t.frames| - |s.frames|)
  {
    var i := WriteIsCommit(crc, s, n);
    CommitCounts(crc, s, i, n + 1);
  }

  lemma CommitCounts(crc: Checksum, s: Tx, i: nat, k: nat)
    requires Shape(crc, s) && DataHead(s) && Schedulable(s.fifo, s.streak, i)
    ensures var t := Commit(s, i, Prepare(crc, s.fifo[i]), k);
      && s.frames <= t.frames
      && (NoDataIn(t.frames[|s.frames|..]) ==>
            DataHead(t) && t.streak == s.streak + |t.frames| - |s.frames|)
  {
    var it := Prepare(crc, s.fifo[i]);
    var t := Commit(s, i, it, k);
    PrepareIsFrameAt(crc, s.fifo[i]);
    if |t.frames| != |s.frames| {
      assert t.frames[|s.frames|..] == [Sent(it.id, FrameOf(it))];
      assert t.frames[|s.frames|..][0].frame.header.kind == it.msg.kind;
    }
  }

  /** While the head is DATA, however many sends and partial writes happen, at most CONTROL_BURST minus
      the current streak control frames complete before the next DATA frame does. */
  lemma {:induction false} BurstIsBounded(crc: Checksum, s: Tx, events: seq<Event>)
    requires Shape(crc, s) && DataHead(s)
    ensures var t := Run(crc, s, events);
      && s.frames <= t.frames
      && (NoDataIn(t.frames[|s.frames|..]) ==> |t.frames| - |s.frames| <= CONTROL_BURST - s.streak)
    decreases |events|
  {
    if events != [] {
      var u := Step(crc, s, events[0]);
      StepKeepsShape(crc, s, events[0]);
      match events[0] {
        case Send(m, early) =>
        case Stall => StallCounts(crc, s);
        case Write(n) => WriteCounts(crc, s, n);
      }
      RunExtendsFrames(crc, u, events[1..]);
      var t := Run(crc, s, events);
      if NoDataIn(t.frames[|s.frames|..]) {
        PartsHaveNoData(s.frames, u.frames, t.frames);
        BurstIsBounded(crc, u, events[1..]);
      }
    }
  }

  lemma PartsHaveNoData(a: seq<Sent>, b: seq<Sent>, c: seq<Sent>)
    requires a <= b <= c && NoDataIn(c[|a|..])
    ensures NoDataIn(b[|a|..]) && NoDataIn(c[|b|..])
  {
    forall i | 0 <= i < |b| - |a|
      ensures !b[|a|..][i].frame.header.kind.Data?
    {
      assert b[|a|..][i] == c[|a|..][i];
    }
    forall i | 0 <= i < |c| - |b|
      ensures !c[|b|..][i].frame.header.kind.Data?
    {
      assert c[|b|..][i] == c[|a|..][i + |b| - |a|];
    }
  }

  lemma {:induction false} RunExtendsFrames(crc: Checksum, s: Tx, events: seq<Event>)
    ensures s.frames <= Run(crc, s, events).frames
    decreases |events|
  {
    if events != [] {
      var u := Step(crc, s, events[0]);
      StepExtendsFrames(crc, s, events[0], u);
      RunExtendsFrames(crc, u, events[1..]);
    }
  }

  lemma StepExtendsFrames(crc: Checksum, s: Tx, e: Event, u: Tx)
    requires u == Step(crc, s, e)
    ensures s.frames <= u.frames
  {
  }
}
