/** What the TX scheduler does, not only what it may do: whom it selects, how the streak is counted, and that writes
    drain the queue. */
module TxProgress {
  import opened Status
  import opened TxFrames
  import opened TxQueue
  import opened TxOrder
  import opened TxStream

  // Selection.

  predicate HalfSent(s: Tx, i: nat) {
    i < |s.fifo| && s.fifo[i].wirePos != 0
  }

  /** The oldest control item may overtake the DATA head now. */
  predicate Overtakes(s: Tx) {
    && DataHead(s) && s.streak < CONTROL_BURST
    && FirstControl(s.fifo) < |s.fifo| && CanBypass(s.fifo[FirstControl(s.fifo)].msg)
  }

  /** The scheduler selects the half-sent item if there is one; otherwise the oldest control item exactly when it may
      overtake the DATA head and the streak is below its limit; otherwise the head. */
  lemma SelectIsExact(crc: Checksum, s: Tx)
    requires Shape(crc, s) && s.fifo != []
    ensures forall i: nat :: HalfSent(s, i) ==> Select(s) == i
    ensures (forall i: nat :: !HalfSent(s, i)) ==> Select(s) == if Overtakes(s) then FirstControl(s.fifo) else 0
  {
    FirstControlIs(s.fifo);
    if s.active.Some? {
      FindSound(s.fifo, s.active.value);
      assert Pinned(s) ==> HalfSent(s, Find(s.fifo, s.active.value));
    }
    forall i: nat | HalfSent(s, i)
      ensures Select(s) == i
    {
      FindAt(s.fifo, i);
    }
    if FirstControl(s.fifo) < |s.fifo| {
      FindAt(s.fifo, FirstControl(s.fifo));
    }
  }

  /** A control message may overtake exactly if what reaches the wire is a bare header without flags: WINDOW_UPDATE of
      a stream, or PING or PONG of the connection. */
  lemma OvertakersAreBareHeaders(crc: Checksum, m: Message)
    requires Sendable(m) && !m.kind.Data?
    ensures var frames := Fragments(crc, m, 0);
      CanBypass(m) <==>
        && |frames| == 1 && |Octets(frames[0])| == HEADER_SIZE && frames[0].header.flags == NO_FLAGS
        && (if frames[0].header.stream == 0 then frames[0].header.kind.Ping? || frames[0].header.kind.Pong?
            else frames[0].header.kind.WindowUpdate?)
  {
    assert FrameLen(m, 0) == |Body(m)|;
    assert Fragments(crc, m, 0) == [FrameAt(crc, m, 0)];
  }

  // The streak.

  /** How many overtaking frames were completed since the last DATA frame, up to the limit. */
  function StreakOf(messages: seq<Message>, frames: seq<Sent>): nat {
    if frames == [] then 0 else
      var id := frames[|frames| - 1].id;
      var before := StreakOf(messages, frames[..|frames| - 1]);
      if id >= |messages| then before
      else if messages[id].kind.Data? then 0
      else if CanBypass(messages[id]) && before < CONTROL_BURST then before + 1
      else before
  }

  lemma {:induction false} StreakIgnoresLater(messages: seq<Message>, m: Message, frames: seq<Sent>)
    requires forall p :: 0 <= p < |frames| ==> frames[p].id < |messages|
    ensures StreakOf(messages + [m], frames) == StreakOf(messages, frames)
  {
    if frames != [] {
      StreakIgnoresLater(messages, m, frames[..|frames| - 1]);
    }
  }

  predicate Known(s: Tx) {
    forall p :: 0 <= p < |s.frames| ==> s.frames[p].id < |s.messages|
  }

  predicate Counted(s: Tx) {
    Known(s) && s.streak == StreakOf(s.messages, s.frames)
  }

  lemma CommitCountsStreak(crc: Checksum, s: Tx, i: nat, k: nat)
    requires Shape(crc, s) && Counted(s) && i < |s.fifo|
    ensures Counted(Commit(s, i, Prepare(crc, s.fifo[i]), k))
  {
    var it := Prepare(crc, s.fifo[i]);
    var t := Commit(s, i, it, k);
    assert it.id < |s.messages| && it.msg == s.messages[it.id];
    if t.frames != s.frames {
      assert t.frames[..|s.frames|] == s.frames;
    }
  }

  lemma StepCountsStreak(crc: Checksum, s: Tx, e: Event)
    requires Shape(crc, s) && Counted(s)
    ensures Counted(Step(crc, s, e))
  {
    match e
    case Send(m, early) => if Sendable(m) { StreakIgnoresLater(s.messages, m, s.frames); }
    case Stall =>
    case Write(n) =>
      if s.fifo != [] {
        var i := WriteIsCommit(crc, s, n);
        CommitCountsStreak(crc, s, i, n + 1);
      } else {
        SelectEmpty(s);
      }
  }

  /** In every run the streak is the number of overtaking frames completed since the last DATA frame. */
  lemma {:induction false} StreakIsCounted(crc: Checksum, s: Tx, events: seq<Event>)
    requires Shape(crc, s) && Counted(s)
    ensures Counted(Run(crc, s, events))
    decreases |events|
  {
    if events != [] {
      StepKeepsShape(crc, s, events[0]);
      StepCountsStreak(crc, s, events[0]);
      StreakIsCounted(crc, Step(crc, s, events[0]), events[1..]);
    }
  }

  /** In every run from the start: with no frame half sent, a DATA head is overtaken exactly when the oldest control
      item may overtake and fewer than eight have since the last DATA frame. */
  lemma OvertakingIsExact(crc: Checksum, events: seq<Event>)
    ensures var s := Run(crc, EMPTY, events);
      DataHead(s) && (forall i: nat :: !HalfSent(s, i)) ==>
        var c := FirstControl(s.fifo);
        if c < |s.fifo| && CanBypass(s.fifo[c].msg) && StreakOf(s.messages, s.frames) < CONTROL_BURST
        then Select(s) == c else Select(s) == 0
  {
    RunKeepsShape(crc, EMPTY, events);
    StreakIsCounted(crc, EMPTY, events);
    var s := Run(crc, EMPTY, events);
    if s.fifo != [] {
      SelectIsExact(crc, s);
    }
  }

  // Draining.

  /** A write hands over as many octets as the kernel takes, up to the end of the frame, and at least one. */
  lemma WriteHandsOver(crc: Checksum, s: Tx, n: nat)
    requires Shape(crc, s) && s.fifo != []
    ensures var it := Prepare(crc, s.fifo[Select(s)]);
      var rest := |Octets(FrameOf(it))| - it.wirePos;
      0 < rest && |Step(crc, s, Write(n)).output| == |s.output| + if n + 1 <= rest then n + 1 else rest
  {
    SelectIsSchedulable(crc, s);
    PrepareIsFrameAt(crc, s.fifo[Select(s)]);
  }

  function FramesLeft(crc: Checksum, it: TxItem): nat {
    if Sendable(it.msg) && it.pos <= |Body(it.msg)| then |Fragments(crc, it.msg, it.pos)| else 0
  }

  function ToGo(crc: Checksum, fifo: seq<TxItem>): nat {
    if fifo == [] then 0 else ToGo(crc, fifo[..|fifo| - 1]) + FramesLeft(crc, fifo[|fifo| - 1])
  }

  lemma {:induction false} ToGoUpdate(crc: Checksum, fifo: seq<TxItem>, i: nat, x: TxItem)
    requires i < |fifo|
    ensures ToGo(crc, fifo[i := x]) == ToGo(crc, fifo) - FramesLeft(crc, fifo[i]) + FramesLeft(crc, x)
    ensures FramesLeft(crc, fifo[i]) <= ToGo(crc, fifo)
  {
    var u, last := fifo[i := x], |fifo| - 1;
    if i == last {
      assert u[..last] == fifo[..last];
    } else {
      ToGoUpdate(crc, fifo[..last], i, x);
      assert u[..last] == fifo[..last][i := x];
    }
  }

  lemma {:induction false} ToGoRemove(crc: Checksum, fifo: seq<TxItem>, i: nat)
    requires i < |fifo|
    ensures ToGo(crc, Remove(fifo, i)) == ToGo(crc, fifo) - FramesLeft(crc, fifo[i])
    ensures FramesLeft(crc, fifo[i]) <= ToGo(crc, fifo)
  {
    var u, last := Remove(fifo, i), |fifo| - 1;
    if i == last {
      assert u == fifo[..last];
    } else {
      ToGoRemove(crc, fifo[..last], i);
      assert u[..|u| - 1] == Remove(fifo[..last], i) && u[|u| - 1] == fifo[last];
    }
  }

  lemma NextFrame(crc: Checksum, it: TxItem, x: TxItem)
    requires ItemOk(crc, it) && it.pos + FrameLen(it.msg, it.pos) < |Body(it.msg)|
    requires x == TxItem(it.id, it.msg, it.pos + FrameLen(it.msg, it.pos), None, 0)
    ensures FramesLeft(crc, x) == FramesLeft(crc, it) - 1
  {
  }

  lemma LastFrame(crc: Checksum, it: TxItem)
    requires ItemOk(crc, it) && it.pos + FrameLen(it.msg, it.pos) >= |Body(it.msg)|
    ensures FramesLeft(crc, it) == 1
  {
  }

  lemma EndedFrame(crc: Checksum, fifo: seq<TxItem>, i: nat, next: nat, after: seq<TxItem>)
    requires i < |fifo| && ItemOk(crc, fifo[i]) && next == fifo[i].pos + FrameLen(fifo[i].msg, fifo[i].pos)
    requires if fifo[i].msg.kind.Data? && next < |Body(fifo[i].msg)|
             then after == fifo[i := TxItem(fifo[i].id, fifo[i].msg, next, None, 0)] else after == Remove(fifo, i)
    ensures ToGo(crc, after) == ToGo(crc, fifo) - 1
  {
    if fifo[i].msg.kind.Data? && next < |Body(fifo[i].msg)| {
      var x := TxItem(fifo[i].id, fifo[i].msg, next, None, 0);
      ToGoUpdate(crc, fifo, i, x);
      NextFrame(crc, fifo[i], x);
    } else {
      ToGoRemove(crc, fifo, i);
      if !fifo[i].msg.kind.Data? {
        ControlIsOneFrame(crc, fifo[i]);
      }
      LastFrame(crc, fifo[i]);
    }
  }

  predicate FrameFits(crc: Checksum, s: Tx, n: nat) {
    Select(s) < |s.fifo| &&
    var it := Prepare(crc, s.fifo[Select(s)]); it.wirePos + n + 1 >= |Octets(FrameOf(it))|
  }

  lemma FullWriteEnds(crc: Checksum, s: Tx, n: nat, i: nat, next: nat)
    requires Shape(crc, s) && FrameFits(crc, s, n) && i == Select(s)
    requires next == s.fifo[i].pos + FrameLen(s.fifo[i].msg, s.fifo[i].pos)
    ensures Step(crc, s, Write(n)).fifo ==
      if s.fifo[i].msg.kind.Data? && next < |Body(s.fifo[i].msg)|
      then s.fifo[i := TxItem(s.fifo[i].id, s.fifo[i].msg, next, None, 0)] else Remove(s.fifo, i)
  {
    PrepareIsFrameAt(crc, s.fifo[i]);
    CommitEnds(s, i, Prepare(crc, s.fifo[i]), n + 1);
  }

  /** A write that takes the rest of the frame leaves one frame less to send. */
  lemma FullWriteSendsFrame(crc: Checksum, s: Tx, n: nat)
    requires Shape(crc, s) && FrameFits(crc, s, n)
    ensures ToGo(crc, Step(crc, s, Write(n)).fifo) == ToGo(crc, s.fifo) - 1
  {
    var i, after := Select(s), Step(crc, s, Write(n)).fifo;
    var next := s.fifo[i].pos + FrameLen(s.fifo[i].msg, s.fifo[i].pos);
    FullWriteEnds(crc, s, n, i, next);
    EndedFrame(crc, s.fifo, i, next, after);
  }

  predicate OnlyWrites(events: seq<Event>) {
    forall i :: 0 <= i < |events| ==> events[i].Write?
  }

  lemma WriteKeepsMessages(crc: Checksum, s: Tx, n: nat)
    ensures Step(crc, s, Write(n)).messages == s.messages
  {
  }

  /** From every state of every run, as many writes as there are frames left empty the queue. */
  lemma {:induction false} WritesDrain(crc: Checksum, s: Tx) returns (events: seq<Event>)
    requires Shape(crc, s)
    ensures OnlyWrites(events) && |events| == ToGo(crc, s.fifo)
    ensures Run(crc, s, events).fifo == [] && Run(crc, s, events).messages == s.messages
    decreases ToGo(crc, s.fifo)
  {
    if s.fifo == [] {
      events := [];
    } else {
      SelectIsSchedulable(crc, s);
      var n := |Octets(FrameOf(Prepare(crc, s.fifo[Select(s)])))|;
      FullWriteSendsFrame(crc, s, n);
      StepKeepsShape(crc, s, Write(n));
      WriteKeepsMessages(crc, s, n);
      var rest := WritesDrain(crc, Step(crc, s, Write(n)));
      events := [Write(n)] + rest;
      assert events[1..] == rest;
    }
  }
}
