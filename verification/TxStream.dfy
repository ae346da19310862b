/** What goes over the wire in every run, whatever the kernel accepts per write: the octet stream is whole
    frames followed by a proper prefix of one more, and the frames of each message, picked out of the
    stream, are its reference fragmentation. */
module TxStream {
  import opened TxFrames
  import opened TxQueue
  import opened TxOrder
  import opened Status

  function Flat(frames: seq<Sent>): seq<Octet> {
    if frames == [] then [] else Flat(frames[..|frames| - 1]) + Octets(frames[|frames| - 1].frame)
  }

  /** The frames of message `id`, in the order they were completed. */
  function Delivered(frames: seq<Sent>, id: nat): seq<Frame> {
    if frames == [] then [] else
      var last := frames[|frames| - 1];
      var before := Delivered(frames[..|frames| - 1], id);
      if last.id == id then before + [last.frame] else before
  }

  function PartialOf(it: TxItem): seq<Octet> {
    var wire := Octets(FrameOf(it));
    if it.wirePos <= |wire| then wire[..it.wirePos] else []
  }

  /** The octets of half-sent frames. */
  function Partial(fifo: seq<TxItem>): seq<Octet> {
    if fifo == [] then []
    else if fifo[0].wirePos == 0 then Partial(fifo[1..])
    else PartialOf(fifo[0]) + Partial(fifo[1..])
  }

  predicate StreamOk(s: Tx) {
    s.output == Flat(s.frames) + Partial(s.fifo)
  }

  lemma AppendFrame(frames: seq<Sent>, f: Sent, id: nat)
    ensures Flat(frames + [f]) == Flat(frames) + Octets(f.frame)
    ensures Delivered(frames + [f], id) == Delivered(frames, id) + if f.id == id then [f.frame] else []
  {
    assert (frames + [f])[..|frames|] == frames;
  }

  lemma {:induction false} IdleHasNoPartial(fifo: seq<TxItem>)
    requires forall j :: 0 <= j < |fifo| ==> fifo[j].wirePos == 0
    ensures Partial(fifo) == []
  {
    if fifo != [] {
      IdleHasNoPartial(fifo[1..]);
    }
  }

  lemma {:induction false} OnePartial(fifo: seq<TxItem>, i: nat)
    requires i < |fifo| && OthersIdle(fifo, i)
    ensures Partial(fifo) == PartialOf(fifo[i])
  {
    if i == 0 {
      IdleHasNoPartial(fifo[1..]);
    } else {
      OnePartial(fifo[1..], i - 1);
    }
  }

  lemma SplitWire(out: seq<Octet>, flat: seq<Octet>, wire: seq<Octet>, a: nat, b: nat)
    requires a <= b <= |wire| && out == flat + wire[..a]
    ensures out + wire[a..b] == flat + wire[..b]
  {
    assert wire[..a] + wire[a..b] == wire[..b];
  }

  /** What is half sent of the selected item is a prefix of its prepared frame. */
  lemma PartialIsPrefix(crc: Checksum, s: Tx, i: nat)
    requires Shape(crc, s) && i < |s.fifo| && OthersIdle(s.fifo, i)
    ensures var it := Prepare(crc, s.fifo[i]);
      it.wirePos < |Octets(FrameOf(it))| && Partial(s.fifo) == Octets(FrameOf(it))[..it.wirePos]
  {
    PrepareIsFrameAt(crc, s.fifo[i]);
    OnePartial(s.fifo, i);
  }

  lemma PartialAfter(fifo: seq<TxItem>, i: nat, it: TxItem, end: nat)
    requires i < |fifo| && OthersIdle(fifo, i) && end <= |Octets(FrameOf(it))|
    ensures Partial(fifo[i := it.(wirePos := end)]) == Octets(FrameOf(it))[..end]
  {
    var x := it.(wirePos := end);
    assert FrameOf(x) == FrameOf(it);
    OnePartial(fifo[i := x], i);
  }

  lemma PartialWriteKeepsStream(s: Tx, i: nat, it: TxItem, k: nat)
    requires StreamOk(s) && i < |s.fifo| && OthersIdle(s.fifo, i)
    requires it.wirePos + k < |Octets(FrameOf(it))| && Partial(s.fifo) == Octets(FrameOf(it))[..it.wirePos]
    ensures StreamOk(Commit(s, i, it, k))
  {
    var wire, end := Octets(FrameOf(it)), it.wirePos + k;
    var t := Commit(s, i, it, k);
    assert t.frames == s.frames && t.fifo == s.fifo[i := it.(wirePos := end)];
    assert t.output == s.output + wire[it.wirePos..end];
    SplitWire(s.output, Flat(s.frames), wire, it.wirePos, end);
    PartialAfter(s.fifo, i, it, end);
  }

  lemma EndKeepsStream(crc: Checksum, s: Tx, i: nat, it: TxItem, k: nat)
    requires Ids(s.fifo, s.messages) && ItemsOk(crc, s.fifo)
    requires StreamOk(s) && i < |s.fifo| && OthersIdle(s.fifo, i)
    requires it.wirePos <= |Octets(FrameOf(it))| <= it.wirePos + k
    requires Partial(s.fifo) == Octets(FrameOf(it))[..it.wirePos]
    ensures StreamOk(Commit(s, i, it, k))
  {
    var t := Commit(s, i, it, k);
    var wire := Octets(FrameOf(it));
    SplitWire(s.output, Flat(s.frames), wire, it.wirePos, |wire|);
    assert wire[..|wire|] == wire;
    AppendFrame(s.frames, Sent(it.id, FrameOf(it)), 0);
    EndIsIdle(crc, s, i, t);
    IdleHasNoPartial(t.fifo);
  }

  lemma CommitKeepsStream(crc: Checksum, s: Tx, i: nat, k: nat)
    requires Shape(crc, s) && StreamOk(s) && i < |s.fifo| && OthersIdle(s.fifo, i)
    ensures StreamOk(Commit(s, i, Prepare(crc, s.fifo[i]), k))
  {
    var it := Prepare(crc, s.fifo[i]);
    PartialIsPrefix(crc, s, i);
    if it.wirePos + k < |Octets(FrameOf(it))| {
      PartialWriteKeepsStream(s, i, it, k);
    } else {
      EndKeepsStream(crc, s, i, it, k);
    }
  }

  lemma EndIsIdle(crc: Checksum, s: Tx, i: nat, t: Tx)
    requires Ids(s.fifo, s.messages) && ItemsOk(crc, s.fifo) && i < |s.fifo| && OthersIdle(s.fifo, i)
    requires t.fifo == Remove(s.fifo, i) || (exists x: TxItem :: x.wirePos == 0 && t.fifo == s.fifo[i := x])
    ensures forall j :: 0 <= j < |t.fifo| ==> t.fifo[j].wirePos == 0
  {
    if t.fifo == Remove(s.fifo, i) {
      RemoveKeepsItems(crc, s.fifo, s.messages, i);
    }
  }

  lemma {:induction false} AppendIdle(fifo: seq<TxItem>, it: TxItem)
    requires it.wirePos == 0
    ensures Partial(fifo + [it]) == Partial(fifo)
  {
    if fifo == [] {
      assert (fifo + [it])[1..] == [];
    } else {
      AppendIdle(fifo[1..], it);
      assert (fifo + [it])[1..] == fifo[1..] + [it];
    }
  }

  lemma StallKeepsStream(crc: Checksum, s: Tx)
    requires Shape(crc, s) && StreamOk(s)
    ensures StreamOk(Step(crc, s, Stall))
  {
    if s.fifo != [] {
      SelectIsSchedulable(crc, s);
      var i := Select(s);
      PrepareIsFrameAt(crc, s.fifo[i]);
      OnePartial(s.fifo, i);
      OnePartial(s.fifo[i := Prepare(crc, s.fifo[i])], i);
    } else {
      SelectEmpty(s);
    }
  }

  lemma StepKeepsStream(crc: Checksum, s: Tx, e: Event)
    requires Shape(crc, s) && StreamOk(s)
    ensures StreamOk(Step(crc, s, e))
  {
    match e
    case Send(m, early) => AppendIdle(s.fifo, NewItem(crc, |s.messages|, m, early));
    case Stall => StallKeepsStream(crc, s);
    case Write(n) => WriteKeepsStream(crc, s, n);
  }

  lemma WriteKeepsStream(crc: Checksum, s: Tx, n: nat)
    requires Shape(crc, s) && StreamOk(s)
    ensures StreamOk(Step(crc, s, Write(n)))
  {
    if s.fifo != [] {
      var i := WriteIsCommit(crc, s, n);
      CommitKeepsStream(crc, s, i, n + 1);
    } else {
      SelectEmpty(s);
    }
  }

  // The frames of each message.

  predicate Underway(crc: Checksum, frames: seq<Sent>, it: TxItem) {
    && Sendable(it.msg) && it.pos <= |Body(it.msg)|
    && Delivered(frames, it.id) + Fragments(crc, it.msg, it.pos) == Fragments(crc, it.msg, 0)
  }

  predicate QueueUnderway(crc: Checksum, s: Tx) {
    forall j :: 0 <= j < |s.fifo| ==> Underway(crc, s.frames, s.fifo[j])
  }

  predicate Complete(crc: Checksum, s: Tx, id: nat)
    requires id < |s.messages|
  {
    Sendable(s.messages[id]) && Delivered(s.frames, id) == Fragments(crc, s.messages[id], 0)
  }

  predicate GoneComplete(crc: Checksum, s: Tx) {
    forall id: nat :: id < |s.messages| && !Queued(s, id) ==> Complete(crc, s, id)
  }

  ghost predicate NoneForeign(s: Tx) {
    forall id: nat :: |s.messages| <= id ==> Delivered(s.frames, id) == []
  }

  ghost predicate FramesOk(crc: Checksum, s: Tx) {
    QueueUnderway(crc, s) && GoneComplete(crc, s) && NoneForeign(s)
  }

  /** Completing the frame at `pos` moves it from the fragments to come to the fragments delivered. */
  lemma FrameMoves(crc: Checksum, frames: seq<Sent>, it: TxItem)
    requires Underway(crc, frames, it)
    ensures var d := Delivered(frames + [Sent(it.id, FrameAt(crc, it.msg, it.pos))], it.id);
      var next := it.pos + FrameLen(it.msg, it.pos);
      d + (if next < |Body(it.msg)| then Fragments(crc, it.msg, next) else []) == Fragments(crc, it.msg, 0)
  {
    var next := it.pos + FrameLen(it.msg, it.pos);
    var rest := if next < |Body(it.msg)| then Fragments(crc, it.msg, next) else [];
    MoveAcross(frames, it.id, FrameAt(crc, it.msg, it.pos), rest, Fragments(crc, it.msg, 0));
  }

  lemma MoveAcross(frames: seq<Sent>, id: nat, f: Frame, rest: seq<Frame>, all: seq<Frame>)
    requires Delivered(frames, id) + ([f] + rest) == all
    ensures Delivered(frames + [Sent(id, f)], id) + rest == all
  {
    AppendFrame(frames, Sent(id, f), id);
  }

  lemma OtherFramesStay(crc: Checksum, frames: seq<Sent>, f: Sent, it: TxItem)
    requires Underway(crc, frames, it) && it.id != f.id
    ensures Underway(crc, frames + [f], it)
  {
    AppendFrame(frames, f, it.id);
  }

  /** The queue after a completed frame: item `i` advanced or gone, the others as they were. */
  ghost predicate Ended(s: Tx, t: Tx, i: nat, x: TxItem) {
    && i < |s.fifo|
    && t.messages == s.messages
    && (t.fifo == s.fifo[i := x] || t.fifo == Remove(s.fifo, i))
  }

  lemma EndKeepsQueue(crc: Checksum, s: Tx, i: nat, f: Sent, x: TxItem, t: Tx)
    requires Ids(s.fifo, s.messages) && QueueUnderway(crc, s)
    requires Ended(s, t, i, x) && t.frames == s.frames + [f] && f.id == s.fifo[i].id
    requires t.fifo == s.fifo[i := x] ==> Underway(crc, t.frames, x)
    ensures QueueUnderway(crc, t)
  {
    forall j | 0 <= j < |t.fifo|
      ensures Underway(crc, t.frames, t.fifo[j])
    {
      if t.fifo == s.fifo[i := x] {
        if j != i {
          OtherFramesStay(crc, s.frames, f, s.fifo[j]);
        }
      } else {
        OtherFramesStay(crc, s.frames, f, s.fifo[if j < i then j else j + 1]);
      }
    }
  }

  lemma EndKeepsGone(crc: Checksum, s: Tx, i: nat, f: Sent, t: Tx, id: nat)
    requires Ids(s.fifo, s.messages) && GoneComplete(crc, s)
    requires i < |s.fifo| && t.messages == s.messages && t.frames == s.frames + [f] && f.id == s.fifo[i].id
    requires forall l :: 0 <= l < |s.fifo| && l != i ==> Queued(t, s.fifo[l].id)
    requires !Queued(t, f.id) ==> Complete(crc, t, f.id)
    requires id < |s.messages| && !Queued(t, id)
    ensures Complete(crc, t, id)
  {
    if id != f.id {
      assert !Queued(s, id);
      AppendFrame(s.frames, f, id);
    }
  }

  lemma OthersStayQueued(s: Tx, i: nat, t: Tx, x: TxItem)
    requires i < |s.fifo| && x.id == s.fifo[i].id
    requires t.fifo == s.fifo[i := x] || t.fifo == Remove(s.fifo, i)
    ensures forall l :: 0 <= l < |s.fifo| && l != i ==> Queued(t, s.fifo[l].id)
    ensures t.fifo == s.fifo[i := x] ==> Queued(t, x.id)
  {
    forall l | 0 <= l < |s.fifo| && l != i
      ensures Queued(t, s.fifo[l].id)
    {
      if t.fifo == s.fifo[i := x] {
        assert t.fifo[l].id == s.fifo[l].id;
      } else {
        assert t.fifo[if l < i then l else l - 1] == s.fifo[l];
      }
    }
    if t.fifo == s.fifo[i := x] {
      assert t.fifo[i].id == x.id;
    }
  }

  lemma EndKeepsFrames(crc: Checksum, s: Tx, i: nat, t: Tx)
    requires Ids(s.fifo, s.messages) && FramesOk(crc, s) && i < |s.fifo|
    requires var it := s.fifo[i]; var next := it.pos + FrameLen(it.msg, it.pos);
      && t.messages == s.messages && t.frames == s.frames + [Sent(it.id, FrameAt(crc, it.msg, it.pos))]
      && t.fifo == (if next < |Body(it.msg)| then s.fifo[i := TxItem(it.id, it.msg, next, None, 0)] else Remove(s.fifo, i))
    ensures FramesOk(crc, t)
  {
    var it := s.fifo[i];
    var next := it.pos + FrameLen(it.msg, it.pos);
    var f := Sent(it.id, FrameAt(crc, it.msg, it.pos));
    var x := TxItem(it.id, it.msg, next, None, 0);
    FrameMoves(crc, s.frames, it);
    OthersStayQueued(s, i, t, x);
    EndKeepsQueue(crc, s, i, f, x, t);
    EndKeepsAllGone(crc, s, i, f, t);
    EndKeepsForeign(s, f, t);
  }

  lemma EndKeepsAllGone(crc: Checksum, s: Tx, i: nat, f: Sent, t: Tx)
    requires Ids(s.fifo, s.messages) && GoneComplete(crc, s)
    requires i < |s.fifo| && t.messages == s.messages && t.frames == s.frames + [f] && f.id == s.fifo[i].id
    requires forall l :: 0 <= l < |s.fifo| && l != i ==> Queued(t, s.fifo[l].id)
    requires !Queued(t, f.id) ==> Complete(crc, t, f.id)
    ensures GoneComplete(crc, t)
  {
    forall id: nat | id < |s.messages| && !Queued(t, id)
      ensures Complete(crc, t, id)
    {
      EndKeepsGone(crc, s, i, f, t, id);
    }
  }

  lemma EndKeepsForeign(s: Tx, f: Sent, t: Tx)
    requires NoneForeign(s) && t.messages == s.messages && t.frames == s.frames + [f] && f.id < |s.messages|
    ensures NoneForeign(t)
  {
    forall id: nat | |s.messages| <= id
      ensures Delivered(t.frames, id) == []
    {
      AppendFrame(s.frames, f, id);
    }
  }

  /** A step that completes no frame and renames nothing. */
  lemma SameFramesKeep(crc: Checksum, s: Tx, t: Tx)
    requires FramesOk(crc, s) && t.messages == s.messages && t.frames == s.frames && |t.fifo| == |s.fifo|
    requires forall j :: 0 <= j < |s.fifo| ==>
      t.fifo[j].id == s.fifo[j].id && t.fifo[j].msg == s.fifo[j].msg && t.fifo[j].pos == s.fifo[j].pos
    ensures FramesOk(crc, t)
  {
    forall id: nat | Queued(s, id)
      ensures Queued(t, id)
    {
      var j :| 0 <= j < |s.fifo| && s.fifo[j].id == id;
      assert t.fifo[j].id == id;
    }
    assert forall j :: 0 <= j < |s.fifo| ==> Underway(crc, s.frames, s.fifo[j]);
  }

  /** A commit that reaches the end of its frame. */
  lemma CommitEnds(s: Tx, i: nat, it: TxItem, k: nat)
    requires i < |s.fifo| && it.wirePos + k >= |Octets(FrameOf(it))|
    ensures var t := Commit(s, i, it, k);
      var next := it.pos + FrameOf(it).header.payloadLen;
      && t.messages == s.messages && t.frames == s.frames + [Sent(it.id, FrameOf(it))]
      && t.fifo == if it.msg.kind.Data? && next < |Body(it.msg)| then s.fifo[i := TxItem(it.id, it.msg, next, None, 0)]
                   else Remove(s.fifo, i)
  {
  }

  /** A control message is one frame. */
  lemma ControlIsOneFrame(crc: Checksum, it: TxItem)
    requires ItemOk(crc, it) && !it.msg.kind.Data?
    ensures it.pos == 0 && it.pos + FrameLen(it.msg, it.pos) == |Body(it.msg)|
  {
  }

  lemma PartialKeepsFrames(crc: Checksum, s: Tx, i: nat, it: TxItem, k: nat)
    requires FramesOk(crc, s) && i < |s.fifo| && it.wirePos + k < |Octets(FrameOf(it))|
    requires it.id == s.fifo[i].id && it.msg == s.fifo[i].msg && it.pos == s.fifo[i].pos
    ensures FramesOk(crc, Commit(s, i, it, k))
  {
    SameFramesKeep(crc, s, Commit(s, i, it, k));
  }

  lemma EndCommitKeepsFrames(crc: Checksum, s: Tx, i: nat, it: TxItem, k: nat)
    requires Ids(s.fifo, s.messages) && FramesOk(crc, s) && i < |s.fifo| && it.wirePos + k >= |Octets(FrameOf(it))|
    requires it.id == s.fifo[i].id && it.msg == s.fifo[i].msg && it.pos == s.fifo[i].pos && it.pos <= |Body(it.msg)|
    requires FrameOf(it) == FrameAt(crc, it.msg, it.pos)
    requires !it.msg.kind.Data? ==> it.pos + FrameLen(it.msg, it.pos) == |Body(it.msg)|
    ensures FramesOk(crc, Commit(s, i, it, k))
  {
    CommitEnds(s, i, it, k);
    EndKeepsFrames(crc, s, i, Commit(s, i, it, k));
  }

  lemma CommitKeepsFrames(crc: Checksum, s: Tx, i: nat, k: nat)
    requires Shape(crc, s) && FramesOk(crc, s) && i < |s.fifo|
    ensures FramesOk(crc, Commit(s, i, Prepare(crc, s.fifo[i]), k))
  {
    var it := Prepare(crc, s.fifo[i]);
    PrepareIsFrameAt(crc, s.fifo[i]);
    if it.wirePos + k < |Octets(FrameOf(it))| {
      PartialKeepsFrames(crc, s, i, it, k);
    } else {
      if !it.msg.kind.Data? {
        ControlIsOneFrame(crc, s.fifo[i]);
      }
      EndCommitKeepsFrames(crc, s, i, it, k);
    }
  }

  lemma EnqueueKeepsFrames(crc: Checksum, s: Tx, m: Message, early: bool)
    requires FramesOk(crc, s)
    ensures FramesOk(crc, Enqueue(crc, s, m, early))
  {
    if Sendable(m) {
      var t := Enqueue(crc, s, m, early);
      var it := NewItem(crc, |s.messages|, m, early);
      assert t.fifo[|s.fifo|] == it;
      assert Delivered(t.frames, it.id) == [];
      assert forall j :: 0 <= j < |s.fifo| ==> t.fifo[j] == s.fifo[j];
      forall id: nat | id < |t.messages| && !Queued(t, id)
        ensures Complete(crc, t, id)
      {
        assert id != it.id;
        assert !Queued(s, id);
        assert Complete(crc, s, id);
      }
    }
  }

  lemma StepKeepsFrames(crc: Checksum, s: Tx, e: Event)
    requires Shape(crc, s) && FramesOk(crc, s)
    ensures FramesOk(crc, Step(crc, s, e))
  {
    match e
    case Send(m, early) => EnqueueKeepsFrames(crc, s, m, early);
    case Stall => SameFramesKeep(crc, s, Step(crc, s, Stall));
    case Write(n) => WriteKeepsFrames(crc, s, n);
  }

  lemma WriteKeepsFrames(crc: Checksum, s: Tx, n: nat)
    requires Shape(crc, s) && FramesOk(crc, s)
    ensures FramesOk(crc, Step(crc, s, Write(n)))
  {
    if s.fifo != [] {
      var i := WriteIsCommit(crc, s, n);
      CommitKeepsFrames(crc, s, i, n + 1);
    } else {
      SelectEmpty(s);
    }
  }

  lemma {:induction false} RunKeepsStream(crc: Checksum, s: Tx, events: seq<Event>)
    requires Shape(crc, s) && StreamOk(s) && FramesOk(crc, s)
    ensures var t := Run(crc, s, events); Shape(crc, t) && StreamOk(t) && FramesOk(crc, t)
    decreases |events|
  {
    if events != [] {
      StepKeepsShape(crc, s, events[0]);
      StepKeepsStream(crc, s, events[0]);
      StepKeepsFrames(crc, s, events[0]);
      RunKeepsStream(crc, Step(crc, s, events[0]), events[1..]);
    }
  }

  /** The octet stream is whole frames and then nothing, or a nonempty proper prefix of the next frame of
      one queued message. */
  lemma StreamIsWholeFrames(crc: Checksum, events: seq<Event>)
    returns (rest: seq<Octet>, id: nat, pos: nat)
    ensures var s := Run(crc, EMPTY, events);
      && s.output == Flat(s.frames) + rest
      && (rest != [] ==>
            && Queued(s, id) && id < |s.messages| && pos <= |Body(s.messages[id])|
            && rest < Octets(FrameAt(crc, s.messages[id], pos)))
  {
    RunKeepsStream(crc, EMPTY, events);
    var s := Run(crc, EMPTY, events);
    rest, id, pos := Partial(s.fifo), 0, 0;
    if s.fifo != [] {
      SelectIsSchedulable(crc, s);
      var i := Select(s);
      id, pos := s.fifo[i].id, s.fifo[i].pos;
      PartialIsPrefix(crc, s, i);
      PrepareIsFrameAt(crc, s.fifo[i]);
    }
  }

  /** The frames of every message are a prefix of its reference fragmentation, and all of it once the
      message has left the queue. */
  lemma FramesAreTheFragments(crc: Checksum, events: seq<Event>, id: nat)
    requires id < |Run(crc, EMPTY, events).messages|
    ensures var s := Run(crc, EMPTY, events);
      && Sendable(s.messages[id])
      && Delivered(s.frames, id) <= Fragments(crc, s.messages[id], 0)
      && (!Queued(s, id) ==> Delivered(s.frames, id) == Fragments(crc, s.messages[id], 0))
  {
    RunKeepsStream(crc, EMPTY, events);
    var s := Run(crc, EMPTY, events);
    if Queued(s, id) {
      var j :| 0 <= j < |s.fifo| && s.fifo[j].id == id;
      assert Underway(crc, s.frames, s.fifo[j]);
    }
  }

  /** A message that has left the queue arrived whole: its frame payloads concatenate to its slices. */
  lemma SentMessageIsWhole(crc: Checksum, events: seq<Event>, id: nat)
    requires var s := Run(crc, EMPTY, events); id < |s.messages| && !Queued(s, id)
    ensures var s := Run(crc, EMPTY, events); Payloads(Delivered(s.frames, id)) == Flatten(s.messages[id].slices)
  {
    FramesAreTheFragments(crc, events, id);
    FragmentsCoverMessage(crc, Run(crc, EMPTY, events).messages[id], 0);
  }

  // What a receiver makes of the frames.

  lemma {:induction false} SentIsDelivered(frames: seq<Sent>, p: nat)
    requires p < |frames|
    ensures frames[p].frame in Delivered(frames, frames[p].id)
  {
    var last := |frames| - 1;
    if p < last {
      SentIsDelivered(frames[..last], p);
    }
  }

  /** Every frame on the wire names the message it belongs to. */
  lemma FramesNameTheirMessage(crc: Checksum, events: seq<Event>, p: nat)
    requires p < |Run(crc, EMPTY, events).frames|
    ensures var s := Run(crc, EMPTY, events); var f := s.frames[p];
      f.id < |s.messages| && Names(f.frame.header, s.messages[f.id]) && f.frame.header.payloadCrc == crc(f.frame.payload)
  {
    RunKeepsStream(crc, EMPTY, events);
    var s := Run(crc, EMPTY, events);
    var f := s.frames[p];
    SentIsDelivered(s.frames, p);
    FramesAreTheFragments(crc, events, f.id);
    var d := Delivered(s.frames, f.id);
    var k :| 0 <= k < |d| && d[k] == f.frame;
    FragmentsAreWellFormed(crc, s.messages[f.id], 0, k);
  }

  predicate Addresses(h: Header, stream: nat, message: nat) {
    h.kind.Data? && h.stream == stream && h.message == message
  }

  /** What a receiver collects for one stream and message id: the payloads of the DATA frames that name them. */
  function Collected(frames: seq<Sent>, stream: nat, message: nat): seq<byte> {
    if frames == [] then [] else
      var f := frames[|frames| - 1].frame;
      var before := Collected(frames[..|frames| - 1], stream, message);
      if Addresses(f.header, stream, message) then before + f.payload else before
  }

  lemma {:induction false} PayloadsOfSnoc(frames: seq<Frame>, f: Frame)
    ensures Payloads(frames + [f]) == Payloads(frames) + f.payload
  {
    if frames == [] {
      assert frames + [f] == [f] && [f][1..] == [];
    } else {
      PayloadsOfSnoc(frames[1..], f);
      assert (frames + [f])[1..] == frames[1..] + [f];
    }
  }

  lemma {:induction false} CollectedIsDelivered(frames: seq<Sent>, stream: nat, message: nat, id: nat)
    requires forall p :: 0 <= p < |frames| ==> (Addresses(frames[p].frame.header, stream, message) <==> frames[p].id == id)
    ensures Collected(frames, stream, message) == Payloads(Delivered(frames, id))
  {
    if frames != [] {
      var last := |frames| - 1;
      CollectedIsDelivered(frames[..last], stream, message, id);
      if frames[last].id == id {
        PayloadsOfSnoc(Delivered(frames[..last], id), frames[last].frame);
      }
    }
  }

  /** `id` is the only DATA message of the run with its stream and message id. */
  predicate OnlyOne(messages: seq<Message>, id: nat) {
    && id < |messages| && messages[id].kind.Data?
    && forall x :: 0 <= x < |messages| && x != id && messages[x].kind.Data? ==>
         messages[x].stream != messages[id].stream || messages[x].messageId != messages[id].messageId
  }

  /** A receiver that collects payloads by stream and message id gets exactly the octets of the message that was sent
      under them, however frames of other messages lie between. */
  lemma ReceiverRecoversMessage(crc: Checksum, events: seq<Event>, id: nat)
    requires var s := Run(crc, EMPTY, events); OnlyOne(s.messages, id) && !Queued(s, id)
    ensures var s := Run(crc, EMPTY, events); var m := s.messages[id];
      Collected(s.frames, m.stream, m.messageId) == Flatten(m.slices)
  {
    var s := Run(crc, EMPTY, events);
    var m := s.messages[id];
    forall p | 0 <= p < |s.frames|
      ensures Addresses(s.frames[p].frame.header, m.stream, m.messageId) <==> s.frames[p].id == id
    {
      FramesNameTheirMessage(crc, events, p);
    }
    CollectedIsDelivered(s.frames, m.stream, m.messageId, id);
    SentMessageIsWhole(crc, events, id);
  }
}
