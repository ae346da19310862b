/** The TX queue of one connection (reactor.c, tr_connection_next_tx, tr_connection_complete_tx and
    the send loop of tr_connection_flush_tx) as a state machine. Items are named by their position in
    enqueue order. The kernel is the environment: every `Write` accepts any nonzero number of octets. */
module TxQueue {
  import opened TxFrames
  import opened Status

  const CONTROL_BURST: nat := 8

  /** struct tr_tx_item: `header` is None while wire_len is zero. */
  datatype TxItem = TxItem(id: nat, msg: Message, pos: nat, header: Option<Header>, wirePos: nat)

  datatype Sent = Sent(id: nat, frame: Frame)

  /** `messages`, `sent`, `frames` and `output` are histories: every message enqueued, the item of every
      successful write, every completed frame, and every octet handed to the kernel. */
  datatype Tx = Tx(
    fifo: seq<TxItem>, control: seq<nat>, active: Option<nat>, streak: nat,
    messages: seq<Message>, sent: seq<nat>, frames: seq<Sent>, output: seq<Octet>)

  const EMPTY := Tx([], [], None, 0, [], [], [], [])

  // tr_tx_can_bypass_data
  predicate CanBypass(m: Message) {
    && |Body(m)| == 0
    && m.flags == NO_FLAGS
    && (if m.kind.WindowUpdate? then m.stream != 0 else (m.kind.Ping? || m.kind.Pong?) && m.stream == 0)
  }

  /** A control message that may not overtake DATA. */
  predicate Fence(m: Message) {
    !m.kind.Data? && !CanBypass(m)
  }

  function Find(fifo: seq<TxItem>, id: nat): nat {
    if fifo == [] || fifo[0].id == id then 0 else 1 + Find(fifo[1..], id)
  }

  /** A send prepares its first frame when it is admitted; a reserved item is prepared when selected. */
  function NewItem(crc: Checksum, id: nat, m: Message, early: bool): TxItem {
    TxItem(id, m, 0, if early then Some(HeaderAt(crc, m, 0)) else None, 0)
  }

  // tr_enqueue_tx_item_owner, behind the argument checks of tr_reactor_sendv_limited
  function Enqueue(crc: Checksum, s: Tx, m: Message, early: bool): Tx {
    if !Sendable(m) then s else
      var id := |s.messages|;
      s.(fifo := s.fifo + [NewItem(crc, id, m, early)],
         control := if m.kind.Data? then s.control else s.control + [id],
         messages := s.messages + [m])
  }

  predicate Pinned(s: Tx) {
    s.active.Some? && var i := Find(s.fifo, s.active.value); i < |s.fifo| && s.fifo[i].wirePos != 0
  }

  predicate BypassNow(s: Tx) {
    && s.fifo != [] && s.fifo[0].msg.kind.Data?
    && s.control != [] && s.streak < CONTROL_BURST
    && var i := Find(s.fifo, s.control[0]); i < |s.fifo| && CanBypass(s.fifo[i].msg)
  }

  // tr_connection_next_tx
  function Select(s: Tx): nat {
    if Pinned(s) then Find(s.fifo, s.active.value)
    else if BypassNow(s) then Find(s.fifo, s.control[0])
    else 0
  }

  // tr_tx_prepare_frame, skipped while a frame is already prepared
  function Prepare(crc: Checksum, it: TxItem): TxItem {
    if it.header.Some? || it.pos > |Body(it.msg)| then it
    else it.(header := Some(HeaderAt(crc, it.msg, it.pos)), wirePos := 0)
  }

  function FrameOf(it: TxItem): Frame {
    if it.header.Some? && it.pos + it.header.value.payloadLen <= |Body(it.msg)| then
      Frame(it.header.value, Body(it.msg)[it.pos..it.pos + it.header.value.payloadLen])
    else Frame(Header(it.msg.kind, NO_FLAGS, 0, 0, 0, 0), [])
  }

  function Remove(fifo: seq<TxItem>, i: nat): seq<TxItem>
    requires i < |fifo|
  {
    fifo[..i] + fifo[i + 1..]
  }

  function Drop(control: seq<nat>): seq<nat> {
    if control == [] then [] else control[1..]
  }

  /** The item's frame has been handed over completely. */
  function EndFrame(s: Tx, i: nat, it: TxItem): Tx
    requires i < |s.fifo|
  {
    var f := FrameOf(it);
    var t := s.(active := None, frames := s.frames + [Sent(it.id, f)]);
    if it.msg.kind.Data? then
      var pos := it.pos + f.header.payloadLen;
      t.(streak := 0,
         fifo := if pos < |Body(it.msg)| then s.fifo[i := TxItem(it.id, it.msg, pos, None, 0)]
                 else Remove(s.fifo, i))
    else
      t.(streak := if CanBypass(it.msg) && s.streak < CONTROL_BURST then s.streak + 1 else s.streak,
         fifo := Remove(s.fifo, i),
         control := Drop(s.control))
  }

  /** `it`, prepared and selected at `i`, hands over its next `k` octets. */
  function Commit(s: Tx, i: nat, it: TxItem, k: nat): Tx
    requires i < |s.fifo|
  {
    var wire := Octets(FrameOf(it));
    var end := if it.wirePos + k <= |wire| then it.wirePos + k else |wire|;
    var t := s.(sent := s.sent + [it.id],
                output := s.output + if it.wirePos <= end then wire[it.wirePos..end] else []);
    if end < |wire| then t.(fifo := s.fifo[i := it.(wirePos := end)], active := Some(it.id))
    else EndFrame(t, i, it)
  }

  datatype Event = Send(m: Message, early: bool) | Write(n: nat) | Stall

  function Step(crc: Checksum, s: Tx, e: Event): Tx {
    match e
    case Send(m, early) => Enqueue(crc, s, m, early)
    case Write(n) =>
      var i := Select(s);
      if i < |s.fifo| then Commit(s, i, Prepare(crc, s.fifo[i]), n + 1) else s
    case Stall =>
      var i := Select(s);
      if i < |s.fifo| then s.(fifo := s.fifo[i := Prepare(crc, s.fifo[i])], active := Some(s.fifo[i].id)) else s
  }

  function Run(crc: Checksum, s: Tx, events: seq<Event>): Tx
    decreases |events|
  {
    if events == [] then s else Run(crc, Step(crc, s, events[0]), events[1..])
  }

  // The shape every reachable queue has.

  function FirstControl(fifo: seq<TxItem>): nat {
    if fifo == [] || !fifo[0].msg.kind.Data? then 0 else 1 + FirstControl(fifo[1..])
  }

  function ControlIds(fifo: seq<TxItem>): seq<nat> {
    if fifo == [] then []
    else if fifo[0].msg.kind.Data? then ControlIds(fifo[1..])
    else [fifo[0].id] + ControlIds(fifo[1..])
  }

  predicate Ids(fifo: seq<TxItem>, messages: seq<Message>) {
    && (forall i :: 0 <= i < |fifo| ==> fifo[i].id < |messages| && fifo[i].msg == messages[fifo[i].id])
    && (forall i, j :: 0 <= i < j < |fifo| ==> fifo[i].id < fifo[j].id)
  }

  predicate ItemOk(crc: Checksum, it: TxItem) {
    && Sendable(it.msg)
    && (it.pos == 0 || (it.msg.kind.Data? && it.pos < |Body(it.msg)|))
    && (it.header.Some? ==> it.header.value == HeaderAt(crc, it.msg, it.pos))
    && (it.wirePos != 0 ==> it.header.Some? && it.wirePos < |Octets(FrameOf(it))|)
  }

  predicate ItemsOk(crc: Checksum, fifo: seq<TxItem>) {
    forall i :: 0 <= i < |fifo| ==> ItemOk(crc, fifo[i]) && (i != 0 ==> fifo[i].pos == 0)
  }

  /** `i` is where the scheduler may be: the head, or the first control item overtaking a DATA head. */
  predicate Schedulable(fifo: seq<TxItem>, streak: nat, i: nat) {
    && i < |fifo|
    && (i != 0 ==>
          && i == FirstControl(fifo) && fifo[0].msg.kind.Data?
          && CanBypass(fifo[i].msg) && streak < CONTROL_BURST)
  }

  predicate InFlightOk(s: Tx) {
    forall i :: 0 <= i < |s.fifo| && s.fifo[i].wirePos != 0 ==>
      s.active == Some(s.fifo[i].id) && Schedulable(s.fifo, s.streak, i)
  }

  predicate Shape(crc: Checksum, s: Tx) {
    && Ids(s.fifo, s.messages)
    && s.control == ControlIds(s.fifo)
    && ItemsOk(crc, s.fifo)
    && InFlightOk(s)
    && s.streak <= CONTROL_BURST
  }

  // Facts about the lists.

  lemma {:induction false} FindAt(fifo: seq<TxItem>, j: nat)
    requires j < |fifo|
    requires forall a, b :: 0 <= a < b < |fifo| ==> fifo[a].id < fifo[b].id
    ensures Find(fifo, fifo[j].id) == j
  {
    if j != 0 {
      FindAt(fifo[1..], j - 1);
    }
  }

  lemma {:induction false} FindSound(fifo: seq<TxItem>, id: nat)
    ensures Find(fifo, id) <= |fifo|
    ensures Find(fifo, id) < |fifo| ==> fifo[Find(fifo, id)].id == id
  {
    if fifo != [] {
      FindSound(fifo[1..], id);
    }
  }

  lemma {:induction false} FirstControlIs(fifo: seq<TxItem>)
    ensures FirstControl(fifo) <= |fifo|
    ensures forall j :: 0 <= j < FirstControl(fifo) ==> fifo[j].msg.kind.Data?
    ensures FirstControl(fifo) < |fifo| ==>
      !fifo[FirstControl(fifo)].msg.kind.Data? && ControlIds(fifo) != [] && ControlIds(fifo)[0] == fifo[FirstControl(fifo)].id
    ensures FirstControl(fifo) == |fifo| ==> ControlIds(fifo) == []
  {
    if fifo != [] && fifo[0].msg.kind.Data? {
      FirstControlIs(fifo[1..]);
    }
  }

  lemma {:induction false} RemoveFirstControl(fifo: seq<TxItem>)
    requires FirstControl(fifo) < |fifo|
    ensures ControlIds(Remove(fifo, FirstControl(fifo))) == Drop(ControlIds(fifo))
  {
    if fifo[0].msg.kind.Data? {
      RemoveFirstControl(fifo[1..]);
      var r := Remove(fifo, FirstControl(fifo));
      assert r[0] == fifo[0];
      assert r[1..] == Remove(fifo[1..], FirstControl(fifo[1..]));
    } else {
      assert Remove(fifo, 0) == fifo[1..];
    }
  }

  lemma {:induction false} ReplaceKeepsControl(fifo: seq<TxItem>, i: nat, it: TxItem)
    requires i < |fifo| && it.id == fifo[i].id && it.msg == fifo[i].msg
    ensures ControlIds(fifo[i := it]) == ControlIds(fifo) && FirstControl(fifo[i := it]) == FirstControl(fifo)
  {
    if i == 0 {
      assert fifo[i := it][1..] == fifo[1..];
    } else {
      ReplaceKeepsControl(fifo[1..], i - 1, it);
      assert fifo[i := it][1..] == fifo[1..][i - 1 := it];
    }
  }

  lemma {:induction false} AppendExtendsControl(fifo: seq<TxItem>, it: TxItem)
    ensures ControlIds(fifo + [it]) == ControlIds(fifo) + (if it.msg.kind.Data? then [] else [it.id])
    ensures FirstControl(fifo) < |fifo| ==> FirstControl(fifo + [it]) == FirstControl(fifo)
  {
    if fifo == [] {
      assert (fifo + [it])[1..] == [];
    } else {
      AppendExtendsControl(fifo[1..], it);
      assert (fifo + [it])[1..] == fifo[1..] + [it];
    }
  }

  /** The scheduler picks a schedulable item, and no other item is half sent: in particular a control
      item is only ever picked when it is the oldest control item. */
  lemma SelectIsSchedulable(crc: Checksum, s: Tx)
    requires Shape(crc, s) && s.fifo != []
    ensures Schedulable(s.fifo, s.streak, Select(s))
    ensures forall j :: 0 <= j < |s.fifo| && j != Select(s) ==> s.fifo[j].wirePos == 0
    ensures !s.fifo[Select(s)].msg.kind.Data? ==>
      Select(s) == FirstControl(s.fifo) && s.control != [] && s.control[0] == s.fifo[Select(s)].id
  {
    FirstControlIs(s.fifo);
    if s.active.Some? {
      FindSound(s.fifo, s.active.value);
      forall j | 0 <= j < |s.fifo| && s.fifo[j].wirePos != 0
        ensures j == Find(s.fifo, s.active.value)
      {
        FindAt(s.fifo, j);
      }
    }
    if !Pinned(s) && FirstControl(s.fifo) < |s.fifo| {
      FindAt(s.fifo, FirstControl(s.fifo));
    }
  }
}
