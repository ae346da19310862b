/** A connection group (pipeline.c) as a value: its control connection, the DATA slots with their
    capability generations, the round-robin cursor, and the stream affinities as a finite map. */
module Group {
  import opened Ring
  import opened Sets
  import opened Status

  datatype Conn = Conn(reactor: nat, slot: nat, generation: nat)

  datatype DataRef = DataRef(index: nat, generation: nat)

  datatype DataState = Free | Reserved | Attached

  datatype DataSlot = DataSlot(state: DataState, generation: nat, connection: Conn)

  const NO_CONN := Conn(0, 0, 0)
  const NO_REF := DataRef(0, 0)

  datatype Group = Group(
    owner: nat, control: Option<Conn>, slots: seq<DataSlot>, cursor: nat, streams: map<nat, DataRef>, streamCapacity: nat)

  datatype Reply = Reply(group: Group, status: Status, data: DataRef)

  function NextGeneration(g: nat): nat {
    if g + 1 == WORD then 1 else g + 1
  }

  function Count(slots: seq<DataSlot>, st: DataState): nat {
    if slots == [] then 0 else Count(slots[..|slots| - 1], st) + if slots[|slots| - 1].state == st then 1 else 0
  }

  // tr_pipeline_data_ref_matches
  predicate Matches(g: Group, r: DataRef, st: DataState) {
    r.index < |g.slots| && r.generation != 0 && g.slots[r.index].state == st && g.slots[r.index].generation == r.generation
  }

  // tr_pipeline_connection_is_data
  predicate IsData(g: Group, c: Conn) {
    exists i :: 0 <= i < |g.slots| && g.slots[i].state == Attached && g.slots[i].connection == c
  }

  function Fail(g: Group, status: Status): Reply {
    Reply(g, status, NO_REF)
  }

  function SetControl(g: Group, c: Conn): Reply {
    if c.reactor != g.owner then Fail(g, Invalid)
    else if g.control.Some? || IsData(g, c) then Fail(g, State)
    else Reply(g.(control := Some(c)), Ok, NO_REF)
  }

  function Unreserved(slots: seq<DataSlot>): seq<DataSlot> {
    seq(|slots|, i requires 0 <= i < |slots| =>
      if slots[i].state == Reserved then DataSlot(Free, slots[i].generation, NO_CONN) else slots[i])
  }

  function ClearControl(g: Group, c: Conn): Reply {
    if g.control != Some(c) then Fail(g, Stale)
    else Reply(g.(control := None, slots := Unreserved(g.slots)), Ok, NO_REF)
  }

  /** The first free slot from `i` on. */
  function FirstFree(slots: seq<DataSlot>, i: nat): (k: nat)
    requires i <= |slots|
    ensures i <= k <= |slots| && (k < |slots| ==> slots[k].state == Free)
    ensures forall j :: i <= j < k ==> slots[j].state != Free
    decreases |slots| - i
  {
    if i == |slots| || slots[i].state == Free then i else FirstFree(slots, i + 1)
  }

  function Reserve(g: Group): Reply {
    if g.control.None? then Fail(g, State)
    else if Count(g.slots, Attached) + Count(g.slots, Reserved) >= |g.slots| then Fail(g, Again)
    else
      var i := FirstFree(g.slots, 0);
      if i == |g.slots| then Fail(g, Again)
      else
        var generation := NextGeneration(g.slots[i].generation);
        Reply(g.(slots := g.slots[i := DataSlot(Reserved, generation, NO_CONN)]), Ok, DataRef(i, generation))
  }

  function Attach(g: Group, r: DataRef, c: Conn): Reply {
    if g.control.None? then Fail(g, State)
    else if c.reactor != g.owner then Fail(g, Invalid)
    else if g.control == Some(c) || IsData(g, c) then Fail(g, State)
    else if !Matches(g, r, Reserved) then Fail(g, Stale)
    else Reply(g.(slots := g.slots[r.index := DataSlot(Attached, r.generation, c)]), Ok, r)
  }

  function CancelReservation(g: Group, r: DataRef): Reply {
    if !Matches(g, r, Reserved) then Fail(g, Stale)
    else Reply(g.(slots := g.slots[r.index := DataSlot(Free, r.generation, NO_CONN)]), Ok, r)
  }

  // The peer's idempotent cancellation of one issued generation.
  function CancelOffer(g: Group, r: DataRef): Reply {
    if r.index >= |g.slots| || r.generation == 0 || g.slots[r.index].generation != r.generation then Fail(g, Stale)
    else if g.slots[r.index].state == Reserved then CancelReservation(g, r)
    else Reply(g, Ok, r)
  }

  function Without(streams: map<nat, DataRef>, r: DataRef): map<nat, DataRef> {
    map k | k in streams && streams[k] != r :: streams[k]
  }

  function Remove(g: Group, r: DataRef): Reply {
    if !Matches(g, r, Attached) then Fail(g, Stale)
    else Reply(g.(slots := g.slots[r.index := DataSlot(Free, r.generation, NO_CONN)], streams := Without(g.streams, r)), Ok, r)
  }

  /** How far around the table the next attached slot is, or the table's size if there is none. */
  function NextAttached(slots: seq<DataSlot>, cursor: nat, o: nat): (k: nat)
    requires cursor < |slots| < WORD && o <= |slots|
    ensures o <= k <= |slots| && (k < |slots| ==> slots[Probe(cursor, k, |slots|)].state == Attached)
    ensures forall j :: o <= j < k ==> slots[Probe(cursor, j, |slots|)].state != Attached
    decreases |slots| - o
  {
    if o == |slots| || slots[Probe(cursor, o, |slots|)].state == Attached then o else NextAttached(slots, cursor, o + 1)
  }

  function Select(g: Group): Reply {
    if !(g.cursor < |g.slots| < WORD) then Fail(g, Again)
    else
      var o := NextAttached(g.slots, g.cursor, 0);
      if o == |g.slots| then Fail(g, Again)
      else
        var i := Probe(g.cursor, o, |g.slots|);
        Reply(g.(cursor := Next(i, |g.slots|)), Ok, DataRef(i, g.slots[i].generation))
  }

  /** `room` is whether the affinity table has an entry for the stream. */
  function Bind(g: Group, stream: nat, r: DataRef, room: bool): Reply {
    if stream == 0 then Fail(g, Invalid)
    else if !Matches(g, r, Attached) then Fail(g, Stale)
    else if stream in g.streams then Fail(g, State)
    else if !room || |g.streams| >= g.streamCapacity then Fail(g, Again)
    else Reply(g.(streams := g.streams[stream := r]), Ok, r)
  }

  function Prepare(g: Group, stream: nat, room: bool): Reply {
    if stream == 0 then Fail(g, Invalid)
    else if g.control.None? then Fail(g, State)
    else if stream in g.streams then Fail(g, State)
    else if !room || |g.streams| >= g.streamCapacity then Fail(g, Again)
    else
      var s := Select(g);
      if s.status != Ok then Fail(g, Again)
      else Reply(s.group.(streams := g.streams[stream := s.data]), Ok, s.data)
  }

  /** A binding whose slot no longer matches would be dropped here. */
  function StreamData(g: Group, stream: nat): Reply {
    if stream == 0 then Fail(g, Invalid)
    else if stream !in g.streams then Fail(g, Stale)
    else if !Matches(g, g.streams[stream], Attached) then Fail(g.(streams := g.streams - {stream}), Stale)
    else Reply(g, Ok, g.streams[stream])
  }

  function Unbind(g: Group, stream: nat): Reply {
    if stream == 0 then Fail(g, Invalid)
    else if stream !in g.streams then Fail(g, Stale)
    else Reply(g.(streams := g.streams - {stream}), Ok, NO_REF)
  }

  datatype Op =
    | OpSetControl(c: Conn) | OpClearControl(c: Conn) | OpReserve | OpAttach(r: DataRef, c: Conn)
    | OpCancelReservation(r: DataRef) | OpCancelOffer(r: DataRef) | OpRemove(r: DataRef)
    | OpSelect | OpBind(stream: nat, r: DataRef, room: bool) | OpPrepare(stream: nat, room: bool)
    | OpStreamData(stream: nat) | OpUnbind(stream: nat)

  function Do(g: Group, op: Op): Reply {
    match op
    case OpSetControl(c) => SetControl(g, c)
    case OpClearControl(c) => ClearControl(g, c)
    case OpReserve => Reserve(g)
    case OpAttach(r, c) => Attach(g, r, c)
    case OpCancelReservation(r) => CancelReservation(g, r)
    case OpCancelOffer(r) => CancelOffer(g, r)
    case OpRemove(r) => Remove(g, r)
    case OpSelect => Select(g)
    case OpBind(stream, r, room) => Bind(g, stream, r, room)
    case OpPrepare(stream, room) => Prepare(g, stream, room)
    case OpStreamData(stream) => StreamData(g, stream)
    case OpUnbind(stream) => Unbind(g, stream)
  }

  function Run(g: Group, ops: seq<Op>): Group
    decreases |ops|
  {
    if ops == [] then g else Run(Do(g, ops[0]).group, ops[1..])
  }

  function Init(owner: nat, dataCapacity: nat, streamCapacity: nat): Group {
    Group(owner, None, seq(dataCapacity, _ => DataSlot(Free, 0, NO_CONN)), 0, map[], streamCapacity)
  }

  // What every operation keeps.

  /** Every live affinity points to an attached slot of the same generation. */
  predicate AffinitiesLive(g: Group) {
    forall k :: k in g.streams ==> k != 0 && Matches(g, g.streams[k], Attached)
  }

  /** Attached connections are the owner's, pairwise distinct, and none is the control connection. */
  predicate ConnectionsDistinct(g: Group) {
    && (forall i :: 0 <= i < |g.slots| && g.slots[i].state == Attached ==>
          g.slots[i].connection.reactor == g.owner && g.control != Some(g.slots[i].connection))
    && (forall i, j :: 0 <= i < j < |g.slots| && g.slots[i].state == Attached && g.slots[j].state == Attached ==>
          g.slots[i].connection != g.slots[j].connection)
  }

  predicate Sane(g: Group) {
    && 0 < |g.slots| < WORD && g.cursor < |g.slots| && |g.streams| <= g.streamCapacity
    && (forall i :: 0 <= i < |g.slots| ==>
          && g.slots[i].generation < WORD
          && (g.slots[i].state != Free ==> g.slots[i].generation != 0)
          && (g.slots[i].state == Reserved ==> g.control.Some?))
  }

  predicate Inv(g: Group) {
    AffinitiesLive(g) && ConnectionsDistinct(g) && Sane(g)
  }

  lemma ControlKeepsInv(g: Group, c: Conn)
    requires Inv(g)
    ensures Inv(SetControl(g, c).group) && Inv(ClearControl(g, c).group)
  {
  }

  lemma ReserveKeepsInv(g: Group)
    requires Inv(g)
    ensures Inv(Reserve(g).group)
  {
  }

  lemma AttachKeepsInv(g: Group, r: DataRef, c: Conn)
    requires Inv(g)
    ensures Inv(Attach(g, r, c).group)
  {
  }

  lemma CancelKeepsInv(g: Group, r: DataRef)
    requires Inv(g)
    ensures Inv(CancelReservation(g, r).group) && Inv(CancelOffer(g, r).group)
  {
  }

  lemma WithoutShrinks(m: map<nat, DataRef>, r: DataRef)
    ensures |Without(m, r)| <= |m|
  {
    SubsetSize(Without(m, r).Keys, m.Keys);
    assert |m.Keys| == |m| && |Without(m, r).Keys| == |Without(m, r)|;
  }

  lemma RemoveKeepsInv(g: Group, r: DataRef)
    requires Inv(g)
    ensures Inv(Remove(g, r).group)
  {
    WithoutShrinks(g.streams, r);
  }

  lemma SelectKeepsInv(g: Group)
    requires Inv(g)
    ensures Inv(Select(g).group) && Select(g).group == g.(cursor := Select(g).group.cursor)
    ensures Select(g).status == Ok ==> Matches(g, Select(g).data, Attached)
  {
  }

  lemma AddStream(m: map<nat, DataRef>, k: nat, r: DataRef)
    requires k !in m
    ensures |m[k := r]| == |m| + 1
  {
    assert m[k := r].Keys == m.Keys + {k};
    assert |m.Keys| == |m| && |m[k := r].Keys| == |m[k := r]|;
  }

  lemma BindKeepsInv(g: Group, stream: nat, r: DataRef, room: bool)
    requires Inv(g)
    ensures Inv(Bind(g, stream, r, room).group)
  {
    if stream !in g.streams {
      AddStream(g.streams, stream, r);
    }
  }

  lemma PrepareKeepsInv(g: Group, stream: nat, room: bool)
    requires Inv(g)
    ensures Inv(Prepare(g, stream, room).group)
  {
    SelectKeepsInv(g);
    var s := Select(g);
    if stream !in g.streams {
      AddStream(g.streams, stream, s.data);
    }
    if Prepare(g, stream, room).status == Ok {
      BindKeepsInv(s.group, stream, s.data, room);
    }
  }

  lemma DropStream(m: map<nat, DataRef>, k: nat)
    ensures |m - {k}| <= |m|
  {
    SubsetSize((m - {k}).Keys, m.Keys);
    assert |m.Keys| == |m| && |(m - {k}).Keys| == |m - {k}|;
  }

  lemma UnbindKeepsInv(g: Group, stream: nat)
    requires Inv(g)
    ensures Inv(Unbind(g, stream).group) && Inv(StreamData(g, stream).group)
  {
    DropStream(g.streams, stream);
  }

  lemma DoKeepsInv(g: Group, op: Op)
    requires Inv(g)
    ensures Inv(Do(g, op).group)
  {
    match op
    case OpSetControl(c) => ControlKeepsInv(g, c);
    case OpClearControl(c) => ControlKeepsInv(g, c);
    case OpReserve => ReserveKeepsInv(g);
    case OpAttach(r, c) => AttachKeepsInv(g, r, c);
    case OpCancelReservation(r) => CancelKeepsInv(g, r);
    case OpCancelOffer(r) => CancelKeepsInv(g, r);
    case OpRemove(r) => RemoveKeepsInv(g, r);
    case OpSelect => SelectKeepsInv(g);
    case OpBind(stream, r, room) => BindKeepsInv(g, stream, r, room);
    case OpPrepare(stream, room) => PrepareKeepsInv(g, stream, room);
    case OpStreamData(stream) => UnbindKeepsInv(g, stream);
    case OpUnbind(stream) => UnbindKeepsInv(g, stream);
  }

  lemma {:induction false} RunKeepsInv(g: Group, ops: seq<Op>)
    requires Inv(g)
    ensures Inv(Run(g, ops))
    decreases |ops|
  {
    if ops != [] {
      DoKeepsInv(g, ops[0]);
      RunKeepsInv(Do(g, ops[0]).group, ops[1..]);
    }
  }
}
