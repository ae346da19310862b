/** A connection group as its owner sees it: a roster of the control connection, the open offers, the attached members
    and the stream affinities, kept from the calls and their answers alone. The slot table keeps that roster in every
    run, and answers every call as the roster says. */
module GroupRoster {
  import opened Sets
  import opened Status
  import opened Group
  import opened GroupTheorems
  import opened Ring

  /** `issued[i]` is the last generation given out for slot `i`. */
  datatype Roster = Roster(
    control: Option<Conn>, offers: set<DataRef>, members: map<DataRef, Conn>, issued: seq<nat>, streams: map<nat, DataRef>)

  function OffersOf(slots: seq<DataSlot>): set<DataRef> {
    if slots == [] then {} else
      var n := |slots| - 1;
      var rest := OffersOf(slots[..n]);
      if slots[n].state == Reserved then rest + {DataRef(n, slots[n].generation)} else rest
  }

  function MembersOf(slots: seq<DataSlot>): map<DataRef, Conn> {
    if slots == [] then map[] else
      var n := |slots| - 1;
      var rest := MembersOf(slots[..n]);
      if slots[n].state == Attached then rest[DataRef(n, slots[n].generation) := slots[n].connection] else rest
  }

  function Issued(slots: seq<DataSlot>): seq<nat> {
    seq(|slots|, i requires 0 <= i < |slots| => slots[i].generation)
  }

  function RosterOf(g: Group): Roster {
    Roster(g.control, OffersOf(g.slots), MembersOf(g.slots), Issued(g.slots), g.streams)
  }

  // The answers the roster calls for.

  predicate Member(ro: Roster, c: Conn) {
    exists r :: r in ro.members && ro.members[r] == c
  }

  predicate Vacant(ro: Roster, i: nat) {
    i < |ro.issued| && DataRef(i, ro.issued[i]) !in ro.offers && DataRef(i, ro.issued[i]) !in ro.members
  }

  predicate Current(ro: Roster, r: DataRef) {
    r.index < |ro.issued| && r.generation != 0 && ro.issued[r.index] == r.generation
  }

  function JudgeStream(ro: Roster, stream: nat, capacity: nat, room: bool): Status {
    if stream in ro.streams then State else if !room || |ro.streams| >= capacity then Again else Ok
  }

  /** `choice` is what the round robin would select. */
  ghost function Judge(ro: Roster, owner: nat, capacity: nat, op: Op, choice: Option<DataRef>): Status {
    match op
    case OpSetControl(c) =>
      if c.reactor != owner then Invalid else if ro.control.Some? || Member(ro, c) then State else Ok
    case OpClearControl(c) => if ro.control == Some(c) then Ok else Stale
    case OpReserve => if ro.control.None? then State else if exists i: nat :: Vacant(ro, i) then Ok else Again
    case OpAttach(r, c) =>
      if ro.control.None? then State
      else if c.reactor != owner then Invalid
      else if ro.control == Some(c) || Member(ro, c) then State
      else if r in ro.offers then Ok else Stale
    case OpCancelReservation(r) => if r in ro.offers then Ok else Stale
    case OpCancelOffer(r) => if Current(ro, r) then Ok else Stale
    case OpRemove(r) => if r in ro.members then Ok else Stale
    case OpSelect => if choice.Some? then Ok else Again
    case OpBind(stream, r, room) =>
      if stream == 0 then Invalid else if r !in ro.members then Stale else JudgeStream(ro, stream, capacity, room)
    case OpPrepare(stream, room) =>
      if stream == 0 then Invalid else if ro.control.None? then State
      else if JudgeStream(ro, stream, capacity, room) != Ok then JudgeStream(ro, stream, capacity, room)
      else if choice.Some? then Ok else Again
    case OpStreamData(stream) => if stream == 0 then Invalid else if stream in ro.streams then Ok else Stale
    case OpUnbind(stream) => if stream == 0 then Invalid else if stream in ro.streams then Ok else Stale
  }

  /** What a successful call returns. */
  predicate Returns(ro: Roster, op: Op, choice: Option<DataRef>, data: DataRef) {
    match op
    case OpReserve => Vacant(ro, data.index) && data.generation == NextGeneration(ro.issued[data.index])
    case OpAttach(r, _) => data == r
    case OpCancelReservation(r) => data == r
    case OpCancelOffer(r) => data == r
    case OpRemove(r) => data == r
    case OpSelect => choice == Some(data) && data in ro.members
    case OpBind(_, r, _) => data == r
    case OpPrepare(_, _) => choice == Some(data) && data in ro.members
    case OpStreamData(stream) => stream in ro.streams && data == ro.streams[stream]
    case _ => true
  }

  /** What a successful call that returned `data` does to the roster. */
  function Enroll(ro: Roster, op: Op, data: DataRef): Roster {
    match op
    case OpSetControl(c) => ro.(control := Some(c))
    case OpClearControl(_) => ro.(control := None, offers := {})
    case OpReserve =>
      ro.(offers := ro.offers + {data},
          issued := if data.index < |ro.issued| then ro.issued[data.index := data.generation] else ro.issued)
    case OpAttach(r, c) => ro.(offers := ro.offers - {r}, members := ro.members[r := c])
    case OpCancelReservation(r) => ro.(offers := ro.offers - {r})
    case OpCancelOffer(r) => ro.(offers := ro.offers - {r})
    case OpRemove(r) => ro.(members := ro.members - {r}, streams := map k | k in ro.streams && ro.streams[k] != r :: ro.streams[k])
    case OpBind(stream, r, _) => ro.(streams := ro.streams[stream := r])
    case OpPrepare(stream, _) => ro.(streams := ro.streams[stream := data])
    case OpUnbind(stream) => ro.(streams := ro.streams - {stream})
    case OpSelect => ro
    case OpStreamData(_) => ro
  }

  function Choice(g: Group): Option<DataRef> {
    if Select(g).status == Ok then Some(Select(g).data) else None
  }

  // The table holds what the roster says.

  predicate InState(slots: seq<DataSlot>, r: DataRef, st: DataState) {
    r.index < |slots| && slots[r.index].state == st && slots[r.index].generation == r.generation
  }

  lemma {:induction false} InOffers(slots: seq<DataSlot>, r: DataRef)
    ensures r in OffersOf(slots) <==> InState(slots, r, Reserved)
  {
    if slots != [] {
      InOffers(slots[..|slots| - 1], r);
    }
  }

  lemma {:induction false} InMembers(slots: seq<DataSlot>, r: DataRef)
    ensures r in MembersOf(slots) <==> InState(slots, r, Attached)
    ensures InState(slots, r, Attached) ==> MembersOf(slots)[r] == slots[r.index].connection
  {
    if slots != [] {
      InMembers(slots[..|slots| - 1], r);
    }
  }

  lemma Holds(g: Group, r: DataRef)
    requires Sane(g)
    ensures r in OffersOf(g.slots) <==> Matches(g, r, Reserved)
    ensures r in MembersOf(g.slots) <==> Matches(g, r, Attached)
    ensures r in MembersOf(g.slots) ==> MembersOf(g.slots)[r] == g.slots[r.index].connection
  {
    InOffers(g.slots, r);
    InMembers(g.slots, r);
  }

  lemma MemberIsData(g: Group, c: Conn)
    requires Sane(g)
    ensures Member(RosterOf(g), c) <==> IsData(g, c)
  {
    var ro := RosterOf(g);
    if Member(ro, c) {
      var r :| r in ro.members && ro.members[r] == c;
      Holds(g, r);
    }
    if IsData(g, c) {
      var i :| 0 <= i < |g.slots| && g.slots[i].state == Attached && g.slots[i].connection == c;
      Holds(g, DataRef(i, g.slots[i].generation));
    }
  }

  lemma VacantIsFree(g: Group, i: nat)
    requires Sane(g)
    ensures Vacant(RosterOf(g), i) <==> i < |g.slots| && g.slots[i].state == Free
  {
    if i < |g.slots| {
      Holds(g, DataRef(i, g.slots[i].generation));
    }
  }

  /** `slots` have the offers and members given. */
  ghost predicate Listed(slots: seq<DataSlot>, offers: set<DataRef>, members: map<DataRef, Conn>) {
    && (forall r: DataRef :: r in offers <==> InState(slots, r, Reserved))
    && (forall r: DataRef :: r in members <==> InState(slots, r, Attached))
    && (forall r: DataRef :: r in members ==> r.index < |slots| && members[r] == slots[r.index].connection)
  }

  lemma OwnListed(slots: seq<DataSlot>)
    ensures Listed(slots, OffersOf(slots), MembersOf(slots))
  {
    forall r: DataRef
      ensures r in OffersOf(slots) <==> InState(slots, r, Reserved)
      ensures r in MembersOf(slots) <==> InState(slots, r, Attached)
      ensures InState(slots, r, Attached) ==> MembersOf(slots)[r] == slots[r.index].connection
    {
      InOffers(slots, r);
      InMembers(slots, r);
    }
  }

  lemma ListedIsOwn(slots: seq<DataSlot>, offers: set<DataRef>, members: map<DataRef, Conn>)
    requires Listed(slots, offers, members)
    ensures OffersOf(slots) == offers && MembersOf(slots) == members
  {
    OwnListed(slots);
  }

  /** A slot is freed under the generation it has. */
  lemma FreeWrite(slots: seq<DataSlot>, i: nat, x: DataSlot, ref: DataRef)
    requires i < |slots| && x.state == Free && x.generation == slots[i].generation && ref == DataRef(i, x.generation)
    ensures OffersOf(slots[i := x]) == OffersOf(slots) - {ref} && MembersOf(slots[i := x]) == MembersOf(slots) - {ref}
    ensures Issued(slots[i := x]) == Issued(slots)
  {
    OwnListed(slots);
    ListedIsOwn(slots[i := x], OffersOf(slots) - {ref}, MembersOf(slots) - {ref});
  }

  /** A free slot is offered under a new generation. */
  lemma OfferWrite(slots: seq<DataSlot>, i: nat, x: DataSlot, ref: DataRef)
    requires i < |slots| && slots[i].state == Free && x.state == Reserved && ref == DataRef(i, x.generation)
    ensures OffersOf(slots[i := x]) == OffersOf(slots) + {ref} && MembersOf(slots[i := x]) == MembersOf(slots)
    ensures Issued(slots[i := x]) == Issued(slots)[i := x.generation]
  {
    OwnListed(slots);
    ListedIsOwn(slots[i := x], OffersOf(slots) + {ref}, MembersOf(slots));
  }

  /** An offered slot is attached under its generation. */
  lemma AttachWrite(slots: seq<DataSlot>, i: nat, x: DataSlot, ref: DataRef)
    requires i < |slots| && slots[i].state == Reserved && x.state == Attached && x.generation == slots[i].generation
    requires ref == DataRef(i, x.generation)
    ensures OffersOf(slots[i := x]) == OffersOf(slots) - {ref}
    ensures MembersOf(slots[i := x]) == MembersOf(slots)[ref := x.connection]
    ensures Issued(slots[i := x]) == Issued(slots)
  {
    OwnListed(slots);
    ListedIsOwn(slots[i := x], OffersOf(slots) - {ref}, MembersOf(slots)[ref := x.connection]);
  }

  lemma ClearedSlots(slots: seq<DataSlot>)
    ensures OffersOf(Unreserved(slots)) == {} && MembersOf(Unreserved(slots)) == MembersOf(slots)
    ensures Issued(Unreserved(slots)) == Issued(slots)
  {
    OwnListed(slots);
    ListedIsOwn(Unreserved(slots), {}, MembersOf(slots));
  }

  // Call by call.

  /** How `reply` must relate to the group it came from. */
  ghost predicate Answers(g: Group, op: Op, reply: Reply) {
    var ro := RosterOf(g);
    && reply.status == Judge(ro, g.owner, g.streamCapacity, op, Choice(g))
    && (reply.status == Ok ==>
          Returns(ro, op, Choice(g), reply.data) && RosterOf(reply.group) == Enroll(ro, op, reply.data))
    && (reply.status != Ok ==> reply.group == g)
  }

  lemma SetControlIsFaithful(g: Group, c: Conn)
    requires Inv(g)
    ensures Answers(g, OpSetControl(c), SetControl(g, c))
  {
    MemberIsData(g, c);
  }

  lemma ClearControlIsFaithful(g: Group, c: Conn)
    requires Inv(g)
    ensures Answers(g, OpClearControl(c), ClearControl(g, c))
  {
    ClearedSlots(g.slots);
  }

  lemma ReserveFinds(g: Group)
    requires Sane(g) && g.control.Some?
    ensures Reserve(g).status == if exists i: nat :: Vacant(RosterOf(g), i) then Ok else Again
  {
    ReserveFindsASlot(g);
    CountsAddUp(g.slots);
    NoneMeansZero(g.slots, Free);
    forall i: nat
      ensures Vacant(RosterOf(g), i) <==> i < |g.slots| && g.slots[i].state == Free
    {
      VacantIsFree(g, i);
    }
  }

  lemma ReserveIsFaithful(g: Group)
    requires Inv(g)
    ensures Answers(g, OpReserve, Reserve(g))
  {
    if g.control.Some? {
      ReserveFinds(g);
      var r := Reserve(g).data;
      if Reserve(g).status == Ok {
        VacantIsFree(g, r.index);
        OfferWrite(g.slots, r.index, DataSlot(Reserved, r.generation, NO_CONN), r);
      }
    }
  }

  lemma AttachIsFaithful(g: Group, r: DataRef, c: Conn)
    requires Inv(g)
    ensures Answers(g, OpAttach(r, c), Attach(g, r, c))
  {
    MemberIsData(g, c);
    Holds(g, r);
    if Matches(g, r, Reserved) {
      AttachWrite(g.slots, r.index, DataSlot(Attached, r.generation, c), r);
    }
  }

  lemma WithdrawnRoster(g: Group, r: DataRef, after: Group)
    requires Inv(g) && Matches(g, r, Reserved)
    requires after == g.(slots := g.slots[r.index := DataSlot(Free, r.generation, NO_CONN)])
    ensures RosterOf(after) == RosterOf(g).(offers := OffersOf(g.slots) - {r})
  {
    Holds(g, r);
    FreeWrite(g.slots, r.index, DataSlot(Free, r.generation, NO_CONN), r);
    assert MembersOf(g.slots) - {r} == MembersOf(g.slots);
  }

  lemma CancelReservationIsFaithful(g: Group, r: DataRef)
    requires Inv(g)
    ensures Answers(g, OpCancelReservation(r), CancelReservation(g, r))
  {
    Holds(g, r);
    if Matches(g, r, Reserved) {
      WithdrawnRoster(g, r, CancelReservation(g, r).group);
    }
  }

  lemma CancelOfferIsFaithful(g: Group, r: DataRef)
    requires Inv(g)
    ensures Answers(g, OpCancelOffer(r), CancelOffer(g, r))
  {
    Holds(g, r);
    if Matches(g, r, Reserved) {
      CancelReservationIsFaithful(g, r);
    } else {
      assert OffersOf(g.slots) - {r} == OffersOf(g.slots);
    }
  }

  lemma RemoveIsFaithful(g: Group, r: DataRef)
    requires Inv(g)
    ensures Answers(g, OpRemove(r), Remove(g, r))
  {
    Holds(g, r);
    if Matches(g, r, Attached) {
      FreeWrite(g.slots, r.index, DataSlot(Free, r.generation, NO_CONN), r);
      assert OffersOf(g.slots) - {r} == OffersOf(g.slots);
    }
  }

  lemma SelectIsFaithful(g: Group)
    requires Inv(g)
    ensures Answers(g, OpSelect, Select(g))
  {
    SelectKeepsInv(g);
    Holds(g, Select(g).data);
  }

  lemma BindIsFaithful(g: Group, stream: nat, r: DataRef, room: bool)
    requires Inv(g)
    ensures Answers(g, OpBind(stream, r, room), Bind(g, stream, r, room))
  {
    Holds(g, r);
  }

  lemma PrepareIsFaithful(g: Group, stream: nat, room: bool)
    requires Inv(g)
    ensures Answers(g, OpPrepare(stream, room), Prepare(g, stream, room))
  {
    SelectKeepsInv(g);
    Holds(g, Select(g).data);
  }

  lemma StreamDataIsFaithful(g: Group, stream: nat)
    requires Inv(g)
    ensures Answers(g, OpStreamData(stream), StreamData(g, stream))
  {
  }

  lemma UnbindIsFaithful(g: Group, stream: nat)
    requires Inv(g)
    ensures Answers(g, OpUnbind(stream), Unbind(g, stream))
  {
  }

  lemma DoIsFaithful(g: Group, op: Op)
    requires Inv(g)
    ensures Answers(g, op, Do(g, op))
  {
    match op
    case OpSetControl(c) => SetControlIsFaithful(g, c);
    case OpClearControl(c) => ClearControlIsFaithful(g, c);
    case OpReserve => ReserveIsFaithful(g);
    case OpAttach(r, c) => AttachIsFaithful(g, r, c);
    case OpCancelReservation(r) => CancelReservationIsFaithful(g, r);
    case OpCancelOffer(r) => CancelOfferIsFaithful(g, r);
    case OpRemove(r) => RemoveIsFaithful(g, r);
    case OpSelect => SelectIsFaithful(g);
    case OpBind(stream, r, room) => BindIsFaithful(g, stream, r, room);
    case OpPrepare(stream, room) => PrepareIsFaithful(g, stream, room);
    case OpStreamData(stream) => StreamDataIsFaithful(g, stream);
    case OpUnbind(stream) => UnbindIsFaithful(g, stream);
  }

  // Every run.

  /** A call, whether it succeeded, and what it returned. */
  datatype Answered = Answered(op: Op, ok: bool, data: DataRef)

  function History(g: Group, ops: seq<Op>): seq<Answered>
    decreases |ops|
  {
    if ops == [] then [] else
      var reply := Do(g, ops[0]);
      [Answered(ops[0], reply.status == Ok, reply.data)] + History(reply.group, ops[1..])
  }

  function EnrollAll(ro: Roster, history: seq<Answered>): Roster
    decreases |history|
  {
    if history == [] then ro
    else EnrollAll(if history[0].ok then Enroll(ro, history[0].op, history[0].data) else ro, history[1..])
  }

  lemma {:induction false} RunIsFaithful(g: Group, ops: seq<Op>)
    requires Inv(g)
    ensures RosterOf(Run(g, ops)) == EnrollAll(RosterOf(g), History(g, ops))
    decreases |ops|
  {
    if ops != [] {
      DoIsFaithful(g, ops[0]);
      DoKeepsInv(g, ops[0]);
      RunIsFaithful(Do(g, ops[0]).group, ops[1..]);
      assert History(g, ops)[1..] == History(Do(g, ops[0]).group, ops[1..]);
    }
  }

  function Blank(dataCapacity: nat): Roster {
    Roster(None, {}, map[], seq(dataCapacity, _ => 0), map[])
  }

  lemma InitIsBlank(owner: nat, dataCapacity: nat, streamCapacity: nat)
    ensures RosterOf(Init(owner, dataCapacity, streamCapacity)) == Blank(dataCapacity)
  {
    ListedIsOwn(Init(owner, dataCapacity, streamCapacity).slots, {}, map[]);
  }

  /** In every run from creation the table is the roster of the calls that succeeded, and the next call is answered,
      returns and changes exactly what that roster says. */
  lemma GroupKeepsRoster(owner: nat, dataCapacity: nat, streamCapacity: nat, ops: seq<Op>, next: Op)
    requires 0 < dataCapacity < WORD
    ensures var start := Init(owner, dataCapacity, streamCapacity);
      var g := Run(start, ops);
      RosterOf(g) == EnrollAll(Blank(dataCapacity), History(start, ops)) && Answers(g, next, Do(g, next))
  {
    var start := Init(owner, dataCapacity, streamCapacity);
    InitInv(owner, dataCapacity, streamCapacity);
    InitIsBlank(owner, dataCapacity, streamCapacity);
    RunKeepsInv(start, ops);
    RunIsFaithful(start, ops);
    DoIsFaithful(Run(start, ops), next);
  }
}
