/** The connection group and its registry as they run (pipeline.c, pipeline_registry.c,
    pipeline_control.c): slot scans, probe tables and counters, refining Group. */
module Pipeline {
  import opened Ring
  import opened Status
  import opened Group
  import opened GroupTheorems
  import T = ProbeTable

  class Pipeline {
    const id: nat
    const owner: nat
    const table: T.ProbeTable<DataRef>
    var control: Option<Conn>
    var slots: seq<DataSlot>
    var reservedCount: nat
    var dataCount: nat
    var cursor: nat

    ghost function View(): Group
      reads this, table, table.entries
    {
      Group(owner, control, slots, cursor, table.model, table.entries.Length)
    }

    ghost predicate Consistent()
      reads this, table, table.entries
    {
      && table.Valid()
      && reservedCount == Count(slots, Reserved) && dataCount == Count(slots, Attached)
    }

    ghost predicate Valid()
      reads this, table, table.entries
    {
      Consistent() && Inv(View())
    }

    // tr_pipeline_create
    constructor (id: nat, owner: nat, dataCapacity: nat, streamCapacity: nat, hash: nat -> nat)
      requires 0 < dataCapacity < WORD && 0 < streamCapacity < WORD
      ensures Valid() && View() == Init(owner, dataCapacity, streamCapacity) && this.id == id
      ensures fresh(table) && fresh(table.entries)
    {
      this.id, this.owner := id, owner;
      table := new T.ProbeTable<DataRef>(streamCapacity, hash);
      control, cursor, reservedCount, dataCount := None, 0, 0, 0;
      slots := seq(dataCapacity, _ => DataSlot(Free, 0, NO_CONN));
      new;
      GroupTheorems.InitInv(owner, dataCapacity, streamCapacity);
      NoneMeansZero(slots, Reserved);
      NoneMeansZero(slots, Attached);
    }

    /** Change one slot. */
    method SetSlot(i: nat, x: DataSlot)
      requires i < |slots| && reservedCount == Count(slots, Reserved) && dataCount == Count(slots, Attached)
      modifies this`slots, this`reservedCount, this`dataCount
      ensures slots == old(slots)[i := x]
      ensures reservedCount == Count(slots, Reserved) && dataCount == Count(slots, Attached)
    {
      CountUpdate(slots, i, x, Reserved);
      CountUpdate(slots, i, x, Attached);
      reservedCount := reservedCount + (if x.state == Reserved then 1 else 0) - (if slots[i].state == Reserved then 1 else 0);
      dataCount := dataCount + (if x.state == Attached then 1 else 0) - (if slots[i].state == Attached then 1 else 0);
      slots := slots[i := x];
    }

    // tr_pipeline_connection_is_data
    method ConnectionIsData(c: Conn) returns (found: bool)
      ensures found <==> exists i :: 0 <= i < |slots| && slots[i].state == Attached && slots[i].connection == c
    {
      var i := 0;
      while i < |slots|
        invariant 0 <= i <= |slots|
        invariant forall j :: 0 <= j < i ==> !(slots[j].state == Attached && slots[j].connection == c)
      {
        if slots[i].state == Attached && slots[i].connection == c {
          return true;
        }
        i := i + 1;
      }
      return false;
    }

    predicate RefMatches(r: DataRef, st: DataState)
      reads this
    {
      r.index < |slots| && r.generation != 0 && slots[r.index].state == st && slots[r.index].generation == r.generation
    }

    // tr_pipeline_set_control_on_owner
    method BindControl(c: Conn) returns (status: Status)
      requires Valid()
      modifies this`control
      ensures Valid() && SetControl(old(View()), c) == Reply(View(), status, NO_REF)
    {
      ControlKeepsInv(View(), c);
      if c.reactor != owner {
        return Invalid;
      }
      var isData := ConnectionIsData(c);
      if control.Some? || isData {
        return State;
      }
      control := Some(c);
      status := Ok;
    }

    /** The loop of tr_pipeline_clear_control_on_owner. */
    method DropReservations()
      modifies this`slots
      ensures slots == Unreserved(old(slots))
    {
      var i := 0;
      while i < |slots|
        invariant 0 <= i <= |slots| == |old(slots)|
        invariant forall k :: 0 <= k < i ==> slots[k] == Unreserved(old(slots))[k]
        invariant forall k :: i <= k < |slots| ==> slots[k] == old(slots)[k]
      {
        if slots[i].state == Reserved {
          slots := slots[i := DataSlot(Free, slots[i].generation, NO_CONN)];
        }
        i := i + 1;
      }
    }

    // tr_pipeline_clear_control_on_owner
    method UnbindControl(c: Conn) returns (status: Status)
      requires Valid()
      modifies this`control, this`slots, this`reservedCount
      ensures Valid() && ClearControl(old(View()), c) == Reply(View(), status, NO_REF)
    {
      ControlKeepsInv(View(), c);
      UnreservedCounts(slots);
      if control != Some(c) {
        return Stale;
      }
      control := None;
      if reservedCount != 0 {
        DropReservations();
        reservedCount := 0;
      } else {
        assert slots == Unreserved(slots);
      }
      status := Ok;
    }

    // tr_pipeline_reserve_data_on_owner
    method ReserveData() returns (status: Status, data: DataRef)
      requires Valid()
      modifies this`slots, this`reservedCount, this`dataCount
      ensures Valid() && Reserve(old(View())) == Reply(View(), status, data)
    {
      ReserveKeepsInv(View());
      data := NO_REF;
      if control.None? {
        return State, data;
      }
      if dataCount + reservedCount >= |slots| {
        return Again, data;
      }
      var i := 0;
      while i < |slots|
        invariant 0 <= i <= |slots| && FirstFree(slots, 0) == FirstFree(slots, i)
        invariant slots == old(slots) && reservedCount == old(reservedCount) && dataCount == old(dataCount)
      {
        if slots[i].state == Free {
          var generation := NextGeneration(slots[i].generation);
          SetSlot(i, DataSlot(Reserved, generation, NO_CONN));
          return Ok, DataRef(i, generation);
        }
        i := i + 1;
      }
      status := Again;
    }

    // tr_pipeline_attach_data_on_owner
    method AttachData(r: DataRef, c: Conn) returns (status: Status)
      requires Valid()
      modifies this`slots, this`reservedCount, this`dataCount
      ensures Valid() && Attach(old(View()), r, c).group == View() && Attach(old(View()), r, c).status == status
    {
      AttachKeepsInv(View(), r, c);
      if control.None? {
        return State;
      }
      if c.reactor != owner {
        return Invalid;
      }
      var isData := ConnectionIsData(c);
      if control == Some(c) || isData {
        return State;
      }
      if !RefMatches(r, Reserved) {
        return Stale;
      }
      SetSlot(r.index, DataSlot(Attached, r.generation, c));
      status := Ok;
    }

    // tr_pipeline_cancel_data_offer_on_owner
    method CancelDataOffer(r: DataRef) returns (status: Status)
      requires Valid()
      modifies this`slots, this`reservedCount, this`dataCount
      ensures Valid() && CancelOffer(old(View()), r).group == View() && CancelOffer(old(View()), r).status == status
    {
      CancelKeepsInv(View(), r);
      if r.index >= |slots| || r.generation == 0 {
        return Stale;
      }
      if slots[r.index].generation != r.generation {
        return Stale;
      }
      if slots[r.index].state == Reserved {
        SetSlot(r.index, DataSlot(Free, r.generation, NO_CONN));
      }
      status := Ok;
    }

    // tr_pipeline_remove_data_on_owner
    method RemoveData(r: DataRef) returns (status: Status)
      requires Valid()
      modifies this`slots, this`reservedCount, this`dataCount, table, table.entries
      ensures Valid() && Remove(old(View()), r).group == View() && Remove(old(View()), r).status == status
    {
      RemoveKeepsInv(View(), r);
      if !RefMatches(r, Attached) {
        return Stale;
      }
      Detach(r);
      status := Ok;
    }

    /** Free the slot and drop every affinity to it. */
    method Detach(r: DataRef)
      requires Consistent() && r.index < |slots|
      modifies this`slots, this`reservedCount, this`dataCount, table, table.entries
      ensures Consistent()
      ensures slots == old(slots)[r.index := DataSlot(Free, r.generation, NO_CONN)] && table.model == Without(old(table.model), r)
    {
      SetSlot(r.index, DataSlot(Free, r.generation, NO_CONN));
      table.BuryValue(r);
    }

    /** The round-robin scan shared by selection and transfer preparation. */
    method Scan() returns (found: bool, index: nat)
      requires cursor < |slots| < WORD
      ensures var o := NextAttached(slots, cursor, 0);
        found == (o < |slots|) && (found ==> index == Probe(cursor, o, |slots|))
    {
      var n := |slots|;
      var offset := 0;
      index := 0;
      while offset < n
        invariant 0 <= offset <= n && NextAttached(slots, cursor, 0) == NextAttached(slots, cursor, offset)
      {
        index := Wrap(cursor, offset, n);
        if slots[index].state == Attached {
          return true, index;
        }
        offset := offset + 1;
      }
      return false, 0;
    }

    // tr_pipeline_select_data_on_owner
    method SelectData() returns (status: Status, data: DataRef)
      requires Valid()
      modifies this`cursor
      ensures Valid() && Select(old(View())) == Reply(View(), status, data)
    {
      SelectKeepsInv(View());
      data := NO_REF;
      if dataCount == 0 {
        NoneToSelect(View());
        return Again, data;
      }
      var found, index := Scan();
      if !found {
        return Again, data;
      }
      cursor := Advance(index, |slots|);
      return Ok, DataRef(index, slots[index].generation);
    }

    /** Probing for the stream meets a free entry. */
    ghost predicate HasRoom(stream: nat)
      reads this, table, table.entries
    {
      !T.Crowded(table.hash, table.entries[..], stream)
    }

    lemma RoomIsRoom(stream: nat)
      requires table.Valid()
      ensures HasRoom(stream) ==> |table.model| < table.entries.Length
    {
      if HasRoom(stream) {
        T.NotCrowdedHasRoom(table.hash, table.entries[..], stream);
      }
    }

    /** Up to 2^31 affinities, there is room exactly when the table is not full. */
    lemma RoomIsByCount(stream: nat)
      requires table.Valid() && table.entries.Length <= MAX_TABLE
      ensures HasRoom(stream) <==> |table.model| < table.entries.Length
    {
      T.CrowdedIsFull(table.hash, table.entries[..], stream);
      T.CountBound(table.entries[..]);
    }

    // tr_pipeline_bind_stream_on_owner
    method BindStream(stream: nat, r: DataRef) returns (status: Status)
      requires Valid()
      modifies table, table.entries
      ensures Valid() && old(Bind(View(), stream, r, HasRoom(stream))).group == View()
      ensures old(Bind(View(), stream, r, HasRoom(stream))).status == status
    {
      BindKeepsInv(View(), stream, r, HasRoom(stream));
      RoomIsRoom(stream);
      if stream == 0 {
        return Invalid;
      }
      if !RefMatches(r, Attached) {
        return Stale;
      }
      status := table.Insert(stream, r);
    }

    /** Bind `stream` to the next attached slot, at the entry a search offered, and move the cursor. */
    method BindNext(stream: nat, insert: nat) returns (status: Status, data: DataRef)
      requires Consistent() && cursor < |slots| < WORD && stream !in table.model
      requires T.Usable(table.hash, table.entries[..], stream, insert)
      modifies this`cursor, table, table.entries
      ensures Consistent()
      ensures var s := Select(old(View()));
        && status == s.status && data == s.data
        && View() == if status == Ok then s.group.(streams := old(table.model)[stream := data]) else old(View())
    {
      data := NO_REF;
      if dataCount == 0 {
        NoneToSelect(View());
        return Again, data;
      }
      var some, selected := Scan();
      if !some {
        return Again, data;
      }
      data := DataRef(selected, slots[selected].generation);
      table.Put(insert, stream, data);
      cursor := Advance(selected, |slots|);
      status := Ok;
    }

    // tr_pipeline_prepare_transfer_on_owner
    method PrepareTransfer(stream: nat) returns (status: Status, data: DataRef)
      requires Valid()
      modifies this`cursor, table, table.entries
      ensures Valid() && old(Prepare(View(), stream, HasRoom(stream))) == Reply(View(), status, data)
    {
      PrepareKeepsInv(View(), stream, HasRoom(stream));
      RoomIsRoom(stream);
      data := NO_REF;
      if stream == 0 {
        return Invalid, data;
      }
      if control.None? {
        return State, data;
      }
      var found, index, insert := table.Find(stream);
      if found {
        return State, data;
      }
      if insert.None? {
        return Again, data;
      }
      SelectStatus(View());
      status, data := BindNext(stream, insert.value);
    }

    // tr_pipeline_stream_data_on_owner: the stale branch is never taken
    method FindStream(stream: nat) returns (status: Status, data: DataRef)
      requires Valid()
      ensures StreamData(View(), stream) == Reply(View(), status, data)
    {
      data := NO_REF;
      if stream == 0 {
        return Invalid, data;
      }
      var found, index, insert := table.Find(stream);
      if !found {
        return Stale, data;
      }
      data := table.entries[index].value;
      status := Ok;
    }

    // tr_pipeline_unbind_stream_on_owner
    method UnbindStream(stream: nat) returns (status: Status)
      requires Valid()
      modifies table, table.entries
      ensures Valid() && Unbind(old(View()), stream) == Reply(View(), status, NO_REF)
    {
      UnbindKeepsInv(View(), stream);
      if stream == 0 {
        return Invalid;
      }
      var found := table.Delete(stream);
      status := if found then Ok else Stale;
    }
  }

  /** A registry of the pipelines of one shard (pipeline_registry.c). */
  class Registry {
    const owner: nat
    const table: T.ProbeTable<Pipeline>

    constructor (owner: nat, capacity: nat, hash: nat -> nat)
      requires 0 < capacity < WORD
      ensures table.Valid() && table.model == map[] && fresh(table) && fresh(table.entries) && this.owner == owner
    {
      this.owner := owner;
      table := new T.ProbeTable<Pipeline>(capacity, hash);
    }

    /** The registry and the pipeline do not share storage. */
    ghost predicate Apart(p: Pipeline)
      reads this
    {
      && table as object != p.table as object && table.entries as object != p.table.entries as object
      && p as object !in {table as object, table.entries as object}
    }

    /** What the table answers before anything is bound. */
    ghost function Admission(p: Pipeline): Status
      reads table, table.entries
    {
      if p.id in table.model then State
      else if table.count == table.entries.Length || T.Crowded(table.hash, table.entries[..], p.id) then Again
      else Ok
    }

    // tr_pipeline_registry_register_control_on_owner
    method RegisterControl(p: Pipeline, c: Conn) returns (status: Status)
      requires table.Valid() && p.Valid() && Apart(p)
      modifies table, table.entries, p`control
      ensures table.Valid() && p.Valid()
      ensures status == if p.owner != owner || c.reactor != owner then Invalid
                        else if old(Admission(p)) != Ok then old(Admission(p))
                        else SetControl(old(p.View()), c).status
      ensures status == Ok ==>
        table.model == old(table.model)[p.id := p] && p.View() == old(p.View()).(control := Some(c)) && p.id !in old(table.model)
      ensures status != Ok ==> table.model == old(table.model) && p.View() == old(p.View())
    {
      if p.owner != owner || c.reactor != owner {
        return Invalid;
      }
      var index;
      status, index := CheckRegister(p);
      if status != Ok {
        return;
      }
      status := p.BindControl(c);
      if status != Ok {
        return;
      }
      table.Put(index, p.id, p);
    }

    /** Everything about the table that can fail before the commit. */
    method CheckRegister(p: Pipeline) returns (status: Status, index: nat)
      requires table.Valid()
      ensures status == Admission(p)
      ensures status == Ok ==> p.id !in table.model && T.Usable(table.hash, table.entries[..], p.id, index)
    {
      var found, at, insert := table.Find(p.id);
      if found {
        return State, 0;
      }
      if table.count == table.entries.Length || insert.None? {
        return Again, 0;
      }
      return Ok, insert.value;
    }

    /** Up to 2^31 entries, registration is refused for want of room exactly when the registry is full. */
    lemma AdmissionIsByCount(p: Pipeline)
      requires table.Valid() && table.entries.Length <= MAX_TABLE
      ensures Admission(p) == if p.id in table.model then State else if |table.model| >= table.entries.Length then Again else Ok
    {
      T.CrowdedIsFull(table.hash, table.entries[..], p.id);
      T.CountBound(table.entries[..]);
    }

    /** Everything that can fail before the commit: where the pipeline is registered, or why not to close it. */
    method CheckClose(p: Pipeline) returns (status: Status, index: nat)
      requires table.Valid() && p.Valid()
      ensures status == (if !(p.id in table.model && table.model[p.id] == p) then Stale
                         else if p.control.None? then Stale
                         else if Count(p.slots, Attached) != 0 || |p.table.model| != 0 then State
                         else Ok)
      ensures status == Ok ==> index < table.entries.Length && table.entries[index] == T.Used(p.id, p)
    {
      var found, insert;
      found, index, insert := table.Find(p.id);
      if !found {
        return Stale, 0;
      }
      if table.entries[index].value != p {
        return Stale, 0;
      }
      if p.control.None? {
        return Stale, 0;
      }
      if p.dataCount != 0 || p.table.count != 0 {
        return State, 0;
      }
      status := Ok;
    }

    // tr_pipeline_registry_close_control_on_owner
    method CloseControl(p: Pipeline, expected: Conn) returns (status: Status)
      requires table.Valid() && p.Valid() && Apart(p)
      modifies table, table.entries, p`control, p`slots, p`reservedCount
      ensures table.Valid() && p.Valid()
      ensures status == (if !(p.id in old(table.model) && old(table.model)[p.id] == p) then Stale
                         else if old(p.control).None? then Stale
                         else if Count(old(p.slots), Attached) != 0 || |old(p.table.model)| != 0 then State
                         else if old(p.control) != Some(expected) then Stale
                         else Ok)
      ensures status == Ok ==>
        table.model == old(table.model) - {p.id} && p.View() == ClearControl(old(p.View()), expected).group
      ensures status != Ok ==> table.model == old(table.model) && p.View() == old(p.View())
    {
      var index;
      status, index := CheckClose(p);
      if status != Ok {
        return;
      }
      status := CommitClose(p, expected, index);
    }

    /** The commit: clear the control connection and withdraw the entry, or change nothing. */
    method CommitClose(p: Pipeline, expected: Conn, index: nat) returns (status: Status)
      requires table.Valid() && p.Valid() && Apart(p)
      requires index < table.entries.Length && table.entries[index] == T.Used(p.id, p)
      modifies table, table.entries, p`control, p`slots, p`reservedCount
      ensures table.Valid() && p.Valid()
      ensures ClearControl(old(p.View()), expected) == Reply(p.View(), status, NO_REF)
      ensures table.model == if status == Ok then old(table.model) - {p.id} else old(table.model)
    {
      status := p.UnbindControl(expected);
      if status == Ok {
        label Cleared:
        table.Bury(index);
        assert p.View() == old@Cleared(p.View());
      }
    }
  }

  // tr_pipeline_attached_data_snapshot_on_owner: the caller's array has room for `capacity` references
  method TakeSnapshot(p: Pipeline, capacity: nat) returns (status: Status, refs: seq<DataRef>)
    requires p.Consistent()
    ensures status == if capacity < Count(p.slots, Attached) then BadLength else Ok
    ensures status == Ok ==> refs == Snapshot(p.slots, |p.slots|) && |refs| <= capacity
  {
    refs := [];
    if capacity < p.dataCount {
      return BadLength, refs;
    }
    SnapshotLength(p.slots, |p.slots|);
    assert p.slots[..|p.slots|] == p.slots;
    var i := 0;
    while i < |p.slots|
      invariant 0 <= i <= |p.slots| && refs == Snapshot(p.slots, i)
    {
      if p.slots[i].state == Attached {
        refs := refs + [DataRef(i, p.slots[i].generation)];
      }
      i := i + 1;
    }
    status := Ok;
  }

  /** The removal loop of tr_pipeline_control_abort_on_owner: it never stops early. */
  method RemoveMembers(p: Pipeline, refs: seq<DataRef>) returns (status: Status)
    requires p.Valid() && Covers(p.View(), refs)
    modifies p`slots, p`reservedCount, p`dataCount, p.table, p.table.entries
    ensures p.Valid() && status == Ok && p.View() == RemoveAll(old(p.View()), refs)
  {
    var i := 0;
    while i < |refs|
      invariant 0 <= i <= |refs| && p.Valid() && Covers(p.View(), refs[i..])
      invariant RemoveAll(p.View(), refs[i..]) == RemoveAll(old(p.View()), refs)
    {
      RemoveOne(p.View(), refs[i..]);
      assert refs[i..][1..] == refs[i + 1..];
      status := p.RemoveData(refs[i]);
      if status != Ok {
        assert false;
      }
      i := i + 1;
    }
    status := Ok;
  }

  // tr_pipeline_control_abort_on_owner: with the bound control connection of a registered pipeline it always
  // completes, and the pipeline meets every assertion of tr_pipeline_destroy
  method Abort(registry: Registry, p: Pipeline, expected: Conn) returns (status: Status)
    requires registry.table.Valid() && p.Valid() && registry.Apart(p)
    requires p.id in registry.table.model && registry.table.model[p.id] == p && p.control == Some(expected)
    modifies registry.table, registry.table.entries
    modifies p`control, p`slots, p`reservedCount, p`dataCount, p.table, p.table.entries
    ensures status == Ok && Destroyable(p.View())
    ensures registry.table.Valid() && registry.table.model == old(registry.table.model) - {p.id}
  {
    var refs;
    CountsAddUp(p.slots);
    status, refs := TakeSnapshot(p, |p.slots|);
    SnapshotCovers(p.View());
    RemoveAllEmpties(p.View(), refs);
    status := RemoveMembers(p, refs);
    ClearedIsDestroyable(p.View(), expected);
    status := registry.CloseControl(p, expected);
  }

  lemma SelectStatus(g: Group)
    ensures Select(g).status == Ok || Select(g) == Reply(g, Again, NO_REF)
  {
  }

  lemma UnreservedCounts(slots: seq<DataSlot>)
    ensures Count(Unreserved(slots), Reserved) == 0
    ensures Count(Unreserved(slots), Attached) == Count(slots, Attached)
    ensures Count(slots, Reserved) == 0 ==> Unreserved(slots) == slots
  {
    NoneMeansZero(Unreserved(slots), Reserved);
    NoneMeansZero(slots, Reserved);
    SameAttached(slots, Unreserved(slots));
  }

  lemma {:induction false} SameAttached(a: seq<DataSlot>, b: seq<DataSlot>)
    requires |a| == |b| && forall i :: 0 <= i < |a| ==> (a[i].state == Attached <==> b[i].state == Attached)
    ensures Count(a, Attached) == Count(b, Attached)
  {
    if a != [] {
      SameAttached(a[..|a| - 1], b[..|b| - 1]);
    }
  }
}
