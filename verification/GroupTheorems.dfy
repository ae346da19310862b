/** What a connection group promises over every run of operations (pipeline_internal.h). */
module GroupTheorems {
  import opened Ring
  import opened Sets
  import opened Status
  import opened Group

  lemma InitInv(owner: nat, dataCapacity: nat, streamCapacity: nat)
    requires 0 < dataCapacity < WORD
    ensures Inv(Init(owner, dataCapacity, streamCapacity))
  {
  }

  /** After any run, looking up a bound stream succeeds and yields an attached connection: the branch of
      tr_pipeline_stream_data that drops a stale binding is dead. */
  lemma StaleBindingIsNeverSeen(owner: nat, dataCapacity: nat, streamCapacity: nat, ops: seq<Op>, stream: nat)
    requires 0 < dataCapacity < WORD
    ensures var g := Run(Init(owner, dataCapacity, streamCapacity), ops);
      var r := StreamData(g, stream);
      && r.group == g
      && (r.status == Ok <==> stream in g.streams)
      && (r.status == Ok ==> Matches(g, r.data, Attached) && r.data == g.streams[stream])
  {
    InitInv(owner, dataCapacity, streamCapacity);
    RunKeepsInv(Init(owner, dataCapacity, streamCapacity), ops);
  }

  /** After any run, the attached connections are pairwise distinct and none is the control connection. */
  lemma MembersAreDistinct(owner: nat, dataCapacity: nat, streamCapacity: nat, ops: seq<Op>)
    requires 0 < dataCapacity < WORD
    ensures ConnectionsDistinct(Run(Init(owner, dataCapacity, streamCapacity), ops))
  {
    InitInv(owner, dataCapacity, streamCapacity);
    RunKeepsInv(Init(owner, dataCapacity, streamCapacity), ops);
  }

  // Counting.

  lemma {:induction false} CountsAddUp(slots: seq<DataSlot>)
    ensures Count(slots, Free) + Count(slots, Reserved) + Count(slots, Attached) == |slots|
  {
    if slots != [] {
      CountsAddUp(slots[..|slots| - 1]);
    }
  }

  lemma {:induction false} NoneMeansZero(slots: seq<DataSlot>, st: DataState)
    ensures Count(slots, st) == 0 <==> forall i :: 0 <= i < |slots| ==> slots[i].state != st
  {
    if slots != [] {
      NoneMeansZero(slots[..|slots| - 1], st);
    }
  }

  lemma {:induction false} CountUpdate(slots: seq<DataSlot>, i: nat, x: DataSlot, st: DataState)
    requires i < |slots|
    ensures Count(slots[i := x], st) ==
      Count(slots, st) + (if x.state == st then 1 else 0) - (if slots[i].state == st then 1 else 0)
  {
    var u := slots[i := x];
    if i == |slots| - 1 {
      assert u[..|slots| - 1] == slots[..|slots| - 1];
    } else {
      CountUpdate(slots[..|slots| - 1], i, x, st);
      assert u[..|slots| - 1] == slots[..|slots| - 1][i := x];
    }
  }

  /** The scan of tr_pipeline_reserve_data never falls through: with a slot to spare it finds one. */
  lemma ReserveFindsASlot(g: Group)
    requires g.control.Some?
    ensures Reserve(g).status == if Count(g.slots, Attached) + Count(g.slots, Reserved) < |g.slots| then Ok else Again
  {
    CountsAddUp(g.slots);
    NoneMeansZero(g.slots, Free);
  }

  /** With no attached slot, selection fails. */
  lemma NoneToSelect(g: Group)
    requires Count(g.slots, Attached) == 0
    ensures Select(g) == Fail(g, Again)
  {
    NoneMeansZero(g.slots, Attached);
  }

  /** Selection succeeds exactly when some slot is attached. */
  lemma SelectFindsASlot(g: Group)
    requires g.cursor < |g.slots| <= MAX_TABLE
    ensures Select(g).status == if Count(g.slots, Attached) != 0 then Ok else Again
  {
    NoneMeansZero(g.slots, Attached);
    var n := |g.slots|;
    if NextAttached(g.slots, g.cursor, 0) == n {
      forall i | 0 <= i < n
        ensures g.slots[i].state != Attached
      {
        assert Probe(g.cursor, Offset(g.cursor, i, n), n) == i;
      }
    }
  }

  // Beyond 2^31 slots.

  lemma {:induction false} RunOnward(g: Group, a: seq<Op>, b: seq<Op>)
    ensures Run(g, a + b) == Run(Run(g, a), b)
    decreases |a|
  {
    if a == [] {
      assert a + b == b;
    } else {
      RunOnward(Do(g, a[0]).group, a[1..], b);
      assert (a + b)[1..] == a[1..] + b;
    }
  }

  lemma RunOne(g: Group, op: Op)
    ensures Run(g, [op]) == Do(g, op).group
  {
    assert [op][1..] == [];
  }

  lemma DoKeepsSlots(g: Group, op: Op)
    ensures |Do(g, op).group.slots| == |g.slots|
  {
  }

  lemma {:induction false} RunKeepsSlots(g: Group, ops: seq<Op>)
    ensures |Run(g, ops).slots| == |g.slots|
    decreases |ops|
  {
    if ops != [] {
      DoKeepsSlots(g, ops[0]);
      RunKeepsSlots(Do(g, ops[0]).group, ops[1..]);
    }
  }

  function Reserves(k: nat): seq<Op> {
    if k == 0 then [] else Reserves(k - 1) + [OpReserve]
  }

  /** `k` slots reserved under the control connection `c`. */
  function Offering(n: nat, capacity: nat, c: Conn, k: nat): Group {
    Group(c.reactor, Some(c), seq(n, i => if i < k then DataSlot(Reserved, 1, NO_CONN) else DataSlot(Free, 0, NO_CONN)),
          0, map[], capacity)
  }

  lemma OneMoreOffer(n: nat, capacity: nat, c: Conn, k: nat)
    requires k < n
    ensures Reserve(Offering(n, capacity, c, k)).group == Offering(n, capacity, c, k + 1)
  {
    var g := Offering(n, capacity, c, k);
    ReserveFindsASlot(g);
    CountsAddUp(g.slots);
    NoneMeansZero(g.slots, Free);
    assert g.slots[k].state == Free;
    assert FirstFree(g.slots, 0) == k;
    assert g.slots[k := DataSlot(Reserved, 1, NO_CONN)] == Offering(n, capacity, c, k + 1).slots;
  }

  lemma {:induction false} OffersRun(n: nat, capacity: nat, c: Conn, k: nat)
    requires k <= n
    ensures Run(Offering(n, capacity, c, 0), Reserves(k)) == Offering(n, capacity, c, k)
  {
    if k != 0 {
      OffersRun(n, capacity, c, k - 1);
      RunOnward(Offering(n, capacity, c, 0), Reserves(k - 1), [OpReserve]);
      RunOne(Offering(n, capacity, c, k - 1), OpReserve);
      OneMoreOffer(n, capacity, c, k - 1);
    }
  }

  /** Bind control, reserve all slots but the last, attach the last of them, select it once. */
  function MissingRun(n: nat, control: Conn, data: Conn): seq<Op>
    requires 2 <= n
  {
    [OpSetControl(control)] + Reserves(n - 1) + [OpAttach(DataRef(n - 2, 1), data)] + [OpSelect]
  }

  /** What it leads to: the cursor on the last slot and only the one before it attached. */
  function OneMember(n: nat, capacity: nat, control: Conn, data: Conn, cursor: nat): Group
    requires 2 <= n
  {
    Offering(n, capacity, control, n - 1).(
      slots := Offering(n, capacity, control, n - 1).slots[n - 2 := DataSlot(Attached, 1, data)], cursor := cursor)
  }

  lemma MissingRunLeadsTo(n: nat, capacity: nat, control: Conn, data: Conn)
    requires 2 <= n < WORD && control.reactor == data.reactor && control != data
    ensures Run(Init(control.reactor, n, capacity), MissingRun(n, control, data)) ==
      OneMember(n, capacity, control, data, n - 1)
  {
    var g := Init(control.reactor, n, capacity);
    var a, b, c := [OpSetControl(control)], Reserves(n - 1), [OpAttach(DataRef(n - 2, 1), data)];
    RunOnward(g, a + b + c, [OpSelect]);
    RunOnward(g, a + b, c);
    RunOnward(g, a, b);
    RunOne(g, OpSetControl(control));
    assert SetControl(g, control).group == Offering(n, capacity, control, 0);
    OffersRun(n, capacity, control, n - 1);
    var h := Offering(n, capacity, control, n - 1);
    RunOne(h, OpAttach(DataRef(n - 2, 1), data));
    var m := OneMember(n, capacity, control, data, 0);
    assert Attach(h, DataRef(n - 2, 1), data).group == m;
    RunOne(m, OpSelect);
    FirstSelection(n, capacity, control, data);
  }

  lemma FirstSelection(n: nat, capacity: nat, control: Conn, data: Conn)
    requires 2 <= n < WORD
    ensures Select(OneMember(n, capacity, control, data, 0)).group == OneMember(n, capacity, control, data, n - 1)
  {
    var m := OneMember(n, capacity, control, data, 0);
    var o := NextAttached(m.slots, 0, 0);
    assert m.slots[Probe(0, n - 2, n)].state == Attached;
    assert o == n - 2;
  }

  /** Beyond 2^31 slots there is a run after which the 32-bit index sum skips the only member. */
  lemma MemberIsMissed(n: nat, capacity: nat, control: Conn, data: Conn)
    requires MAX_TABLE < n < WORD && control.reactor == data.reactor && control != data
    ensures var g := Run(Init(control.reactor, n, capacity), MissingRun(n, control, data));
      Select(g).status == Again && Count(g.slots, Attached) != 0
  {
    MissingRunLeadsTo(n, capacity, control, data);
    var g := OneMember(n, capacity, control, data, n - 1);
    NoneMeansZero(g.slots, Attached);
    assert g.slots[n - 2].state == Attached;
    var o := NextAttached(g.slots, n - 1, 0);
    if o < n {
      SkippedEntry(n, o);
    }
  }

  /** In every run of a group with `n` slots, selection succeeds when there is a member. */
  ghost predicate AllMembersAreFound(n: nat) {
    forall owner: nat, capacity: nat, ops: seq<Op> {:trigger Run(Init(owner, n, capacity), ops)} ::
      var g := Run(Init(owner, n, capacity), ops);
      Select(g).status == if Count(g.slots, Attached) != 0 then Ok else Again
  }

  lemma SelectionIsExact(n: nat)
    requires 0 < n < WORD
    ensures AllMembersAreFound(n) <==> n <= MAX_TABLE
  {
    if n <= MAX_TABLE {
      forall owner: nat, capacity: nat, ops: seq<Op>
        ensures var g := Run(Init(owner, n, capacity), ops);
          Select(g).status == if Count(g.slots, Attached) != 0 then Ok else Again
      {
        InitInv(owner, n, capacity);
        RunKeepsInv(Init(owner, n, capacity), ops);
        RunKeepsSlots(Init(owner, n, capacity), ops);
        SelectFindsASlot(Run(Init(owner, n, capacity), ops));
      }
    } else {
      MemberIsMissed(n, 1, Conn(0, 0, 1), Conn(0, 1, 1));
    }
  }

  // Round robin.

  /** How far around the table the next attached slot is, counted without wrap-around. */
  function Nearest(slots: seq<DataSlot>, cursor: nat, o: nat): (k: nat)
    requires cursor < |slots| && o <= |slots|
    ensures o <= k <= |slots| && (k < |slots| ==> slots[At(cursor, k, |slots|)].state == Attached)
    ensures forall j :: o <= j < k ==> slots[At(cursor, j, |slots|)].state != Attached
    decreases |slots| - o
  {
    if o == |slots| || slots[At(cursor, o, |slots|)].state == Attached then o else Nearest(slots, cursor, o + 1)
  }

  lemma {:induction false} ScanIsNearest(slots: seq<DataSlot>, cursor: nat, o: nat)
    requires cursor < |slots| <= MAX_TABLE && o <= |slots|
    ensures NextAttached(slots, cursor, o) == Nearest(slots, cursor, o)
    decreases |slots| - o
  {
    if o < |slots| {
      ScanIsNearest(slots, cursor, o + 1);
    }
  }

  /** The attached slots at distance `o` or more from `base`. */
  ghost function From(slots: seq<DataSlot>, base: nat, o: nat): set<nat>
    requires base < |slots|
  {
    set i: nat | i < |slots| && slots[i].state == Attached && o <= Offset(base, i, |slots|)
  }

  /** The slots that `m` selections in a row pick. */
  function Picks(slots: seq<DataSlot>, cursor: nat, m: nat): seq<nat>
    requires cursor < |slots|
    decreases m
  {
    var o := Nearest(slots, cursor, 0);
    if m == 0 || o == |slots| then []
    else
      var i := At(cursor, o, |slots|);
      [i] + Picks(slots, Next(i, |slots|), m - 1)
  }

  /** Where the cursor is once everything before offset `o` has been passed. */
  function Cursor(base: nat, o: nat, n: nat): (c: nat)
    requires base < n && o <= n
    ensures c < n
  {
    if o == n then base else At(base, o, n)
  }

  lemma NextCursor(base: nat, o: nat, n: nat)
    requires base < n && o < n
    ensures Next(At(base, o, n), n) == Cursor(base, o + 1, n)
  {
  }

  /** The next attached slot is the nearest of those at distance `o` or more. */
  lemma NextIsNearest(slots: seq<DataSlot>, base: nat, o: nat)
    requires base < |slots| && o <= |slots| && From(slots, base, o) != {}
    ensures var k := Nearest(slots, base, o);
      && k < |slots| && At(base, k, |slots|) in From(slots, base, o)
      && From(slots, base, k + 1) == From(slots, base, o) - {At(base, k, |slots|)}
      && |From(slots, base, k + 1)| == |From(slots, base, o)| - 1
  {
    var n := |slots|;
    var k := Nearest(slots, base, o);
    var x :| x in From(slots, base, o);
    assert At(base, Offset(base, x, n), n) == x;
    assert Offset(base, At(base, k, n), n) == k;
    forall i: nat | i in From(slots, base, o) && i != At(base, k, n)
      ensures k + 1 <= Offset(base, i, n)
    {
      assert At(base, Offset(base, i, n), n) == i;
    }
  }

  /** Looking from a later cursor is looking from the base further on. */
  lemma {:induction false} Shift(slots: seq<DataSlot>, base: nat, o: nat, j: nat)
    requires base < |slots| && o + j <= |slots| && o < |slots|
    requires Nearest(slots, base, o + j) < |slots|
    ensures Nearest(slots, At(base, o, |slots|), j) == Nearest(slots, base, o + j) - o
    decreases |slots| - o - j
  {
    if o + j < |slots| {
      AtOnward(base, o, j, |slots|);
      if slots[At(base, o + j, |slots|)].state != Attached {
        Shift(slots, base, o, j + 1);
      }
    }
  }

  /** One selection with the cursor past distance `o`. */
  lemma PickStep(slots: seq<DataSlot>, base: nat, o: nat, m: nat)
    requires base < |slots| && o <= |slots| && Nearest(slots, base, o) < |slots| && 0 < m
    ensures var k := Nearest(slots, base, o);
      Picks(slots, Cursor(base, o, |slots|), m) ==
      [At(base, k, |slots|)] + Picks(slots, Cursor(base, k + 1, |slots|), m - 1)
  {
    var n := |slots|;
    var k := Nearest(slots, base, o);
    Shift(slots, base, o, 0);
    AtOnward(base, o, k - o, n);
    NextCursor(base, k, n);
    PickOne(slots, At(base, o, n), m, At(base, k, n), Cursor(base, k + 1, n));
  }

  lemma AtOnward(base: nat, o: nat, j: nat, n: nat)
    requires base < n && o + j < n
    ensures At(At(base, o, n), j, n) == At(base, o + j, n)
  {
  }

  /** The first of `m` selections, with the slot picked and the next cursor named. */
  lemma PickOne(slots: seq<DataSlot>, cursor: nat, m: nat, i: nat, next: nat)
    requires cursor < |slots| && 0 < m && Nearest(slots, cursor, 0) < |slots|
    requires i == At(cursor, Nearest(slots, cursor, 0), |slots|) && next == Next(i, |slots|)
    ensures Picks(slots, cursor, m) == [i] + Picks(slots, next, m - 1)
  {
  }

  /** `q` lists the set `all` without repetition. */
  ghost predicate Enumerates(q: seq<nat>, all: set<nat>) {
    NoDup(q) && forall x :: x in q <==> x in all
  }

  lemma EnumerateCons(x: nat, q: seq<nat>, all: set<nat>)
    requires x in all && Enumerates(q, all - {x})
    ensures Enumerates([x] + q, all)
  {
    var r := [x] + q;
    assert forall i :: 1 <= i < |r| ==> r[i] == q[i - 1] && q[i - 1] in q;
    forall y | y in all
      ensures y in r
    {
      assert y == x ==> r[0] == y;
      if y != x {
        assert y in all - {x} && y in q;
        var j :| 0 <= j < |q| && q[j] == y;
        assert r[j + 1] == y;
      }
    }
  }

  /** Selections in a row visit the attached slots further around the table, each once. */
  lemma {:induction false} PicksEnumerate(slots: seq<DataSlot>, base: nat, o: nat, m: nat)
    requires base < |slots| && o <= |slots| && m == |From(slots, base, o)|
    ensures Enumerates(Picks(slots, Cursor(base, o, |slots|), m), From(slots, base, o))
    decreases m
  {
    if m == 0 {
      PicksUnfold(slots, Cursor(base, o, |slots|), 0);
    } else {
      NextIsNearest(slots, base, o);
      var k := Nearest(slots, base, o);
      PicksEnumerate(slots, base, k + 1, m - 1);
      EnumerateStep(slots, base, o, m);
    }
  }

  lemma EnumerateStep(slots: seq<DataSlot>, base: nat, o: nat, m: nat)
    requires base < |slots| && o <= |slots| && 0 < m && Nearest(slots, base, o) < |slots|
    requires var k := Nearest(slots, base, o);
      var x := At(base, k, |slots|);
      && x in From(slots, base, o)
      && Enumerates(Picks(slots, Cursor(base, k + 1, |slots|), m - 1), From(slots, base, o) - {x})
    ensures Enumerates(Picks(slots, Cursor(base, o, |slots|), m), From(slots, base, o))
  {
    var k := Nearest(slots, base, o);
    PickStep(slots, base, o, m);
    EnumerateCons(At(base, k, |slots|), Picks(slots, Cursor(base, k + 1, |slots|), m - 1), From(slots, base, o));
  }

  ghost function AttachedSet(slots: seq<DataSlot>): (r: set<nat>)
    ensures forall i: nat :: i in r <==> i < |slots| && slots[i].state == Attached
    ensures |r| == Count(slots, Attached)
  {
    if slots == [] then {}
    else
      var last := |slots| - 1;
      AttachedSet(slots[..last]) + if slots[last].state == Attached then {last} else {}
  }

  /** As many selections in a row as there are attached slots pick each of them exactly once. */
  lemma PicksAreFair(slots: seq<DataSlot>, cursor: nat)
    requires cursor < |slots|
    ensures var p := Picks(slots, cursor, Count(slots, Attached));
      NoDup(p) && forall i: nat :: i in p <==> i < |slots| && slots[i].state == Attached
  {
    assert From(slots, cursor, 0) == AttachedSet(slots);
    PicksEnumerate(slots, cursor, 0, Count(slots, Attached));
  }

  lemma PicksUnfold(slots: seq<DataSlot>, cursor: nat, m: nat)
    requires cursor < |slots|
    ensures m == 0 ==> Picks(slots, cursor, m) == []
    ensures var o := Nearest(slots, cursor, 0);
      0 < m && o < |slots| ==>
        var i := At(cursor, o, |slots|);
        Picks(slots, cursor, m) == [i] + Picks(slots, Next(i, |slots|), m - 1)
  {
  }

  /** Operations that leave membership alone. */
  predicate KeepsMembers(op: Op) {
    op.OpSelect? || op.OpPrepare? || op.OpBind? || op.OpStreamData? || op.OpUnbind?
  }

  /** The slots picked by the successful selections among `ops`. */
  function Picked(g: Group, ops: seq<Op>): seq<nat>
    decreases |ops|
  {
    if ops == [] then [] else
      var r := Do(g, ops[0]);
      if (ops[0].OpSelect? || ops[0].OpPrepare?) && r.status == Ok then [r.data.index] + Picked(r.group, ops[1..])
      else Picked(r.group, ops[1..])
  }

  /** A selection picks the next attached slot and moves the cursor past it; nothing else moves it. */
  lemma MemberStep(g: Group, op: Op)
    requires g.cursor < |g.slots| <= MAX_TABLE && KeepsMembers(op)
    ensures var r := Do(g, op);
      && r.group.slots == g.slots
      && (if (op.OpSelect? || op.OpPrepare?) && r.status == Ok then
            var o := Nearest(g.slots, g.cursor, 0);
            && o < |g.slots| && r.data.index == At(g.cursor, o, |g.slots|)
            && r.group.cursor == Next(r.data.index, |g.slots|)
          else r.group.cursor == g.cursor)
  {
    ScanIsNearest(g.slots, g.cursor, 0);
  }

  /** A selection in front of selections. */
  lemma PickFirst(slots: seq<DataSlot>, cursor: nat, rest: seq<nat>)
    requires cursor < |slots| && Nearest(slots, cursor, 0) < |slots|
    requires var i := At(cursor, Nearest(slots, cursor, 0), |slots|); rest == Picks(slots, Next(i, |slots|), |rest|)
    ensures var i := At(cursor, Nearest(slots, cursor, 0), |slots|);
      [i] + rest == Picks(slots, cursor, |[i] + rest|)
  {
    PicksUnfold(slots, cursor, |rest| + 1);
  }

  lemma {:induction false} PickedIsPicks(g: Group, ops: seq<Op>)
    requires g.cursor < |g.slots| <= MAX_TABLE && forall i :: 0 <= i < |ops| ==> KeepsMembers(ops[i])
    ensures Picked(g, ops) == Picks(g.slots, g.cursor, |Picked(g, ops)|)
    decreases |ops|
  {
    if ops != [] {
      var r := Do(g, ops[0]);
      var rest := Picked(r.group, ops[1..]);
      MemberStep(g, ops[0]);
      PickedIsPicks(r.group, ops[1..]);
      if (ops[0].OpSelect? || ops[0].OpPrepare?) && r.status == Ok {
        PickFirst(g.slots, g.cursor, rest);
      }
    }
  }

  /** With unchanged membership, any run in which as many selections succeed as there are members picks every
      member exactly once, however select_data and prepare_transfer are mixed. */
  lemma RoundRobinIsFair(g: Group, ops: seq<Op>)
    requires g.cursor < |g.slots| <= MAX_TABLE && forall i :: 0 <= i < |ops| ==> KeepsMembers(ops[i])
    requires |Picked(g, ops)| == Count(g.slots, Attached)
    ensures var p := Picked(g, ops);
      NoDup(p) && forall i: nat :: i in p <==> i < |g.slots| && g.slots[i].state == Attached
  {
    PickedIsPicks(g, ops);
    PicksAreFair(g.slots, g.cursor);
  }

  // Teardown.

  /** The attached slots among the first `n`, in table order: tr_pipeline_attached_data_snapshot. */
  function Snapshot(slots: seq<DataSlot>, n: nat): (refs: seq<DataRef>)
    requires n <= |slots|
  {
    if n == 0 then []
    else Snapshot(slots, n - 1) +
         if slots[n - 1].state == Attached then [DataRef(n - 1, slots[n - 1].generation)] else []
  }

  /** Removing the references one by one, in order. */
  function RemoveAll(g: Group, refs: seq<DataRef>): Group
    decreases |refs|
  {
    if refs == [] then g else RemoveAll(Remove(g, refs[0]).group, refs[1..])
  }

  /** `refs` are current references to distinct attached slots, and to all of them. */
  predicate Covers(g: Group, refs: seq<DataRef>) {
    && (forall i :: 0 <= i < |refs| ==> Matches(g, refs[i], Attached))
    && (forall i, j :: 0 <= i < j < |refs| ==> refs[i].index != refs[j].index)
    && (forall s :: 0 <= s < |g.slots| && g.slots[s].state == Attached ==> DataRef(s, g.slots[s].generation) in refs)
  }

  lemma {:induction false} SnapshotIs(slots: seq<DataSlot>, n: nat)
    requires n <= |slots|
    ensures var refs := Snapshot(slots, n);
      && |refs| <= n
      && (forall i :: 0 <= i < |refs| ==>
            refs[i].index < n && slots[refs[i].index].state == Attached && slots[refs[i].index].generation == refs[i].generation)
      && (forall i, j :: 0 <= i < j < |refs| ==> refs[i].index < refs[j].index)
      && (forall s :: 0 <= s < n && slots[s].state == Attached ==> DataRef(s, slots[s].generation) in refs)
  {
    if n != 0 {
      SnapshotIs(slots, n - 1);
      var before, refs := Snapshot(slots, n - 1), Snapshot(slots, n);
      if slots[n - 1].state == Attached {
        assert refs[|before|] == DataRef(n - 1, slots[n - 1].generation);
        assert forall i :: 0 <= i < |before| ==> refs[i] == before[i];
      } else {
        assert refs == before;
      }
    }
  }

  lemma {:induction false} SnapshotLength(slots: seq<DataSlot>, n: nat)
    requires n <= |slots|
    ensures |Snapshot(slots, n)| == Count(slots[..n], Attached)
  {
    if n != 0 {
      SnapshotLength(slots, n - 1);
      assert slots[..n][..n - 1] == slots[..n - 1];
    }
  }

  lemma SnapshotCovers(g: Group)
    requires Inv(g)
    ensures Covers(g, Snapshot(g.slots, |g.slots|))
  {
    SnapshotIs(g.slots, |g.slots|);
  }

  /** Removing one of the covered slots succeeds and leaves the others covered. */
  lemma RemoveOne(g: Group, refs: seq<DataRef>)
    requires Covers(g, refs) && refs != []
    ensures Remove(g, refs[0]).status == Ok && Covers(Remove(g, refs[0]).group, refs[1..])
  {
    var h := Remove(g, refs[0]).group;
    var rest := refs[1..];
    assert forall i :: 0 <= i < |rest| ==> rest[i] == refs[i + 1] && refs[0].index != refs[i + 1].index;
    forall s | 0 <= s < |h.slots| && h.slots[s].state == Attached
      ensures DataRef(s, h.slots[s].generation) in rest
    {
      var j :| 0 <= j < |refs| && refs[j] == DataRef(s, g.slots[s].generation);
      assert rest[j - 1] == refs[j];
    }
  }

  /** Every removal of the teardown succeeds. */
  lemma {:induction false} RemovalsSucceed(g: Group, refs: seq<DataRef>, k: nat)
    requires Inv(g) && Covers(g, refs) && k < |refs|
    ensures Remove(RemoveAll(g, refs[..k]), refs[k]).status == Ok
    decreases k
  {
    RemoveOne(g, refs);
    if k != 0 {
      RemoveKeepsInv(g, refs[0]);
      RemovalsSucceed(Remove(g, refs[0]).group, refs[1..], k - 1);
      assert refs[..k][1..] == refs[1..][..k - 1];
    }
  }

  lemma {:induction false} RemoveAllEmpties(g: Group, refs: seq<DataRef>)
    requires Inv(g) && Covers(g, refs)
    ensures var h := RemoveAll(g, refs);
      && Inv(h) && h.control == g.control && h.streams == map[]
      && forall s :: 0 <= s < |h.slots| ==> h.slots[s].state != Attached
    decreases |refs|
  {
    if refs != [] {
      RemoveOne(g, refs);
      RemoveKeepsInv(g, refs[0]);
      RemoveAllEmpties(Remove(g, refs[0]).group, refs[1..]);
    } else {
      NoAttachedNoStreams(g);
    }
  }

  lemma NoAttachedNoStreams(g: Group)
    requires Inv(g) && forall s :: 0 <= s < |g.slots| ==> g.slots[s].state != Attached
    ensures g.streams == map[]
  {
    assert forall k :: k in g.streams ==> Matches(g, g.streams[k], Attached);
  }

  /** What tr_pipeline_destroy asserts. */
  predicate Destroyable(g: Group) {
    g.control.None? && Count(g.slots, Reserved) == 0 && Count(g.slots, Attached) == 0 && |g.streams| == 0
  }

  /** tr_pipeline_control_abort: with the bound control connection, after any run, every removal succeeds, the
      control connection is cleared, and the group may be destroyed. */
  lemma AbortCompletes(owner: nat, dataCapacity: nat, streamCapacity: nat, ops: seq<Op>, c: Conn)
    requires 0 < dataCapacity < WORD
    requires Run(Init(owner, dataCapacity, streamCapacity), ops).control == Some(c)
    ensures var g := Run(Init(owner, dataCapacity, streamCapacity), ops);
      var refs := Snapshot(g.slots, |g.slots|);
      var h := RemoveAll(g, refs);
      && (forall k :: 0 <= k < |refs| ==> Remove(RemoveAll(g, refs[..k]), refs[k]).status == Ok)
      && Count(h.slots, Attached) == 0 && |h.streams| == 0
      && ClearControl(h, c).status == Ok && Destroyable(ClearControl(h, c).group)
  {
    var g := Run(Init(owner, dataCapacity, streamCapacity), ops);
    InitInv(owner, dataCapacity, streamCapacity);
    RunKeepsInv(Init(owner, dataCapacity, streamCapacity), ops);
    SnapshotCovers(g);
    var refs := Snapshot(g.slots, |g.slots|);
    forall k | 0 <= k < |refs|
      ensures Remove(RemoveAll(g, refs[..k]), refs[k]).status == Ok
    {
      RemovalsSucceed(g, refs, k);
    }
    RemoveAllEmpties(g, refs);
    ClearedIsDestroyable(RemoveAll(g, refs), c);
  }

  lemma ClearedIsDestroyable(h: Group, c: Conn)
    requires h.control == Some(c) && h.streams == map[]
    requires forall s :: 0 <= s < |h.slots| ==> h.slots[s].state != Attached
    ensures Count(h.slots, Attached) == 0
    ensures ClearControl(h, c).status == Ok && Destroyable(ClearControl(h, c).group)
  {
    var d := ClearControl(h, c).group;
    NoneMeansZero(h.slots, Attached);
    NoneMeansZero(d.slots, Attached);
    NoneMeansZero(d.slots, Reserved);
  }
}
