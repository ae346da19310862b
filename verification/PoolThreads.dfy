/** A buffer pool used by any number of threads (buffer.c). Each locked section, each reservation on the budget and each
    repayment is one step. An acquire takes its buffer under the lock, then drops the lock to reserve and enlarge;
    meanwhile other threads acquire, release and destroy, and other users of the budget reserve and return. */
module PoolThreads {
  import opened Sets
  import opened Status
  import opened BufferPool

  /** Where a thread stands in tr_buffer_acquire with the buffer it took: before its reservation, between reservation
      and store, or before it puts the buffer back. */
  datatype Stage =
    | Idle
    | Wanting(index: nat, min: nat)
    | Granted(index: nat, min: nat, growth: nat)
    | Failing(index: nat)

  /** `others` is what other users of the budget hold. `owed` is what a successful destroy has still to repay. */
  datatype System = System(pool: Pool, budget: Option<Account>, others: nat, owed: seq<nat>, threads: seq<Stage>)

  datatype Op =
    | OpTake(thread: nat, min: nat)
    | OpReserve(thread: nat)
    | OpStore(thread: nat)
    | OpRefund(thread: nat)
    | OpPutBack(thread: nat)
    | OpRelease(index: nat)
    | OpDestroy
    | OpRepay
    | OpOthersReserve(bytes: nat)
    | OpOthersReturn(bytes: nat)

  function SetThread(s: System, t: nat, st: Stage): System {
    if t < |s.threads| then s.(threads := s.threads[t := st]) else s
  }

  /** The locked section of an acquire. A buffer that is large enough is returned at once. */
  function DoTake(s: System, t: nat, min: nat): System {
    if t >= |s.threads| || !s.threads[t].Idle? || Refusal(s.pool, min) != Ok then s else
      var i := s.pool.free[0];
      SetThread(s.(pool := TakeHead(s.pool)), t, if MustGrow(s.pool, i, min) then Wanting(i, min) else Idle)
  }

  function DoReserve(s: System, t: nat): System {
    if t >= |s.threads| || !s.threads[t].Wanting? then s else
      var st := s.threads[t];
      if st.index >= |s.pool.capacity| || s.pool.capacity[st.index] > st.min then s else
        var growth := st.min - s.pool.capacity[st.index];
        var g := Reserve(s.budget, growth);
        SetThread(s.(budget := g.budget), t, if g.status == Ok then Granted(st.index, st.min, growth) else Failing(st.index))
  }

  /** The storage was enlarged: the acquire returns its buffer. */
  function DoStore(s: System, t: nat): System {
    if t >= |s.threads| || !s.threads[t].Granted? || s.threads[t].index >= |s.pool.capacity| then s else
      var st := s.threads[t];
      SetThread(s.(pool := s.pool.(capacity := s.pool.capacity[st.index := st.min])), t, Idle)
  }

  /** The storage could not be enlarged. */
  function DoRefund(s: System, t: nat): System {
    if t >= |s.threads| || !s.threads[t].Granted? then s else
      SetThread(s.(budget := Return(s.budget, s.threads[t].growth)), t, Failing(s.threads[t].index))
  }

  function DoPutBack(s: System, t: nat): System {
    if t >= |s.threads| || !s.threads[t].Failing? then s else
      SetThread(s.(pool := PutBack(s.pool, s.threads[t].index)), t, Idle)
  }

  /** What a destroyed pool has to repay, in order. */
  function Dues(p: Pool): seq<nat> {
    (if p.dynamic then p.capacity else [|p.capacity| * p.size]) + [|p.capacity| * p.desc]
  }

  predicate Busy(p: Pool) {
    |p.free| != |p.capacity| || !NoneSet(p.out)
  }

  /** The locked section of tr_buffer_pool_destroy. */
  function DoDestroy(s: System): System {
    if !s.pool.live then s
    else if Busy(s.pool) then s.(pool := s.pool.(closed := true))
    else s.(pool := NO_POOL.(closed := true), owed := s.owed + Dues(s.pool))
  }

  function DestroyStatus(s: System): Status {
    if s.pool.live && Busy(s.pool) then State else Ok
  }

  function DoRepay(s: System): System {
    if s.owed == [] then s else s.(budget := Return(s.budget, s.owed[0]), owed := s.owed[1..])
  }

  function DoOthersReserve(s: System, bytes: nat): System {
    var g := Reserve(s.budget, bytes);
    if s.budget.None? || g.status != Ok then s else s.(budget := g.budget, others := s.others + bytes)
  }

  function DoOthersReturn(s: System, bytes: nat): System {
    if s.budget.None? || bytes > s.others then s else s.(budget := Return(s.budget, bytes), others := s.others - bytes)
  }

  function Step(s: System, op: Op): System {
    match op
    case OpTake(t, min) => DoTake(s, t, min)
    case OpReserve(t) => DoReserve(s, t)
    case OpStore(t) => DoStore(s, t)
    case OpRefund(t) => DoRefund(s, t)
    case OpPutBack(t) => DoPutBack(s, t)
    case OpRelease(i) => s.(pool := PutBack(s.pool, i))
    case OpDestroy => DoDestroy(s)
    case OpRepay => DoRepay(s)
    case OpOthersReserve(bytes) => DoOthersReserve(s, bytes)
    case OpOthersReturn(bytes) => DoOthersReturn(s, bytes)
  }

  function Run(s: System, ops: seq<Op>): System
    decreases |ops|
  {
    if ops == [] then s else Run(Step(s, ops[0]), ops[1..])
  }

  // What every step keeps.

  /** Some acquire has taken buffer `i` and not returned yet. */
  predicate InFlight(s: System, i: nat) {
    exists t :: 0 <= t < |s.threads| && !s.threads[t].Idle? && s.threads[t].index == i
  }

  /** What callers owe the pool: a buffer is released by whoever was handed it, so not while an acquire of it is
      under way. Releasing a buffer that is back already is allowed. */
  predicate Lawful(s: System, op: Op) {
    op.OpRelease? ==> !InFlight(s, op.index)
  }

  predicate LawfulRun(s: System, ops: seq<Op>)
    decreases |ops|
  {
    ops == [] || (Lawful(s, ops[0]) && LawfulRun(Step(s, ops[0]), ops[1..]))
  }

  function GrowthOf(st: Stage): nat {
    if st.Granted? then st.growth else 0
  }

  /** The bytes reserved by acquires that have not stored them yet. */
  function InGrowth(threads: seq<Stage>): nat {
    if threads == [] then 0 else InGrowth(threads[..|threads| - 1]) + GrowthOf(threads[|threads| - 1])
  }

  predicate StageOk(p: Pool, st: Stage) {
    match st
    case Idle => true
    case Wanting(i, min) => i < |p.out| == |p.capacity| && p.out[i] && p.dynamic && p.capacity[i] < min <= p.size
    case Granted(i, min, growth) =>
      i < |p.out| == |p.capacity| && p.out[i] && p.dynamic && p.capacity[i] + growth == min <= p.size && 0 < growth
    case Failing(i) => i < |p.out| && p.out[i]
  }

  /** Buffers in flight are checked out, and no two acquires have the same one. */
  predicate Held(p: Pool, threads: seq<Stage>) {
    && (forall t :: 0 <= t < |threads| ==> StageOk(p, threads[t]))
    && (forall t, u :: 0 <= t < u < |threads| && !threads[t].Idle? && !threads[u].Idle? ==> threads[t].index != threads[u].index)
  }

  /** Every byte of the budget is accounted for. */
  predicate Accounted(s: System) {
    s.budget.Some? ==> s.budget.value.current == s.others + Charge(s.pool) + InGrowth(s.threads) + Total(s.owed)
  }

  /** `n` descriptors, of which those on the free list are as many as those not out. */
  predicate Counted(p: Pool, n: nat) {
    p.live ==> |p.out| == n && |p.free| + OutCount(p.out) == n
  }

  predicate Inv(s: System, n: nat) {
    Listed(s.pool) && Sized(s.pool) && Counted(s.pool, n) && Held(s.pool, s.threads) && Accounted(s)
  }

  lemma {:induction false} GrowthUpdate(threads: seq<Stage>, t: nat, st: Stage)
    requires t < |threads|
    ensures InGrowth(threads[t := st]) == InGrowth(threads) - GrowthOf(threads[t]) + GrowthOf(st)
    ensures GrowthOf(threads[t]) <= InGrowth(threads)
  {
    var u, last := threads[t := st], |threads| - 1;
    if t == last {
      assert u[..last] == threads[..last];
    } else {
      GrowthUpdate(threads[..last], t, st);
      assert u[..last] == threads[..last][t := st];
    }
  }

  // The pool side of each step.

  lemma TakeCounts(p: Pool, n: nat)
    requires Listed(p) && Counted(p, n) && p.free != []
    ensures Counted(TakeHead(p), n)
  {
    OutCountUpdate(p.out, p.free[0], true);
  }

  lemma PutBackCounts(p: Pool, i: nat, n: nat)
    requires Counted(p, n)
    ensures Counted(PutBack(p, i), n)
  {
    if i < |p.out| {
      OutCountUpdate(p.out, i, false);
    }
  }

  /** A buffer just taken was in nobody's hands. */
  lemma TakeHolds(p: Pool, threads: seq<Stage>, t: nat, st: Stage)
    requires Listed(p) && p.free != [] && Held(p, threads) && t < |threads|
    requires st.Idle? || (StageOk(TakeHead(p), st) && st.index == p.free[0])
    ensures Held(TakeHead(p), threads[t := st])
  {
    var q := TakeHead(p);
    forall u | 0 <= u < |threads| && u != t
      ensures StageOk(q, threads[u]) && (!threads[u].Idle? ==> threads[u].index != p.free[0])
    {
      assert StageOk(p, threads[u]);
    }
  }

  /** A thread that moves on with the buffer it has, or lets go of it. */
  lemma MoveHolds(p: Pool, threads: seq<Stage>, t: nat, st: Stage)
    requires Held(p, threads) && t < |threads| && StageOk(p, st)
    requires st.Idle? || (!threads[t].Idle? && st.index == threads[t].index)
    ensures Held(p, threads[t := st])
  {
  }

  predicate NobodyHas(threads: seq<Stage>, i: nat) {
    forall t :: 0 <= t < |threads| && !threads[t].Idle? ==> threads[t].index != i
  }

  lemma PutBackHolds(p: Pool, threads: seq<Stage>, i: nat)
    requires Held(p, threads) && NobodyHas(threads, i)
    ensures Held(PutBack(p, i), threads)
  {
    forall t | 0 <= t < |threads|
      ensures StageOk(PutBack(p, i), threads[t])
    {
      assert StageOk(p, threads[t]);
    }
  }

  lemma StoreHolds(p: Pool, threads: seq<Stage>, i: nat, c: nat)
    requires Held(p, threads) && NobodyHas(threads, i) && i < |p.capacity|
    ensures Held(p.(capacity := p.capacity[i := c]), threads)
  {
    forall t | 0 <= t < |threads|
      ensures StageOk(p.(capacity := p.capacity[i := c]), threads[t])
    {
      assert StageOk(p, threads[t]);
    }
  }

  /** Once it lets go, nobody has what a thread had. */
  lemma LetsGo(p: Pool, threads: seq<Stage>, t: nat)
    requires Held(p, threads) && t < |threads| && !threads[t].Idle?
    ensures Held(p, threads[t := Idle]) && NobodyHas(threads[t := Idle], threads[t].index)
  {
    MoveHolds(p, threads, t, Idle);
  }

  // Each step.

  lemma TakeKeepsInv(s: System, t: nat, min: nat, n: nat)
    requires Inv(s, n)
    ensures Inv(DoTake(s, t, min), n)
  {
    if t < |s.threads| && s.threads[t].Idle? && Refusal(s.pool, min) == Ok {
      var i := s.pool.free[0];
      var st := if MustGrow(s.pool, i, min) then Wanting(i, min) else Idle;
      TakeKeeps(s.pool);
      TakeCounts(s.pool, n);
      TakeHolds(s.pool, s.threads, t, st);
      GrowthUpdate(s.threads, t, st);
    }
  }

  lemma ReserveKeepsInv(s: System, t: nat, n: nat)
    requires Inv(s, n)
    ensures Inv(DoReserve(s, t), n)
  {
    if t < |s.threads| && s.threads[t].Wanting? {
      var st := s.threads[t];
      assert StageOk(s.pool, st);
      var growth := st.min - s.pool.capacity[st.index];
      ReserveReturns(s.budget, growth);
      var next := DoReserve(s, t).threads[t];
      MoveHolds(s.pool, s.threads, t, next);
      GrowthUpdate(s.threads, t, next);
    }
  }

  lemma StoreKeepsInv(s: System, t: nat, n: nat)
    requires Inv(s, n)
    ensures Inv(DoStore(s, t), n)
  {
    if t < |s.threads| && s.threads[t].Granted? {
      var st := s.threads[t];
      assert StageOk(s.pool, st);
      TotalUpdate(s.pool.capacity, st.index, st.min);
      LetsGo(s.pool, s.threads, t);
      StoreHolds(s.pool, s.threads[t := Idle], st.index, st.min);
      GrowthUpdate(s.threads, t, Idle);
    }
  }

  lemma RefundKeepsInv(s: System, t: nat, n: nat)
    requires Inv(s, n)
    ensures Inv(DoRefund(s, t), n)
  {
    if t < |s.threads| && s.threads[t].Granted? {
      var st := s.threads[t];
      assert StageOk(s.pool, st);
      MoveHolds(s.pool, s.threads, t, Failing(st.index));
      GrowthUpdate(s.threads, t, Failing(st.index));
    }
  }

  lemma PutBackKeepsInv(s: System, t: nat, n: nat)
    requires Inv(s, n)
    ensures Inv(DoPutBack(s, t), n)
  {
    if t < |s.threads| && s.threads[t].Failing? {
      var i := s.threads[t].index;
      PutBackKeeps(s.pool, i);
      PutBackCounts(s.pool, i, n);
      LetsGo(s.pool, s.threads, t);
      PutBackHolds(s.pool, s.threads[t := Idle], i);
      GrowthUpdate(s.threads, t, Idle);
    }
  }

  /** A release keeps the invariant exactly when the buffer is in no acquire's hands. */
  lemma ReleaseKeepsInv(s: System, i: nat, n: nat)
    requires Inv(s, n)
    ensures Inv(Step(s, OpRelease(i)), n) <==> Lawful(s, OpRelease(i))
  {
    if InFlight(s, i) {
      var t :| 0 <= t < |s.threads| && !s.threads[t].Idle? && s.threads[t].index == i;
      assert StageOk(s.pool, s.threads[t]);
      assert !StageOk(PutBack(s.pool, i), s.threads[t]);
    } else {
      PutBackKeeps(s.pool, i);
      PutBackCounts(s.pool, i, n);
      PutBackHolds(s.pool, s.threads, i);
    }
  }

  lemma {:induction false} TotalAppend(a: seq<nat>, b: seq<nat>)
    ensures Total(a + b) == Total(a) + Total(b)
  {
    if b == [] {
      assert a + b == a;
    } else {
      TotalAppend(a, b[..|b| - 1]);
      assert (a + b)[..|a + b| - 1] == a + b[..|b| - 1];
    }
  }

  lemma TotalOne(x: nat)
    ensures Total([x]) == x
  {
    assert [x][..0] == [];
  }

  /** What is due is exactly the charge. */
  lemma DuesAreTheCharge(p: Pool)
    requires Sized(p) && p.live
    ensures Total(Dues(p)) == Charge(p)
  {
    var storage := if p.dynamic then p.capacity else [|p.capacity| * p.size];
    TotalAppend(storage, [|p.capacity| * p.desc]);
    TotalOne(|p.capacity| * p.desc);
    if !p.dynamic {
      TotalOne(|p.capacity| * p.size);
      TotalOfEqual(p.capacity, p.size);
    }
  }

  lemma NoneOutNoneHeld(p: Pool, threads: seq<Stage>)
    requires Held(p, threads) && NoneSet(p.out)
    ensures forall t :: 0 <= t < |threads| ==> threads[t] == Idle
  {
    forall t | 0 <= t < |threads|
      ensures threads[t] == Idle
    {
      assert StageOk(p, threads[t]);
    }
  }

  lemma DestroyKeepsInv(s: System, n: nat)
    requires Inv(s, n)
    ensures Inv(DoDestroy(s), n)
  {
    if s.pool.live {
      if Busy(s.pool) {
        forall t | 0 <= t < |s.threads|
          ensures StageOk(s.pool.(closed := true), s.threads[t])
        {
          assert StageOk(s.pool, s.threads[t]);
        }
      } else {
        NoneOutNoneHeld(s.pool, s.threads);
        DuesAreTheCharge(s.pool);
        TotalAppend(s.owed, Dues(s.pool));
      }
    }
  }

  lemma RepayKeepsInv(s: System, n: nat)
    requires Inv(s, n)
    ensures Inv(DoRepay(s), n)
  {
    if s.owed != [] {
      assert s.owed == [s.owed[0]] + s.owed[1..];
      TotalAppend([s.owed[0]], s.owed[1..]);
      TotalOne(s.owed[0]);
    }
  }

  lemma OthersKeepInv(s: System, bytes: nat, n: nat)
    requires Inv(s, n)
    ensures Inv(DoOthersReserve(s, bytes), n) && Inv(DoOthersReturn(s, bytes), n)
  {
    ReserveReturns(s.budget, bytes);
  }

  lemma StepKeepsInv(s: System, op: Op, n: nat)
    requires Inv(s, n) && Lawful(s, op)
    ensures Inv(Step(s, op), n)
  {
    match op
    case OpTake(t, min) => TakeKeepsInv(s, t, min, n);
    case OpReserve(t) => ReserveKeepsInv(s, t, n);
    case OpStore(t) => StoreKeepsInv(s, t, n);
    case OpRefund(t) => RefundKeepsInv(s, t, n);
    case OpPutBack(t) => PutBackKeepsInv(s, t, n);
    case OpRelease(i) => ReleaseKeepsInv(s, i, n);
    case OpDestroy => DestroyKeepsInv(s, n);
    case OpRepay => RepayKeepsInv(s, n);
    case OpOthersReserve(bytes) => OthersKeepInv(s, bytes, n);
    case OpOthersReturn(bytes) => OthersKeepInv(s, bytes, n);
  }

  lemma {:induction false} RunKeepsInv(s: System, ops: seq<Op>, n: nat)
    requires Inv(s, n) && LawfulRun(s, ops)
    ensures Inv(Run(s, ops), n)
    decreases |ops|
  {
    if ops != [] {
      StepKeepsInv(s, ops[0], n);
      RunKeepsInv(Step(s, ops[0]), ops[1..], n);
    }
  }

  // Over every interleaving.

  /** The system after a successful initialisation, with `k` threads about to use the pool. */
  function Start(w: World, desc: nat, count: nat, size: nat, dynamic: bool, k: nat): System {
    var r := Initialise(w, desc, count, size, dynamic, Ok).world;
    System(r.pool, r.budget, if w.budget.Some? then w.budget.value.current else 0, [], seq(k, _ => Idle))
  }

  lemma {:induction false} NoGrowth(threads: seq<Stage>)
    requires forall t :: 0 <= t < |threads| ==> threads[t] == Idle
    ensures InGrowth(threads) == 0
  {
    if threads != [] {
      NoGrowth(threads[..|threads| - 1]);
    }
  }

  lemma StartInv(w: World, desc: nat, count: nat, size: nat, dynamic: bool, k: nat)
    requires Vacant(w.pool) && Initialise(w, desc, count, size, dynamic, Ok).status == Ok
    ensures Inv(Start(w, desc, count, size, dynamic, k), count)
  {
    var s := Start(w, desc, count, size, dynamic, k);
    InitIsAllOrNothing(w, desc, count, size, dynamic, Ok);
    NoGrowth(s.threads);
    NoneOut(s.pool.out);
    AllFree(s.pool);
  }

  /** What a destroy finds and does. */
  lemma DestroyIs(s: System, n: nat)
    requires Inv(s, n)
    ensures var d := DoDestroy(s);
      && (DestroyStatus(s) == Ok <==> NoneSet(s.pool.out))
      && (DestroyStatus(s) == Ok ==>
            && Vacant(d.pool) && (forall t :: 0 <= t < |s.threads| ==> s.threads[t] == Idle)
            && (s.budget.Some? ==> d.budget.value.current == s.others + Total(d.owed)))
      && (DestroyStatus(s) != Ok ==> d == s.(pool := s.pool.(closed := true)))
  {
    if NoneSet(s.pool.out) {
      AllFree(s.pool);
      NoneOutNoneHeld(s.pool, s.threads);
      NoGrowth(s.threads);
    }
    DestroyKeepsInv(s, n);
  }

  /** In every interleaving in which callers release only what they were handed: the budget is what others hold plus
      descriptors and storage plus the growth in flight plus what a destroy has still to repay; buffers in flight are
      checked out and distinct; as many are free as are not out. Destroying succeeds if and only if no
      buffer is checked out; then no acquire is under way, and once all is repaid the budget is what others
      hold. Otherwise it only closes admission. */
  lemma PoolIsConserved(w: World, desc: nat, count: nat, size: nat, dynamic: bool, k: nat, ops: seq<Op>)
    requires Vacant(w.pool) && Initialise(w, desc, count, size, dynamic, Ok).status == Ok
    requires LawfulRun(Start(w, desc, count, size, dynamic, k), ops)
    ensures var s := Run(Start(w, desc, count, size, dynamic, k), ops);
      var d := DoDestroy(s);
      && Accounted(s) && Held(s.pool, s.threads) && Counted(s.pool, count)
      && (DestroyStatus(s) == Ok <==> NoneSet(s.pool.out))
      && (DestroyStatus(s) == Ok ==>
            && Vacant(d.pool) && (forall t :: 0 <= t < |s.threads| ==> s.threads[t] == Idle)
            && (s.budget.Some? ==> d.budget.value.current == s.others + Total(d.owed)))
      && (DestroyStatus(s) != Ok ==> d == s.(pool := s.pool.(closed := true)))
  {
    StartInv(w, desc, count, size, dynamic, k);
    RunKeepsInv(Start(w, desc, count, size, dynamic, k), ops, count);
    DestroyIs(Run(Start(w, desc, count, size, dynamic, k), ops), count);
  }

  /** While a growth is granted and not stored, the budget holds more than others, descriptors and storage. */
  lemma GrowthIsVisible(s: System, n: nat, t: nat)
    requires Inv(s, n) && s.budget.Some? && t < |s.threads| && s.threads[t].Granted?
    ensures s.budget.value.current > s.others + Charge(s.pool)
  {
    GrowthUpdate(s.threads, t, Idle);
    assert StageOk(s.pool, s.threads[t]);
  }

  // After closing.

  /** No buffer is out that was not, and no acquire is under way that was not. */
  predicate Drains(s: System, u: System) {
    && (u.pool.out == [] || |u.pool.out| == |s.pool.out|) && |u.threads| == |s.threads|
    && (forall i :: 0 <= i < |u.pool.out| && u.pool.out[i] ==> s.pool.out[i])
    && (forall t :: 0 <= t < |s.threads| && s.threads[t].Idle? ==> u.threads[t].Idle?)
  }

  lemma ClosedStep(s: System, op: Op)
    requires s.pool.closed
    ensures Step(s, op).pool.closed && Drains(s, Step(s, op))
  {
  }

  lemma {:induction false} ClosedOnlyDrains(s: System, ops: seq<Op>)
    requires s.pool.closed
    ensures Run(s, ops).pool.closed && Drains(s, Run(s, ops))
    decreases |ops|
  {
    if ops != [] {
      ClosedStep(s, ops[0]);
      ClosedOnlyDrains(Step(s, ops[0]), ops[1..]);
    }
  }

  /** After a failed destroy, in every interleaving: admission stays closed, so only an acquire that had taken its
      buffer before can still return one; nothing is checked out anew; and destroy succeeds if and only if every
      buffer is back, with nothing in flight and the whole charge due. */
  lemma FailedDestroyCanBeRetried(s: System, n: nat, ops: seq<Op>)
    requires Inv(s, n) && DestroyStatus(s) != Ok && LawfulRun(DoDestroy(s), ops)
    ensures var u := Run(DoDestroy(s), ops);
      && Inv(u, n) && u.pool.closed && Drains(s, u)
      && (DestroyStatus(u) == Ok <==> NoneSet(u.pool.out))
      && (DestroyStatus(u) == Ok ==> forall t :: 0 <= t < |u.threads| ==> u.threads[t] == Idle)
      && (DestroyStatus(u) == Ok && u.budget.Some? ==>
            DoDestroy(u).budget.value.current == u.others + Total(DoDestroy(u).owed))
  {
    DestroyKeepsInv(s, n);
    RunKeepsInv(DoDestroy(s), ops, n);
    ClosedOnlyDrains(DoDestroy(s), ops);
    DestroyIs(Run(DoDestroy(s), ops), n);
  }

  // One acquire with nothing in between.

  /** The steps of one acquire by thread `t`. A section that has nothing to do changes nothing. */
  function AcquireSteps(t: nat, min: nat, grown: bool): seq<Op> {
    [OpTake(t, min), OpReserve(t), if grown then OpStore(t) else OpRefund(t), OpPutBack(t)]
  }

  lemma RunCons(s: System, op: Op, ops: seq<Op>)
    ensures Run(s, [op] + ops) == Run(Step(s, op), ops)
  {
    assert ([op] + ops)[1..] == ops;
  }

  lemma RunFour(s: System, a: Op, b: Op, c: Op, d: Op)
    ensures Run(s, [a, b, c, d]) == Step(Step(Step(Step(s, a), b), c), d)
  {
    RunCons(s, a, [b, c, d]);
    RunCons(Step(s, a), b, [c, d]);
    RunCons(Step(Step(s, a), b), c, [d]);
    RunCons(Step(Step(Step(s, a), b), c), d, []);
    assert [a, b, c, d] == [a] + [b, c, d] && [b, c, d] == [b] + [c, d] && [c, d] == [c] + [d] && [d] == [d] + [];
  }

  /** An idle thread has nothing to reserve, store, refund or put back. */
  lemma IdleDoesNothing(s: System, t: nat)
    requires t < |s.threads| && s.threads[t].Idle?
    ensures DoReserve(s, t) == s && DoStore(s, t) == s && DoRefund(s, t) == s && DoPutBack(s, t) == s
  {
  }

  lemma TakeIs(s: System, t: nat, min: nat)
    requires t < |s.threads| && s.threads[t].Idle? && Refusal(s.pool, min) == Ok
    ensures var i := s.pool.free[0];
      DoTake(s, t, min) == s.(pool := TakeHead(s.pool), threads := s.threads[t := if MustGrow(s.pool, i, min) then Wanting(i, min) else Idle])
  {
  }

  /** The sections after the take, for a buffer that must grow. */
  lemma GrowIsItsSteps(s: System, t: nat, i: nat, min: nat, grown: bool)
    requires t < |s.threads| && s.threads[t] == Wanting(i, min) && i < |s.pool.capacity| && s.pool.capacity[i] < min
    ensures var growth := min - s.pool.capacity[i];
      var g := Reserve(s.budget, growth);
      var b := DoReserve(s, t);
      DoPutBack(if grown then DoStore(b, t) else DoRefund(b, t), t) ==
      if g.status != Ok then s.(pool := PutBack(s.pool, i), budget := g.budget, threads := s.threads[t := Idle])
      else if !grown then s.(pool := PutBack(s.pool, i), budget := Return(g.budget, growth), threads := s.threads[t := Idle])
      else s.(pool := s.pool.(capacity := s.pool.capacity[i := min]), budget := g.budget, threads := s.threads[t := Idle])
  {
    var b := DoReserve(s, t);
    var st := b.threads[t];
    assert s.threads[t := st][t := Idle] == s.threads[t := Idle];
    assert s.threads[t := st][t := Failing(i)][t := Idle] == s.threads[t := Idle];
  }

  lemma SectionsAreAcquire(s: System, t: nat, min: nat, grown: bool)
    requires t < |s.threads| && s.threads[t].Idle?
    ensures var b, r := DoReserve(DoTake(s, t, min), t), Acquire(World(s.pool, s.budget), min, grown);
      DoPutBack(if grown then DoStore(b, t) else DoRefund(b, t), t) == s.(pool := r.world.pool, budget := r.world.budget)
  {
    var a := DoTake(s, t, min);
    if Refusal(s.pool, min) != Ok {
      IdleDoesNothing(s, t);
    } else {
      TakeIs(s, t, min);
      var i := s.pool.free[0];
      if MustGrow(s.pool, i, min) {
        GrowIsItsSteps(a, t, i, min, grown);
        assert s.threads[t := Wanting(i, min)][t := Idle] == s.threads;
      } else {
        IdleDoesNothing(a, t);
        assert s.threads[t := Idle] == s.threads;
      }
    }
  }

  /** Run in a row, the sections of an acquire compute Acquire and leave the thread idle. */
  lemma AcquireIsItsSteps(s: System, t: nat, min: nat, grown: bool)
    requires t < |s.threads| && s.threads[t].Idle?
    ensures var u, r := Run(s, AcquireSteps(t, min, grown)), Acquire(World(s.pool, s.budget), min, grown);
      u == s.(pool := r.world.pool, budget := r.world.budget)
  {
    RunFour(s, OpTake(t, min), OpReserve(t), if grown then OpStore(t) else OpRefund(t), OpPutBack(t));
    SectionsAreAcquire(s, t, min, grown);
  }

  // Repayment.

  function Less(budget: Option<Account>, bytes: nat): Option<Account>
    requires budget.Some? ==> bytes <= budget.value.current
  {
    if budget.None? then None else Some(budget.value.(current := budget.value.current - bytes))
  }

  lemma RepayIs(s: System, n: nat)
    requires Inv(s, n) && s.owed != []
    ensures Total(s.owed) == s.owed[0] + Total(s.owed[1..]) && (s.budget.Some? ==> Total(s.owed) <= s.budget.value.current)
    ensures DoRepay(s) == s.(owed := s.owed[1..], budget := Less(s.budget, s.owed[0]))
  {
    assert s.owed == [s.owed[0]] + s.owed[1..];
    TotalAppend([s.owed[0]], s.owed[1..]);
    TotalOne(s.owed[0]);
  }

  lemma RunRepays(s: System, k: nat)
    requires 0 < k
    ensures Run(s, Repeat(k, OpRepay)) == Run(DoRepay(s), Repeat(k - 1, OpRepay))
  {
    assert Repeat(k, OpRepay)[1..] == Repeat(k - 1, OpRepay);
  }

  /** Whatever a destroyed pool owes is repaid in as many steps, and the budget falls by exactly that. */
  lemma {:induction false} DuesAreRepaid(s: System, n: nat)
    requires Inv(s, n)
    ensures s.budget.Some? ==> Total(s.owed) <= s.budget.value.current
    ensures Run(s, Repeat(|s.owed|, OpRepay)) == s.(owed := [], budget := Less(s.budget, Total(s.owed)))
    decreases |s.owed|
  {
    if s.owed == [] {
      assert Repeat<Op>(0, OpRepay) == [];
    } else {
      RepayIs(s, n);
      RepayKeepsInv(s, n);
      DuesAreRepaid(DoRepay(s), n);
      RunRepays(s, |s.owed|);
    }
  }
}
