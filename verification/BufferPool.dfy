/** The budgeted buffer pools (buffer.c): a bounded set of descriptors with fixed or growing storage, every byte
    of it charged to a memory budget. */
module BufferPool {
  import opened Sets
  import opened Status

  const TWO_64: nat := 0x1_0000_0000_0000_0000

  datatype Account = Account(limit: nat, current: nat)

  /** `desc` is the size of one descriptor. A fixed pool's storage is one block of `size` bytes per buffer; a
      dynamic pool's buffers grow on demand up to `size`. */
  datatype Pool = Pool(
    live: bool, desc: nat, dynamic: bool, size: nat, capacity: seq<nat>, out: seq<bool>, free: seq<nat>, closed: bool)

  const NO_POOL := Pool(false, 0, false, 0, [], [], [], false)

  /** No budget means nothing is charged. */
  datatype World = World(pool: Pool, budget: Option<Account>)

  datatype Reply = Reply(world: World, status: Status, index: nat)

  datatype Grant = Grant(budget: Option<Account>, status: Status)

  // tr_buffer_budget_reserve
  function Reserve(budget: Option<Account>, bytes: nat): Grant {
    if budget.None? || bytes == 0 then Grant(budget, Ok)
    else
      var a := budget.value;
      if a.current + bytes >= TWO_64 then Grant(budget, State)
      else if a.limit != 0 && a.current + bytes > a.limit then Grant(budget, Again)
      else Grant(Some(a.(current := a.current + bytes)), Ok)
  }

  // tr_buffer_budget_release
  function Return(budget: Option<Account>, bytes: nat): Option<Account> {
    if budget.None? || budget.value.current < bytes then budget
    else Some(budget.value.(current := budget.value.current - bytes))
  }

  function Fail(w: World, status: Status): Reply {
    Reply(w, status, 0)
  }

  function Descending(n: nat): seq<nat> {
    seq(n, i requires 0 <= i < n => n - 1 - i)
  }

  function Repeat<T>(n: nat, v: T): seq<T> {
    seq(n, _ => v)
  }

  function Fresh(desc: nat, dynamic: bool, count: nat, size: nat): Pool {
    Pool(true, desc, dynamic, size, Repeat(count, if dynamic then 0 else size), Repeat(count, false),
         Descending(count), false)
  }

  // tr_buffer_pool_init_budgeted: `ready` is whether the allocations and the lock succeed; the pool is zeroed
  // once the arguments are accepted
  function InitFixed(w: World, desc: nat, count: nat, size: nat, ready: Status): Reply {
    if count == 0 || size == 0 then Fail(w, Invalid) else
      var first := Reserve(w.budget, count * desc);
      if first.status != Ok then Fail(World(NO_POOL, first.budget), first.status) else
        var second := Reserve(first.budget, count * size);
        if second.status != Ok then Fail(World(NO_POOL, Return(second.budget, count * desc)), second.status)
        else if ready != Ok
        then Fail(World(NO_POOL, Return(Return(second.budget, count * size), count * desc)), ready)
        else Reply(World(Fresh(desc, false, count, size), second.budget), Ok, 0)
  }

  // tr_buffer_pool_init_dynamic_budgeted
  function InitDynamic(w: World, desc: nat, count: nat, size: nat, ready: Status): Reply {
    if count == 0 || size == 0 then Fail(w, Invalid) else
      var g := Reserve(w.budget, count * desc);
      if g.status != Ok then Fail(World(NO_POOL, g.budget), g.status)
      else if ready != Ok then Fail(World(NO_POOL, Return(g.budget, count * desc)), ready)
      else Reply(World(Fresh(desc, true, count, size), g.budget), Ok, 0)
  }

  function PutBack(p: Pool, i: nat): Pool {
    if i >= |p.out| || !p.out[i] then p
    else p.(out := p.out[i := false], free := [i] + p.free)
  }

  /** What the locked section of tr_buffer_acquire answers. */
  function Refusal(p: Pool, min: nat): Status {
    if min == 0 then Invalid
    else if p.closed then Closed
    else if min > p.size then BadLength
    else if p.free == [] || p.free[0] >= |p.out| || p.free[0] >= |p.capacity| then Again
    else Ok
  }

  /** The newest free buffer is checked out. */
  function TakeHead(p: Pool): Pool
    requires p.free != [] && p.free[0] < |p.out|
  {
    p.(out := p.out[p.free[0] := true], free := p.free[1..])
  }

  predicate MustGrow(p: Pool, i: nat, min: nat)
    requires i < |p.capacity|
  {
    p.dynamic && p.capacity[i] < min
  }

  // tr_buffer_acquire when nothing comes between its sections: `grown` is whether the storage could be enlarged
  function Acquire(w: World, min: nat, grown: bool): Reply {
    var p := w.pool;
    if Refusal(p, min) != Ok then Fail(w, Refusal(p, min))
    else
      var i := p.free[0];
      var q := TakeHead(p);
      if !MustGrow(p, i, min) then Reply(World(q, w.budget), Ok, i)
      else
        var growth := min - p.capacity[i];
        var g := Reserve(w.budget, growth);
        if g.status != Ok then Fail(World(PutBack(q, i), g.budget), g.status)
        else if !grown then Fail(World(PutBack(q, i), Return(g.budget, growth)), NoMem)
        else Reply(World(q.(capacity := q.capacity[i := min]), g.budget), Ok, i)
  }

  // tr_buffer_release
  function Release(w: World, i: nat): Reply {
    Reply(w.(pool := PutBack(w.pool, i)), Ok, i)
  }

  function Total(capacity: seq<nat>): nat {
    if capacity == [] then 0 else Total(capacity[..|capacity| - 1]) + capacity[|capacity| - 1]
  }

  predicate NoneSet(flags: seq<bool>) {
    forall i :: 0 <= i < |flags| ==> !flags[i]
  }

  // tr_buffer_pool_destroy
  function Destroy(w: World): Reply {
    var p := w.pool;
    if !p.live then Reply(w, Ok, 0)
    else if |p.free| != |p.capacity| || !NoneSet(p.out) then
      Reply(w.(pool := p.(closed := true)), State, 0)
    else
      var storage := if p.dynamic then Total(p.capacity) else |p.capacity| * p.size;
      Reply(World(NO_POOL.(closed := true), Return(Return(w.budget, storage), |p.capacity| * p.desc)), Ok, 0)
  }

  // What every operation keeps.

  /** Descriptors plus actual storage. */
  function Charge(p: Pool): nat {
    if p.live then |p.capacity| * p.desc + Total(p.capacity) else 0
  }

  predicate Listed(p: Pool) {
    && |p.out| == |p.capacity|
    && (forall i :: 0 <= i < |p.free| ==> p.free[i] < |p.out| && !p.out[p.free[i]])
    && (forall i, j :: 0 <= i < j < |p.free| ==> p.free[i] != p.free[j])
    && (forall i :: 0 <= i < |p.out| && !p.out[i] ==> i in p.free)
  }

  predicate Sized(p: Pool) {
    && (!p.live ==> Vacant(p))
    && forall i :: 0 <= i < |p.capacity| ==> if p.dynamic then p.capacity[i] <= p.size else p.capacity[i] == p.size
  }

  /** The pool's charge is in the budget, beside what others hold. */
  predicate Charged(w: World, others: nat) {
    w.budget.Some? ==> w.budget.value.current == others + Charge(w.pool)
  }

  predicate Inv(w: World, others: nat) {
    Listed(w.pool) && Sized(w.pool) && Charged(w, others)
  }

  lemma {:induction false} TotalUpdate(capacity: seq<nat>, i: nat, c: nat)
    requires i < |capacity|
    ensures Total(capacity[i := c]) == Total(capacity) - capacity[i] + c
    ensures capacity[i] <= Total(capacity)
  {
    var u := capacity[i := c];
    var last := |capacity| - 1;
    if i == last {
      assert u[..last] == capacity[..last];
    } else {
      TotalUpdate(capacity[..last], i, c);
      assert u[..last] == capacity[..last][i := c];
    }
  }

  lemma {:induction false} TotalOfEqual(capacity: seq<nat>, size: nat)
    requires forall i :: 0 <= i < |capacity| ==> capacity[i] == size
    ensures Total(capacity) == |capacity| * size
  {
    if capacity != [] {
      TotalOfEqual(capacity[..|capacity| - 1], size);
      assert |capacity| * size == (|capacity| - 1) * size + size;
    }
  }

  lemma PutBackKeeps(p: Pool, i: nat)
    requires Listed(p)
    ensures Listed(PutBack(p, i)) && Charge(PutBack(p, i)) == Charge(p) && PutBack(p, i).capacity == p.capacity
  {
    if i < |p.out| && p.out[i] {
      var q := PutBack(p, i);
      assert q.free[0] == i && forall j :: 1 <= j < |q.free| ==> q.free[j] == p.free[j - 1];
      assert i !in p.free;
      assert forall k :: k in p.free ==> k in q.free;
    }
  }

  lemma TakeKeeps(p: Pool)
    requires Listed(p) && p.free != []
    ensures Listed(TakeHead(p))
  {
    var q := TakeHead(p);
    assert forall j :: 0 <= j < |q.free| ==> q.free[j] == p.free[j + 1];
    forall k | 0 <= k < |q.out| && !q.out[k]
      ensures k in q.free
    {
      var j :| 0 <= j < |p.free| && p.free[j] == k;
      assert q.free[j - 1] == k;
    }
  }

  lemma FreshInv(desc: nat, dynamic: bool, count: nat, size: nat)
    ensures var p := Fresh(desc, dynamic, count, size);
      Listed(p) && Sized(p) && Charge(p) == count * desc + if dynamic then 0 else count * size
  {
    var p := Fresh(desc, dynamic, count, size);
    TotalOfEqual(p.capacity, if dynamic then 0 else size);
    forall i | 0 <= i < count
      ensures i in p.free
    {
      assert p.free[count - 1 - i] == i;
    }
  }

  function Initialise(w: World, desc: nat, count: nat, size: nat, dynamic: bool, ready: Status): Reply {
    if dynamic then InitDynamic(w, desc, count, size, ready) else InitFixed(w, desc, count, size, ready)
  }

  /** A zeroed or destroyed pool: what may be initialised. */
  predicate Vacant(p: Pool) {
    p == NO_POOL.(closed := p.closed)
  }

  /** Initialising a zeroed or destroyed pool: a failure leaves the budget exactly as it was and the pool vacant;
      a success charges exactly the pool and opens it. */
  lemma InitIsAllOrNothing(w: World, desc: nat, count: nat, size: nat, dynamic: bool, ready: Status)
    requires Vacant(w.pool)
    ensures var r := Initialise(w, desc, count, size, dynamic, ready);
      && (r.status != Ok ==> r.world.budget == w.budget && Vacant(r.world.pool))
      && (r.status == Ok ==>
            && Inv(r.world, if w.budget.Some? then w.budget.value.current else 0)
            && r.world.pool.live && !r.world.pool.closed && |r.world.pool.out| == count && NoneSet(r.world.pool.out))
  {
    FreshInv(desc, dynamic, count, size);
    if w.budget.Some? {
      ReserveReturns(w.budget, count * desc);
      ReserveReturns(Reserve(w.budget, count * desc).budget, count * size);
    }
  }

  lemma ReserveReturns(budget: Option<Account>, bytes: nat)
    ensures var g := Reserve(budget, bytes);
      if g.status == Ok then Return(g.budget, bytes) == budget else g.budget == budget
    ensures var g := Reserve(budget, bytes);
      g.status == Ok && budget.Some? ==> g.budget == Some(budget.value.(current := budget.value.current + bytes))
  {
  }

  /** With none out, the free list has them all. */
  lemma AllFree(p: Pool)
    requires Listed(p) && NoneSet(p.out)
    ensures |p.free| == |p.out|
  {
    forall x: nat
      ensures x in p.free <==> x < |p.out|
    {
      if x < |p.out| {
        assert !p.out[x];
      }
    }
    Exhausts(p.free, |p.out|);
  }

  // The free count.

  function OutCount(out: seq<bool>): nat {
    if out == [] then 0 else OutCount(out[..|out| - 1]) + if out[|out| - 1] then 1 else 0
  }

  lemma {:induction false} OutCountUpdate(out: seq<bool>, i: nat, b: bool)
    requires i < |out|
    ensures OutCount(out[i := b]) == OutCount(out) + (if b then 1 else 0) - (if out[i] then 1 else 0)
  {
    var u, last := out[i := b], |out| - 1;
    if i == last {
      assert u[..last] == out[..last];
    } else {
      OutCountUpdate(out[..last], i, b);
      assert u[..last] == out[..last][i := b];
    }
  }

  lemma {:induction false} NoneOut(out: seq<bool>)
    requires NoneSet(out)
    ensures OutCount(out) == 0
  {
    if out != [] {
      NoneOut(out[..|out| - 1]);
    }
  }

  // The pool as it runs.

  class BudgetCell {
    var account: Account

    constructor (limit: nat)
      ensures account == Account(limit, 0)
    {
      account := Account(limit, 0);
    }
  }

  class BufferPool {
    const budget: BudgetCell?
    var live: bool
    var desc: nat
    var dynamic: bool
    var size: nat
    var capacity: seq<nat>
    var out: seq<bool>
    var free: seq<nat>
    var freeCount: nat
    var closed: bool

    ghost function View(): World
      reads this, budget
    {
      World(Pool(live, desc, dynamic, size, capacity, out, free, closed), Ledger())
    }

    ghost function Ledger(): Option<Account>
      reads this, budget
    {
      if budget == null then None else Some(budget.account)
    }

    ghost predicate Valid()
      reads this
    {
      var p := Pool(live, desc, dynamic, size, capacity, out, free, closed);
      Listed(p) && freeCount == |free| && (!live ==> Vacant(p))
    }

    /** A zeroed pool. */
    constructor (budget: BudgetCell?)
      ensures Valid() && View() == World(NO_POOL, if budget == null then None else Some(budget.account))
      ensures this.budget == budget
    {
      this.budget := budget;
      live, desc, dynamic, size, capacity, out, free, freeCount, closed := false, 0, false, 0, [], [], [], 0, false;
    }

    method TryReserve(bytes: nat) returns (status: Status)
      modifies budget
      ensures Reserve(old(Ledger()), bytes) == Grant(Ledger(), status)
    {
      if budget == null || bytes == 0 {
        return Ok;
      }
      if budget.account.current + bytes >= TWO_64 {
        return State;
      }
      if budget.account.limit != 0 && budget.account.current + bytes > budget.account.limit {
        return Again;
      }
      budget.account := budget.account.(current := budget.account.current + bytes);
      status := Ok;
    }

    method GiveBack(bytes: nat)
      modifies budget
      ensures Ledger() == Return(old(Ledger()), bytes)
    {
      if budget != null && budget.account.current >= bytes {
        budget.account := budget.account.(current := budget.account.current - bytes);
      }
    }

    /** Push `count` descriptors onto an empty free list. */
    method Chain(count: nat)
      modifies this`free
      ensures free == Descending(count)
    {
      free := [];
      var i := 0;
      while i < count
        invariant 0 <= i <= count && free == Descending(i)
      {
        free := [i] + free;
        i := i + 1;
        assert free == Descending(i);
      }
    }

    /** Take over `count` descriptors. */
    method Populate(desc: nat, dynamic: bool, count: nat, size: nat)
      modifies this
      ensures Valid() && View() == World(Fresh(desc, dynamic, count, size), old(Ledger()))
    {
      live, closed, freeCount := true, false, count;
      this.desc, this.dynamic, this.size := desc, dynamic, size;
      capacity := Repeat(count, if dynamic then 0 else size);
      out := Repeat(count, false);
      Chain(count);
      FreshInv(desc, dynamic, count, size);
    }

    // tr_buffer_pool_init_budgeted
    method CreateFixed(desc: nat, count: nat, size: nat, ready: Status) returns (status: Status)
      requires Valid() && !live
      modifies this, budget
      ensures Valid() && InitFixed(old(View()), desc, count, size, ready) == Reply(View(), status, 0)
    {
      if count == 0 || size == 0 {
        return Invalid;
      }
      closed := false;
      status := TryReserve(count * desc);
      if status != Ok {
        return;
      }
      status := TryReserve(count * size);
      if status != Ok {
        GiveBack(count * desc);
        return;
      }
      if ready != Ok {
        GiveBack(count * size);
        GiveBack(count * desc);
        return ready;
      }
      Populate(desc, false, count, size);
    }

    // tr_buffer_pool_init_dynamic_budgeted
    method CreateDynamic(desc: nat, count: nat, size: nat, ready: Status) returns (status: Status)
      requires Valid() && !live
      modifies this, budget
      ensures Valid() && InitDynamic(old(View()), desc, count, size, ready) == Reply(View(), status, 0)
    {
      if count == 0 || size == 0 {
        return Invalid;
      }
      closed := false;
      status := TryReserve(count * desc);
      if status != Ok {
        return;
      }
      if ready != Ok {
        GiveBack(count * desc);
        return ready;
      }
      Populate(desc, true, count, size);
    }

    // tr_buffer_release
    method ReleaseBuffer(i: nat)
      requires Valid()
      modifies this`out, this`free, this`freeCount
      ensures Valid() && View() == Release(old(View()), i).world
    {
      PutBackKeeps(View().pool, i);
      if i >= |out| || !out[i] {
        return;
      }
      out := out[i := false];
      free := [i] + free;
      freeCount := freeCount + 1;
    }

    /** The locked section of tr_buffer_acquire. */
    method TakeBuffer(min: nat) returns (status: Status, index: nat)
      requires Valid()
      modifies this`out, this`free, this`freeCount
      ensures Valid() && status == Refusal(old(View()).pool, min)
      ensures status == Ok ==> index == old(free)[0] && index < |capacity| && out[index] && View().pool == TakeHead(old(View()).pool)
      ensures status != Ok ==> index == 0 && View() == old(View())
    {
      if min == 0 {
        return Invalid, 0;
      }
      if closed {
        return Closed, 0;
      }
      if min > size {
        return BadLength, 0;
      }
      if free == [] {
        return Again, 0;
      }
      TakeKeeps(View().pool);
      index := free[0];
      out, free, freeCount := out[index := true], free[1..], freeCount - 1;
      status := Ok;
    }

    // tr_buffer_acquire
    method AcquireBuffer(min: nat, grown: bool) returns (status: Status, index: nat)
      requires Valid()
      modifies this`out, this`free, this`freeCount, this`capacity, budget
      ensures Valid() && Acquire(old(View()), min, grown) == Reply(View(), status, index)
    {
      status, index := TakeBuffer(min);
      if status != Ok {
        return;
      }
      if dynamic && capacity[index] < min {
        var growth := min - capacity[index];
        status := TryReserve(growth);
        if status != Ok {
          ReleaseBuffer(index);
          return status, 0;
        }
        if !grown {
          GiveBack(growth);
          ReleaseBuffer(index);
          return NoMem, 0;
        }
        capacity := capacity[index := min];
      }
      status := Ok;
    }

    /** Some buffer is still out. */
    method AnyOut() returns (found: bool)
      ensures found <==> !NoneSet(out)
    {
      var i := 0;
      while i < |out|
        invariant 0 <= i <= |out| && forall j :: 0 <= j < i ==> !out[j]
      {
        if out[i] {
          return true;
        }
        i := i + 1;
      }
      found := false;
    }

    /** Return the storage of a dynamic pool, buffer by buffer. */
    method ReturnStorage()
      requires budget != null ==> Total(capacity) <= budget.account.current
      modifies budget
      ensures Ledger() == Return(old(Ledger()), Total(capacity))
    {
      var i := 0;
      while i < |capacity|
        invariant 0 <= i <= |capacity|
        invariant budget != null ==> Total(capacity[..i]) <= Total(capacity)
        invariant Ledger() == Return(old(Ledger()), Total(capacity[..i]))
      {
        assert capacity[..i + 1][..i] == capacity[..i];
        PrefixTotal(capacity, i + 1);
        GiveBack(capacity[i]);
        i := i + 1;
      }
      assert capacity[..i] == capacity;
    }

    /** Return storage and descriptors. */
    method ReturnCharge()
      requires budget != null ==> Total(capacity) <= budget.account.current
      modifies budget
      ensures var storage := if dynamic then Total(capacity) else |capacity| * size;
        Ledger() == Return(Return(old(Ledger()), storage), |capacity| * desc)
    {
      if dynamic {
        ReturnStorage();
      } else {
        GiveBack(|capacity| * size);
      }
      GiveBack(|capacity| * desc);
    }

    /** Return the charge and forget the storage. */
    method Dismantle()
      requires budget != null ==> Total(capacity) <= budget.account.current
      modifies this, budget
      ensures Valid() && View().pool == NO_POOL.(closed := old(closed))
      ensures var storage := if old(dynamic) then Total(old(capacity)) else |old(capacity)| * old(size);
        Ledger() == Return(Return(old(Ledger()), storage), |old(capacity)| * old(desc))
    {
      ReturnCharge();
      live, desc, dynamic, size, capacity, out, free, freeCount := false, 0, false, 0, [], [], [], 0;
    }

    // tr_buffer_pool_destroy
    method DestroyPool() returns (status: Status)
      requires Valid() && (budget != null && live ==> Charge(View().pool) <= budget.account.current)
      modifies this, budget
      ensures Valid() && Destroy(old(View())) == Reply(View(), status, 0)
    {
      if !live {
        return Ok;
      }
      ghost var w := View();
      closed := true;
      if freeCount != |capacity| {
        return State;
      }
      var busy := AnyOut();
      if busy {
        return State;
      }
      assert |capacity| * desc >= 0;
      Dismantle();
      assert View().pool == Destroy(w).world.pool;
      assert View().budget == Destroy(w).world.budget;
      status := Ok;
    }
  }

  lemma {:induction false} PrefixTotal(capacity: seq<nat>, i: nat)
    requires i <= |capacity|
    ensures Total(capacity[..i]) <= Total(capacity)
    decreases |capacity| - i
  {
    if i < |capacity| {
      PrefixTotal(capacity, i + 1);
      assert capacity[..i + 1][..i] == capacity[..i];
    } else {
      assert capacity[..i] == capacity;
    }
  }
}
