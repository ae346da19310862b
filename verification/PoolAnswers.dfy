/** When a pool hands out a buffer (buffer.c), which one, and what the call leaves behind. */
module PoolAnswers {
  import opened Status
  import opened BufferPool

  predicate SomeIn(p: Pool) {
    exists i :: 0 <= i < |p.out| && !p.out[i]
  }

  /** The budget can carry `bytes` more. */
  predicate Affords(budget: Option<Account>, bytes: nat) {
    budget.Some? ==>
      budget.value.current + bytes < TWO_64 && (budget.value.limit == 0 || budget.value.current + bytes <= budget.value.limit)
  }

  /** What the buffer at the head of the free list lacks to hold `min` bytes. */
  function Lack(p: Pool, min: nat): nat
    requires Listed(p) && p.free != []
  {
    if p.dynamic && p.capacity[p.free[0]] < min then min - p.capacity[p.free[0]] else 0
  }

  function Paid(budget: Option<Account>, bytes: nat): Option<Account> {
    if budget.None? then None else Some(budget.value.(current := budget.value.current + bytes))
  }

  lemma FreeIsIn(p: Pool)
    requires Listed(p)
    ensures p.free != [] <==> SomeIn(p)
  {
    if p.free != [] {
      assert !p.out[p.free[0]];
    }
  }

  /** No budget exceeds its limit. */
  predicate Solvent(budget: Option<Account>) {
    budget.Some? ==>
      budget.value.current < TWO_64 && (budget.value.limit != 0 ==> budget.value.current <= budget.value.limit)
  }

  lemma ReserveAffords(budget: Option<Account>, bytes: nat)
    requires Solvent(budget)
    ensures Reserve(budget, bytes).status == Ok <==> Affords(budget, bytes)
    ensures Affords(budget, bytes) ==> Reserve(budget, bytes).budget == Paid(budget, bytes)
    ensures !Affords(budget, bytes) ==>
      Reserve(budget, bytes) == Grant(budget, if budget.value.current + bytes >= TWO_64 then State else Again)
  {
  }

  lemma TakeThenPutBack(p: Pool)
    requires Listed(p) && p.free != []
    ensures PutBack(TakeHead(p), p.free[0]) == p
  {
    var i := p.free[0];
    assert p.out[i := true][i := false] == p.out;
    assert [i] + p.free[1..] == p.free;
  }

  /** A buffer is handed out exactly when one fits the pool, the pool is open, one is in, and the growth it needs is
      affordable and possible. */
  lemma AcquireIsExact(w: World, min: nat, grown: bool)
    requires Listed(w.pool) && Solvent(w.budget)
    ensures var p := w.pool;
      Acquire(w, min, grown).status ==
        if min == 0 then Invalid else if p.closed then Closed else if min > p.size then BadLength
        else if !SomeIn(p) then Again
        else if !Affords(w.budget, Lack(p, min)) then
          if w.budget.value.current + Lack(p, min) >= TWO_64 then State else Again
        else if Lack(p, min) != 0 && !grown then NoMem
        else Ok
  {
    FreeIsIn(w.pool);
    if w.pool.free != [] {
      ReserveAffords(w.budget, Lack(w.pool, min));
    }
  }

  /** A failed call leaves pool and budget as they were. A successful one hands out a buffer that was in, large enough,
      and pays exactly its growth; no other buffer changes. */
  lemma AcquireHandsOut(w: World, min: nat, grown: bool)
    requires Listed(w.pool) && Sized(w.pool) && Solvent(w.budget)
    ensures var r := Acquire(w, min, grown);
      if r.status != Ok then r.world == w else
        var p, q, i := w.pool, r.world.pool, r.index;
        && p.free != [] && i == p.free[0] < |p.out| && !p.out[i]
        && q == p.(out := p.out[i := true], free := p.free[1..], capacity := p.capacity[i := p.capacity[i] + Lack(p, min)])
        && min <= q.capacity[i] <= p.size
        && r.world.budget == Paid(w.budget, Lack(p, min))
  {
    var p := w.pool;
    if p.free != [] {
      assert !p.out[p.free[0]];
      ReserveAffords(w.budget, Lack(p, min));
      TakeThenPutBack(p);
      ReserveReturns(w.budget, Lack(p, min));
      assert Lack(p, min) == 0 ==> p.capacity[p.free[0] := p.capacity[p.free[0]]] == p.capacity;
    }
  }

  /** The buffer released last is handed out first, and releasing what was handed out restores the pool. */
  lemma ReleaseUndoesAcquire(w: World, min: nat, grown: bool)
    requires Listed(w.pool) && Sized(w.pool) && Solvent(w.budget) && Acquire(w, min, grown).status == Ok
    ensures var r := Acquire(w, min, grown);
      var back := Release(r.world, r.index).world;
      && back.pool == w.pool.(capacity := r.world.pool.capacity)
      && Acquire(back, min, grown) == r
  {
    AcquireHandsOut(w, min, grown);
    var r := Acquire(w, min, grown);
    var i := r.index;
    assert w.pool.out[i := true][i := false] == w.pool.out;
    assert [i] + w.pool.free[1..] == w.pool.free;
  }
}
