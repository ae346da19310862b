/** The timer queue as it runs (timer_queue.c): heap and links updated in place, refining Timers. */
module TimerQueue {
  import opened Ring
  import opened Status
  import opened TimerHeap
  import opened Timers
  import opened TimerEffects

  function Deadlines(slots: seq<Timer>): (d: seq<nat>)
    ensures |d| == |slots| && forall i :: 0 <= i < |d| ==> d[i] == slots[i].deadline
  {
    seq(|slots|, i requires 0 <= i < |slots| => slots[i].deadline)
  }

  predicate ChainedAt(free: seq<nat>, p: seq<nat>, i: nat) {
    i < |free| && free[i] < |p| && p[free[i]] == if i + 1 < |free| then free[i + 1] else NONE
  }

  /** The free slots, chained through their links from `head`. */
  predicate Chained(head: nat, free: seq<nat>, p: seq<nat>) {
    && head == (if free == [] then NONE else free[0])
    && forall i :: 0 <= i < |free| ==> ChainedAt(free, p, i)
  }

  /** A used timer is in the heap if and only if it has a deadline, and otherwise its link says so. */
  predicate HeapHoldsArmed(slots: seq<Timer>, h: seq<nat>, p: seq<nat>) {
    forall s :: 0 <= s < |slots| ==>
      (Armed(slots[s]) <==> In(h, p, s)) && (slots[s].used && slots[s].deadline == 0 ==> s < |p| && p[s] == NONE)
  }

  /** The heap still holds exactly the armed timers after `slot` changed. */
  lemma HoldsAfter(slots: seq<Timer>, h: seq<nat>, p: seq<nat>, slots': seq<Timer>, h': seq<nat>, p': seq<nat>, slot: nat)
    requires HeapHoldsArmed(slots, h, p) && Lost(h, p, h', p', slot) && |p| == |slots| && slot < |slots|
    requires |slots'| == |slots| && forall s :: 0 <= s < |slots| && s != slot ==> slots'[s] == slots[s]
    requires Armed(slots'[slot]) <==> In(h', p', slot)
    requires slots'[slot].used && slots'[slot].deadline == 0 ==> p'[slot] == NONE
    ensures HeapHoldsArmed(slots', h', p')
  {
  }

  lemma HoldsWithout(slots: seq<Timer>, h: seq<nat>, p: seq<nat>, h': seq<nat>, p': seq<nat>, slot: nat)
    requires HeapHoldsArmed(slots, h, p) && Lost(h, p, h', p', slot) && |p| == |slots| && slot < |slots|
    requires !In(h', p', slot) && p'[slot] == NONE
    ensures HeapHoldsArmed(slots[slot := slots[slot].(deadline := 0)], h', p')
  {
    HoldsAfter(slots, h, p, slots[slot := slots[slot].(deadline := 0)], h', p', slot);
  }

  /** A slot outside the heap may have its link rewritten. */
  lemma RelinkOutside(h: seq<nat>, p: seq<nat>, slot: nat, to: nat)
    requires Linked(h, p) && slot < |p| && !In(h, p, slot)
    ensures Linked(h, p[slot := to]) && !In(h, p[slot := to], slot) && Lost(h, p, h, p[slot := to], slot)
  {
    assert slot !in h;
  }

  /** Free slots are outside the heap, so their chain is not disturbed. */
  lemma ChainSurvives(t: Timers, head: nat, h: seq<nat>, p: seq<nat>, h': seq<nat>, p': seq<nat>, slot: nat)
    requires Valid(t) && Chained(head, t.free, p) && HeapHoldsArmed(t.slots, h, p) && |p| == |t.slots|
    requires Lost(h, p, h', p', slot) && slot !in t.free
    ensures Chained(head, t.free, p')
  {
    forall i | 0 <= i < |t.free|
      ensures ChainedAt(t.free, p', i)
    {
      assert ChainedAt(t.free, p, i) && t.free[i] in t.free;
      assert !Armed(t.slots[t.free[i]]);
    }
  }

  lemma RootIsEarliest(t: Timers, h: seq<nat>, p: seq<nat>)
    requires |p| == |t.slots| && Linked(h, p) && Ordered(h, Deadlines(t.slots)) && HeapHoldsArmed(t.slots, h, p)
    ensures Earliest(t) == if h == [] then None else Some(h[0])
  {
    var e := Earliest(t);
    if h == [] {
      assert forall s :: 0 <= s < |t.slots| ==> !In(h, p, s);
    } else {
      assert In(h, p, h[0]) && Armed(t.slots[h[0]]);
      assert In(h, p, e.value);
      RootIsLeast(h, Deadlines(t.slots), p[e.value]);
    }
  }

  class TimerQueue {
    const heap: array<nat>
    /** The union of each entry: heap position while used, next free slot while not. */
    const link: array<nat>
    var slots: seq<Timer>
    var size: nat
    var freeHead: nat
    ghost var free: seq<nat>

    ghost function View(): Timers
      reads this
    {
      Timers(slots, free)
    }

    ghost predicate Shaped()
      reads this, heap, link
    {
      && heap != link && size <= heap.Length && link.Length == heap.Length == |slots| && heap.Length < HEAP_LIMIT
      && Linked(heap[..size], link[..])
    }

    ghost function H(): seq<nat>
      requires size <= heap.Length
      reads this, heap
    {
      heap[..size]
    }

    ghost function D(): seq<nat>
      reads this
    {
      Deadlines(slots)
    }

    ghost predicate Inv()
      reads this, heap, link
    {
      && Shaped()
      && Ordered(H(), D())
      && HeapHoldsArmed(slots, H(), link[..])
      && Chained(freeHead, free, link[..])
      && Valid(View())
    }

    predicate IsBefore(a: nat, b: nat)
      requires a < |slots| && b < |slots|
      reads this
      ensures IsBefore(a, b) <==> !Le(D(), b, a)
    {
      if slots[a].deadline != slots[b].deadline then slots[a].deadline < slots[b].deadline else a < b
    }

    // tr_timer_heap_swap
    method HeapSwap(a: nat, b: nat)
      requires Shaped() && a < size && b < size && a != b
      modifies heap, link
      ensures Shaped() && H() == Swapped(old(H()), a, b)
      ensures SameMembers(old(H()), old(link[..]), H(), link[..])
    {
      ghost var h, p := heap[..size], link[..];
      assert h[a] != h[b];
      var tmp := heap[a];
      heap[a] := heap[b];
      heap[b] := tmp;
      link[heap[a]] := a;
      link[heap[b]] := b;
      assert heap[..size] == Swapped(h, a, b);
      SwapKeepsMembers(h, p, a, b, link[..]);
    }

    /** Swap an item that is earlier than its parent with it. */
    method Lift(pos: nat)
      requires Shaped() && 0 < pos < size && ExceptAt(H(), D(), pos) && !OrderedAt(H(), D(), pos)
      modifies heap, link
      ensures Shaped() && SameMembers(old(H()), old(link[..]), H(), link[..])
      ensures H()[Parent(pos)] == old(H()[pos])
      ensures ExceptAt(H(), D(), Parent(pos)) && ExceptUp(H(), D(), Parent(pos))
    {
      UpStep(H(), D(), pos);
      HeapSwap(pos, (pos - 1) / 2);
    }

    method IsEarly(pos: nat) returns (early: bool)
      requires Shaped() && 0 < pos < size
      ensures early <==> !OrderedAt(H(), D(), pos)
    {
      early := IsBefore(heap[pos], heap[(pos - 1) / 2]);
    }

    /** The loop of tr_timer_heap_up: lift the item at `start` while it is earlier than its parent. */
    method SiftUp(start: nat, ghost upOnly: bool) returns (pos: nat)
      requires Shaped() && start < size && ExceptAt(H(), D(), start)
      requires upOnly ==> ExceptUp(H(), D(), start)
      modifies heap, link
      ensures Shaped() && SameMembers(old(H()), old(link[..]), H(), link[..])
      ensures pos < size && H()[pos] == old(H()[start]) && ExceptAt(H(), D(), pos)
      ensures pos != 0 ==> OrderedAt(H(), D(), pos)
      ensures upOnly ==> ExceptUp(H(), D(), pos)
    {
      pos := start;
      ghost var h0, p0 := heap[..size], link[..];
      while pos != 0
        invariant Shaped() && 0 <= pos < size && H()[pos] == h0[start] && ExceptAt(H(), D(), pos)
        invariant SameMembers(h0, p0, H(), link[..])
        invariant upOnly ==> ExceptUp(H(), D(), pos)
      {
        var early := IsEarly(pos);
        if !early {
          break;
        }
        ghost var h, p := heap[..size], link[..];
        Lift(pos);
        MembersCompose(h0, p0, h, p, H(), link[..]);
        pos := (pos - 1) / 2;
      }
    }

    // tr_timer_heap_up
    method HeapUp(start: nat)
      requires Shaped() && start < size && ExceptAt(H(), D(), start)
      modifies heap, link
      ensures Shaped() && SameMembers(old(H()), old(link[..]), H(), link[..])
      ensures var slot := old(heap[start]); slot < link.Length && link[slot] < size && ExceptDown(H(), D(), link[slot])
      ensures old(ExceptUp(H(), D(), start)) ==> Ordered(H(), D())
    {
      var pos := SiftUp(start, ExceptUp(H(), D(), start));
      UpDone(H(), D(), pos);
      assert link[H()[pos]] == pos;
    }

    /** The 32-bit indices of the children of `pos`. */
    method Children(pos: nat) returns (left: nat, right: nat)
      requires pos + 1 < HEAP_LIMIT
      ensures left == LeftChild(pos) == 2 * pos + 1 && right == RightChild(pos) == 2 * pos + 2
    {
      ModBelow(pos * 2 + 1, WORD);
      left := (pos * 2 + 1) % WORD;
      ModBelow(left + 1, WORD);
      right := (left + 1) % WORD;
    }

    /** The child of `pos` to swap with, or `pos` itself if none is earlier. */
    method BestChild(pos: nat) returns (best: nat)
      requires Shaped() && pos < size
      ensures best < size
      ensures best == pos ==> forall c :: 0 < c < size && Parent(c) == pos ==> Le(D(), H()[pos], H()[c])
      ensures best != pos ==> 0 < best && Parent(best) == pos && !Le(D(), H()[pos], H()[best])
      ensures best != pos ==> forall c :: 0 < c < size && Parent(c) == pos ==> Le(D(), H()[best], H()[c])
    {
      var left, right := Children(pos);
      best := pos;
      if left < size && IsBefore(heap[left], heap[best]) {
        best := left;
      }
      if right < size && IsBefore(heap[right], heap[best]) {
        best := right;
      }
      assert forall c :: 0 < c < size && Parent(c) == pos ==> c == left || c == right;
    }

    // tr_timer_heap_down
    method HeapDown(start: nat)
      requires Shaped() && start < size && ExceptDown(H(), D(), start)
      modifies heap, link
      ensures Shaped() && SameMembers(old(H()), old(link[..]), H(), link[..]) && Ordered(H(), D())
    {
      ghost var h0, p0 := heap[..size], link[..];
      var pos := start;
      while true
        invariant Shaped() && pos < size && ExceptDown(H(), D(), pos)
        invariant SameMembers(h0, p0, H(), link[..])
        decreases size - pos
      {
        var best := BestChild(pos);
        if best == pos {
          break;
        }
        DownStep(H(), D(), pos, best);
        ghost var h, p := heap[..size], link[..];
        HeapSwap(pos, best);
        MembersCompose(h0, p0, h, p, H(), link[..]);
        pos := best;
      }
    }
  
    /** Close the hole at `pos` with the last item, which then finds its place. */
    method FillHole(pos: nat, ghost e: seq<nat>)
      requires Shaped() && OrderedBut(H(), D(), e, pos) && pos != size - 1
      modifies this`size, heap, link
      ensures Shaped() && size == old(size) - 1 && Ordered(H(), D())
      ensures Lost(old(H()), old(link[..]), H(), link[..], old(H()[pos])) && old(H()[pos]) !in H()
    {
      ghost var h, p := heap[..size], link[..];
      FilledIsAlmostOrdered(h, p, D(), e, pos);
      FilledMembers(h, p, pos);
      FilledDropsOut(h, p, pos);
      size := size - 1;
      var last := heap[size];
      heap[pos] := last;
      link[last] := pos;
      assert heap[..size] == Filled(h, pos);
      ghost var h1, p1 := heap[..size], link[..];
      HeapUp(pos);
      ghost var h2, p2 := heap[..size], link[..];
      HeapDown(link[last]);
      MembersCompose(h1, p1, h2, p2, H(), link[..]);
      LostThenSifted(h, p, h1, p1, H(), link[..], h[pos]);
      SiftedStillOut(h1, p1, H(), link[..], h[pos]);
    }

    // tr_timer_heap_remove. `e` gives the deadlines for which the heap was last in order.
    method HeapRemove(pos: nat, ghost e: seq<nat>)
      requires Shaped() && OrderedBut(H(), D(), e, pos)
      modifies this`size, heap, link
      ensures Shaped() && Ordered(H(), D())
      ensures Lost(old(H()), old(link[..]), H(), link[..], old(H()[pos]))
      ensures var out := old(H()[pos]); out < link.Length && link[out] == NONE && !In(H(), link[..], out)
    {
      ghost var h, p := heap[..size], link[..];
      var out := heap[pos];
      if pos != size - 1 {
        FillHole(pos, e);
      } else {
        FilledIsAlmostOrdered(h, p, D(), e, pos);
        CutMembers(h, p);
        FilledDropsOut(h, p, pos);
        size := size - 1;
        assert heap[..size] == h[..|h| - 1] == Filled(h, pos);
      }
      UnlinkOut(h, p, H(), link[..], out);
      link[out] := NONE;
    }
  
    // tr_timer_queue_init
    constructor (capacity: nat)
      requires 0 < capacity < HEAP_LIMIT
      ensures Inv() && fresh(heap) && fresh(link) && size == 0
      ensures View() == Timers(seq(capacity, _ => Timer(0, 0, 0, false, false)), seq(capacity, i => i))
    {
      heap := new nat[capacity];
      link := new nat[capacity](i => if i + 1 < capacity then i + 1 else NONE);
      slots := seq(capacity, _ => Timer(0, 0, 0, false, false));
      size, freeHead := 0, 0;
      free := seq(capacity, i => i);
      new;
      forall s | 0 <= s < capacity
        ensures s in free
      {
        assert free[s] == s;
      }
    }

    // tr_timer_queue_register
    method RegisterTimer() returns (r: Status, token: Token)
      requires Inv()
      modifies this, link
      ensures Inv() && View() == DoRegister(old(View()))
      ensures r == if old(free) == [] then Again else Ok
      ensures r.Ok? ==> Live(View(), token) && token.slot == old(free)[0] && !Live(old(View()), token)
      ensures r.Ok? ==> OnlySlot(old(View()), View(), token.slot) && slots[token.slot].deadline == 0
    {
      token := Token(0, 0);
      if freeHead == NONE {
        return Again, token;
      }
      RegisterKeepsValid(View());
      var slot := freeHead;
      ghost var before := View();
      ghost var h, p := heap[..size], link[..];
      assert free[0] == slot && slot in free && !In(h, p, slot);
      RelinkOutside(h, p, slot, NONE);
      ChainShrinks(before, p, p[slot := NONE]);
      freeHead := link[slot];
      var generation := NextGeneration(slots[slot].generation);
      slots := slots[slot := Timer(generation, 0, 1, true, false)];
      link[slot] := NONE;
      free := free[1..];
      token := Token(slot, generation);
      HoldsAfter(before.slots, h, p, slots, h, link[..], slot);
      UnarmedKeepsOrder(h, Deadlines(before.slots), D(), slot);
      r := Ok;
    }

    /** Take a timer out of the heap if it is there. */
    method Unlink(slot: nat, ghost e: seq<nat>)
      requires Shaped() && slot < |slots| && HeapHoldsArmed(slots, H(), link[..]) && slots[slot].used
      requires AgreeExcept(D(), e, slot) && InRange(H(), e) && Ordered(H(), e)
      requires link[slot] == NONE || In(H(), link[..], slot)
      modifies this`size, heap, link
      ensures Shaped() && Ordered(H(), D()) && link[slot] == NONE && !In(H(), link[..], slot)
      ensures Lost(old(H()), old(link[..]), H(), link[..], slot)
    {
      if link[slot] != NONE {
        HeapRemove(link[slot], e);
      } else {
        assert slot !in H();
        UnarmedKeepsOrder(H(), e, D(), slot);
      }
    }

    /** Put a timer that has just been given a deadline into the heap. */
    method Link(slot: nat, ghost e: seq<nat>)
      requires Shaped() && slot < |slots| && AgreeExcept(D(), e, slot) && InRange(H(), e) && Ordered(H(), e)
      requires !In(H(), link[..], slot) && size < heap.Length
      modifies this`size, heap, link
      ensures Shaped() && Ordered(H(), D()) && In(H(), link[..], slot)
      ensures Lost(old(H()), old(link[..]), H(), link[..], slot)
    {
      ghost var h, p := heap[..size], link[..];
      assert slot !in h;
      AppendMembers(h, p, slot);
      AppendIsAlmostOrdered(h, D(), e, slot);
      var pos := size;
      size := size + 1;
      heap[pos] := slot;
      link[slot] := pos;
      assert heap[..size] == h + [slot];
      ghost var h1, p1 := heap[..size], link[..];
      HeapUp(pos);
      LostThenSifted(h, p, h1, p1, H(), link[..], slot);
    }

    /** Move a timer in the heap whose deadline has just changed from `was`. */
    method Resift(slot: nat, was: nat, ghost e: seq<nat>)
      requires Shaped() && slot < |slots| && In(H(), link[..], slot) && OrderedBut(H(), D(), e, link[slot])
      requires e[slot] == was != 0
      modifies heap, link
      ensures Shaped() && Ordered(H(), D()) && In(H(), link[..], slot)
      ensures Lost(old(H()), old(link[..]), H(), link[..], slot)
    {
      var pos := link[slot];
      RetimedIsAlmostOrdered(H(), link[..], D(), e, pos);
      if was == 0 || slots[slot].deadline < was {
        HeapUp(pos);
      } else if slots[slot].deadline > was {
        HeapDown(pos);
      }
    }

    // tr_timer_queue_arm: the branch for a full heap is never taken
    method ArmTimer(token: Token, deadline: nat) returns (r: Status)
      requires Inv()
      modifies this`slots, this`size, heap, link
      ensures Inv() && View() == DoArm(old(View()), token, deadline)
      ensures r == if Live(old(View()), token) then Ok else Stale
      ensures r.Ok? ==> Live(View(), token) && OnlySlot(old(View()), View(), token.slot) && slots[token.slot].deadline == deadline
      ensures !r.Ok? ==> View() == old(View())
    {
      if token.slot >= |slots| || !slots[token.slot].used || slots[token.slot].generation != token.generation {
        return Stale;
      }
      var slot := token.slot;
      ghost var before := View();
      ghost var h, p, e := heap[..size], link[..], D();
      DoKeepsValid(before, Arm(token, deadline));
      var was := slots[slot].deadline;
      slots := slots[slot := slots[slot].(deadline := deadline, version := NextVersion(slots[slot].version))];
      Reheap(slot, was, e, before.slots);
      ChainSurvives(before, freeHead, h, p, H(), link[..], slot);
      HoldsAfter(before.slots, h, p, slots, H(), link[..], slot);
      r := Ok;
    }

    /** The heap part of arming: `before` is the table before the deadline changed. */
    method Reheap(slot: nat, was: nat, ghost e: seq<nat>, ghost before: seq<Timer>)
      requires Shaped() && slot < |slots| == |before| && slots[slot].used && before[slot].used && before[slot].deadline == was
      requires HeapHoldsArmed(before, H(), link[..])
      requires e == Deadlines(before) && Ordered(H(), e) && AgreeExcept(D(), e, slot)
      modifies this`size, heap, link
      ensures Shaped() && Ordered(H(), D())
      ensures Lost(old(H()), old(link[..]), H(), link[..], slot)
      ensures Armed(slots[slot]) <==> In(H(), link[..], slot)
      ensures slots[slot].deadline == 0 ==> link[slot] == NONE
    {
      if slots[slot].deadline == 0 {
        if link[slot] != NONE {
          HeapRemove(link[slot], e);
        } else {
          assert slot !in H();
          UnarmedKeepsOrder(H(), e, D(), slot);
        }
      } else if link[slot] == NONE {
        if size == heap.Length {
          HeapIsDistinct(H(), link[..]);
          NeverFull(H(), heap.Length, slot);
          assert false;
        }
        Link(slot, e);
      } else {
        Resift(slot, was, e);
      }
    }

    // tr_timer_queue_unregister
    method UnregisterTimer(token: Token) returns (r: Status)
      requires Inv()
      modifies this, heap, link
      ensures Inv() && View() == DoUnregister(old(View()), token)
      ensures r == if Live(old(View()), token) then Ok else Stale
      ensures !Live(View(), token) && OnlySlot(old(View()), View(), token.slot)
      ensures !r.Ok? ==> View() == old(View())
    {
      if token.slot >= |slots| || !slots[token.slot].used || slots[token.slot].generation != token.generation {
        return Stale;
      }
      ghost var before := View();
      Detach(token);
      UnregisterIs(before, token);
      r := Ok;
    }

    /** The registered slot leaves the heap and joins the free list. */
    method Detach(token: Token)
      requires Inv() && Live(View(), token)
      modifies this, heap, link
      ensures Inv() && View() == DoUnregister(old(View()), token)
    {
      ghost var before := View();
      Isolate(token.slot);
      Release(token.slot);
      UnregisterKeepsValid(before, token);
    }

    /** The registered slot leaves the heap. */
    method Isolate(slot: nat)
      requires Inv() && slot < |slots| && slots[slot].used
      modifies this`size, heap, link
      ensures Shaped() && slot !in free && link[slot] == NONE && !In(H(), link[..], slot)
      ensures Ordered(H(), D()) && Chained(freeHead, free, link[..])
      ensures HeapHoldsArmed(slots[slot := slots[slot].(deadline := 0)], H(), link[..])
    {
      ghost var h, p := heap[..size], link[..];
      Unlink(slot, D());
      ghost var h1, p1 := heap[..size], link[..];
      ChainSurvives(View(), freeHead, h, p, h1, p1, slot);
      HoldsWithout(slots, h, p, h1, p1, slot);
    }

    /** Return an unlinked slot to the free list. */
    method Release(slot: nat)
      requires Shaped() && slot < |slots| && slots[slot].used && slot !in free
      requires link[slot] == NONE && !In(H(), link[..], slot)
      requires Ordered(H(), D()) && Chained(freeHead, free, link[..])
      requires HeapHoldsArmed(slots[slot := slots[slot].(deadline := 0)], H(), link[..])
      modifies this`slots, this`freeHead, this`free, link
      ensures Shaped() && Ordered(H(), D()) && HeapHoldsArmed(slots, H(), link[..]) && Chained(freeHead, free, link[..])
      ensures var e := old(slots)[slot]; slots == old(slots)[slot := Timer(e.generation, 0, (e.version + 1) % VERSIONS, false, false)]
      ensures free == [slot] + old(free)
    {
      ghost var h, p, d := heap[..size], link[..], D();
      ghost var idle := slots[slot := slots[slot].(deadline := 0)];
      RelinkOutside(h, p, slot, freeHead);
      ChainExtends(free, p, slot, p[slot := freeHead]);
      var e := slots[slot];
      slots := slots[slot := Timer(e.generation, 0, (e.version + 1) % VERSIONS, false, false)];
      link[slot] := freeHead;
      freeHead := slot;
      free := [slot] + free;
      HoldsAfter(idle, h, p, slots, h, link[..], slot);
      UnarmedKeepsOrder(h, d, D(), slot);
    }
  
    // tr_timer_queue_next_deadline
    method NextDeadline() returns (deadline: nat)
      requires Inv()
      ensures var e := Earliest(View()); deadline == if e.Some? then slots[e.value].deadline else 0
    {
      RootIsEarliest(View(), H(), link[..]);
      if size == 0 {
        return 0;
      }
      deadline := slots[heap[0]].deadline;
    }

    /** A callback's operations on the queue. */
    method RunScript(ops: seq<Op>)
      requires Inv()
      modifies this, heap, link
      ensures Inv() && View() == DoAll(old(View()), ops)
    {
      var i := 0;
      while i < |ops|
        invariant 0 <= i <= |ops| && Inv() && DoAll(old(View()), ops) == DoAll(View(), ops[i..])
      {
        match ops[i] {
          case Register =>
            var r, token := RegisterTimer();
          case Arm(token, deadline) =>
            var r := ArmTimer(token, deadline);
          case Unregister(token) =>
            var r := UnregisterTimer(token);
        }
        i := i + 1;
      }
    }

    /** Take the timer at the root for its callback. */
    method TakeRoot() returns (slot: nat)
      requires Inv() && size != 0
      modifies this`slots, this`size, heap, link
      ensures Inv() && slot < |old(slots)| && View() == Take(old(View()), slot)
      ensures Earliest(old(View())) == Some(slot)
    {
      ghost var before := View();
      ghost var h, p := heap[..size], link[..];
      RootIsEarliest(before, h, p);
      slot := heap[0];
      assert In(h, p, slot);
      HeapRemove(0, D());
      ghost var h1 := heap[..size];
      ChainSurvives(before, freeHead, h, p, h1, link[..], slot);
      slots := slots[slot := slots[slot].(deadline := 0, running := true)];
      HoldsAfter(before.slots, h, p, slots, h1, link[..], slot);
      UnarmedKeepsOrder(h1, Deadlines(before.slots), D(), slot);
    }

    /** After the callback returned `next`. */
    method SettleTimer(token: Token, version: nat, next: nat)
      requires Inv()
      modifies this`slots, this`size, heap, link
      ensures Inv() && View() == Settle(old(View()), token, version, next)
    {
      if token.slot < |slots| && slots[token.slot].used && slots[token.slot].generation == token.generation {
        var e := slots[token.slot];
        ghost var before := slots;
        slots := slots[token.slot := e.(running := false)];
        assert Deadlines(slots) == Deadlines(before);
        if e.version == version && next != 0 {
          var r := ArmTimer(token, next);
        }
      }
    }

    // tr_timer_queue_run_due
    method RunDueTimers(now: nat, callbacks: seq<Script>) returns (fired: seq<nat>, more: bool)
      requires Inv()
      modifies this, heap, link
      ensures Inv() && RunDue(old(View()), now, callbacks) == Outcome(View(), fired)
      ensures more <==> exists s: nat :: Due(View(), s, now)
    {
      fired := [];
      var count := 0;
      while count < |callbacks| && size != 0
        invariant 0 <= count <= |callbacks| && Inv()
        invariant Resumes(RunDue(old(View()), now, callbacks), fired, RunDue(View(), now, callbacks[count..]))
        decreases |callbacks| - count
      {
        RootIsEarliest(View(), H(), link[..]);
        if slots[heap[0]].deadline > now {
          break;
        }
        ghost var before := View();
        var generation, version := slots[heap[0]].generation, slots[heap[0]].version;
        var slot := TakeRoot();
        RunScript(callbacks[count].ops);
        SettleTimer(Token(slot, generation), version, callbacks[count].next);
        Resume(RunDue(old(View()), now, callbacks), fired, before, slot, now, callbacks[count..]);
        assert callbacks[count..][1..] == callbacks[count + 1..];
        fired := fired + [slot];
        count := count + 1;
      }
      RootIsEarliest(View(), H(), link[..]);
      EarliestDecidesDue(View(), now);
      more := size != 0 && slots[heap[0]].deadline <= now;
    }
  }

  ghost predicate Resumes(whole: Outcome, fired: seq<nat>, rest: Outcome) {
    whole.timers == rest.timers && whole.fired == fired + rest.fired
  }

  lemma Resume(whole: Outcome, fired: seq<nat>, t: Timers, slot: nat, now: nat, callbacks: seq<Script>)
    requires callbacks != [] && Earliest(t) == Some(slot) && t.slots[slot].deadline <= now
    requires Resumes(whole, fired, RunDue(t, now, callbacks))
    ensures Resumes(whole, fired + [slot], RunDue(Fire(t, slot, callbacks[0]), now, callbacks[1..]))
  {
  }

  lemma HeapIsDistinct(h: seq<nat>, p: seq<nat>)
    requires Linked(h, p)
    ensures forall i, j :: 0 <= i < j < |h| ==> h[i] != h[j]
  {
  }

  lemma UnarmedKeepsOrder(h: seq<nat>, d: seq<nat>, e: seq<nat>, slot: nat)
    requires InRange(h, d) && Ordered(h, d) && slot !in h && AgreeExcept(d, e, slot)
    ensures InRange(h, e) && Ordered(h, e)
  {
    forall i | 0 < i < |h|
      ensures OrderedAt(h, e, i)
    {
      assert OrderedAt(h, d, i);
      assert h[i] in h && h[Parent(i)] in h;
    }
  }

  lemma ChainShrinks(t: Timers, p: seq<nat>, p': seq<nat>)
    requires t.free != [] && Valid(t) && Chained(t.free[0], t.free, p)
    requires t.free[0] < |p| && p' == p[t.free[0] := NONE]
    ensures Chained(p[t.free[0]], t.free[1..], p')
  {
    assert ChainedAt(t.free, p, 0);
    var f := t.free[1..];
    forall i | 0 <= i < |f|
      ensures ChainedAt(f, p', i)
    {
      var k := i + 1;
      assert f[i] == t.free[k] && t.free[0] != t.free[k];
      assert ChainedAt(t.free, p, k);
    }
  }

  lemma ChainExtends(free: seq<nat>, p: seq<nat>, slot: nat, p': seq<nat>)
    requires slot < |p| && slot !in free
    requires Chained(if free == [] then NONE else free[0], free, p)
    requires p' == p[slot := if free == [] then NONE else free[0]]
    ensures Chained(slot, [slot] + free, p')
  {
    var f := [slot] + free;
    forall i | 0 <= i < |f|
      ensures ChainedAt(f, p', i)
    {
      if i != 0 {
        var k := i - 1;
        assert f[i] == free[k] && free[k] in free;
        assert ChainedAt(free, p, k);
      }
    }
  }
}
