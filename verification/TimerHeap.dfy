/** The indexed binary heap of timer_queue.c: sift up, sift down and removal in place, with the position
    of every slot kept beside it. Slots are ordered by (deadline, slot). */
module TimerHeap {
  import opened Ring
  import opened Sets

  const NONE: nat := 0xffff_ffff

  /** Not tr_timer_before(b, a): slot `a` is no later than slot `b`. */
  predicate Le(d: seq<nat>, a: nat, b: nat)
    requires a < |d| && b < |d|
  {
    d[a] < d[b] || (d[a] == d[b] && a <= b)
  }

  predicate InRange(h: seq<nat>, d: seq<nat>) {
    forall i :: 0 <= i < |h| ==> h[i] < |d|
  }

  function Parent(i: nat): nat
    requires 0 < i
  {
    (i - 1) / 2
  }

  // Child indices are 32-bit.

  /** The heap sizes for which 32-bit child indices are exact lie below this one. */
  const HEAP_LIMIT: nat := 0x8000_0000

  /** pos * 2 + 1 */
  function LeftChild(pos: nat): nat
    requires pos < WORD
  {
    if 2 * pos + 1 < WORD then 2 * pos + 1 else 2 * pos + 1 - WORD
  }

  /** left + 1 */
  function RightChild(pos: nat): nat
    requires pos < WORD
  {
    if LeftChild(pos) + 1 < WORD then LeftChild(pos) + 1 else 0
  }

  /** The code takes `c` for a child of `pos`. */
  predicate TakenForChild(pos: nat, c: nat) {
    pos < WORD && (c == LeftChild(pos) || c == RightChild(pos))
  }

  /** In a heap of `n` items, what the code takes for the children of an item are its children. */
  ghost predicate ChildrenAreExact(n: nat) {
    forall pos: nat, c: nat :: pos < n && c < n && TakenForChild(pos, c) ==> 0 < c && Parent(c) == pos
  }

  lemma ChildIndexIsExact(n: nat)
    requires n < WORD
    ensures ChildrenAreExact(n) <==> n < HEAP_LIMIT
  {
    if n < HEAP_LIMIT {
      forall pos: nat, c: nat | pos < n && c < n && TakenForChild(pos, c)
        ensures 0 < c && Parent(c) == pos
      {
      }
    } else {
      assert TakenForChild(HEAP_LIMIT - 1, 0);
    }
  }

  /** With 2^31 items or more, a sift down from the item at 2^31 - 1 takes the root for its right child, and if the
      root is earlier, swapping the two destroys the order. */
  lemma RootSinksIntoLeaf(h: seq<nat>, d: seq<nat>)
    requires HEAP_LIMIT <= |h| < WORD && InRange(h, d) && Ordered(h, d)
    requires !Le(d, h[HEAP_LIMIT - 1], h[Parent(HEAP_LIMIT - 1)]) && !Le(d, h[Parent(HEAP_LIMIT - 1)], h[0])
    ensures RightChild(HEAP_LIMIT - 1) == 0 && !Le(d, h[HEAP_LIMIT - 1], h[0])
    ensures !Ordered(Swapped(h, HEAP_LIMIT - 1, 0), d)
  {
    var s := Swapped(h, HEAP_LIMIT - 1, 0);
    assert !OrderedAt(s, d, HEAP_LIMIT - 1);
  }

  predicate OrderedAt(h: seq<nat>, d: seq<nat>, i: nat)
    requires InRange(h, d) && 0 < i < |h|
  {
    Le(d, h[Parent(i)], h[i])
  }

  predicate Ordered(h: seq<nat>, d: seq<nat>)
    requires InRange(h, d)
  {
    forall i :: 0 < i < |h| ==> OrderedAt(h, d, i)
  }

  /** Children of `pos` are no earlier than its parent, whatever stands at `pos`. */
  predicate Grand(h: seq<nat>, d: seq<nat>, pos: nat)
    requires InRange(h, d)
  {
    forall c :: 0 < pos < c < |h| && Parent(c) == pos ==> Le(d, h[Parent(pos)], h[c])
  }

  /** In order except perhaps between `pos` and its parent. */
  predicate ExceptUp(h: seq<nat>, d: seq<nat>, pos: nat)
    requires InRange(h, d)
  {
    Grand(h, d, pos) && forall i :: 0 < i < |h| && i != pos ==> OrderedAt(h, d, i)
  }

  /** In order except perhaps between `pos` and its children. */
  predicate ExceptDown(h: seq<nat>, d: seq<nat>, pos: nat)
    requires InRange(h, d)
  {
    Grand(h, d, pos) && forall i :: 0 < i < |h| && Parent(i) != pos ==> OrderedAt(h, d, i)
  }

  /** In order except perhaps around `pos`. */
  predicate ExceptAt(h: seq<nat>, d: seq<nat>, pos: nat)
    requires InRange(h, d)
  {
    Grand(h, d, pos) && forall i :: 0 < i < |h| && i != pos && Parent(i) != pos ==> OrderedAt(h, d, i)
  }

  function Swapped(h: seq<nat>, a: nat, b: nat): (s: seq<nat>)
    requires a < |h| && b < |h|
  {
    h[a := h[b]][b := h[a]]
  }

  lemma {:induction false} RootIsLeast(h: seq<nat>, d: seq<nat>, i: nat)
    requires InRange(h, d) && Ordered(h, d) && i < |h|
    ensures Le(d, h[0], h[i])
  {
    if i != 0 {
      RootIsLeast(h, d, Parent(i));
      assert OrderedAt(h, d, i);
    }
  }

  lemma UpStep(h: seq<nat>, d: seq<nat>, pos: nat)
    requires InRange(h, d) && ExceptAt(h, d, pos) && 0 < pos < |h| && !OrderedAt(h, d, pos)
    ensures var s := Swapped(h, pos, Parent(pos));
      InRange(s, d) && ExceptUp(s, d, Parent(pos)) && ExceptAt(s, d, Parent(pos)) && s[Parent(pos)] == h[pos]
  {
    var q := Parent(pos);
    var s := Swapped(h, pos, q);
    forall i | 0 < i < |h| && i != q
      ensures OrderedAt(s, d, i)
    {
      if i == pos {
      } else if Parent(i) == q {
        assert OrderedAt(h, d, i);
      } else if Parent(i) == pos {
        assert Le(d, h[q], h[i]);
      } else {
        assert OrderedAt(h, d, i);
      }
    }
    forall c | 0 < q < c < |h| && Parent(c) == q
      ensures Le(d, s[Parent(q)], s[c])
    {
      assert OrderedAt(h, d, q);
      if c != pos {
        assert OrderedAt(h, d, c);
      }
    }
  }

  lemma UpDone(h: seq<nat>, d: seq<nat>, pos: nat)
    requires InRange(h, d) && pos < |h| && (pos != 0 ==> OrderedAt(h, d, pos))
    ensures ExceptAt(h, d, pos) ==> ExceptDown(h, d, pos)
    ensures ExceptUp(h, d, pos) ==> Ordered(h, d)
  {
  }

  /** The earlier child, if it is earlier than its parent, moves up. */
  lemma DownStep(h: seq<nat>, d: seq<nat>, pos: nat, best: nat)
    requires InRange(h, d) && ExceptDown(h, d, pos) && 0 < best < |h| && Parent(best) == pos && pos < |h|
    requires !Le(d, h[pos], h[best])
    requires forall c :: 0 < c < |h| && Parent(c) == pos ==> Le(d, h[best], h[c])
    ensures var s := Swapped(h, pos, best); InRange(s, d) && ExceptDown(s, d, best)
  {
    var s := Swapped(h, pos, best);
    forall i | 0 < i < |h| && Parent(i) != best
      ensures OrderedAt(s, d, i)
    {
      if i == pos {
        assert Le(d, h[Parent(pos)], h[best]);
      } else if Parent(i) == pos {
        assert Le(d, h[best], h[i]);
      } else {
        assert OrderedAt(h, d, i);
      }
    }
    forall c | best < c < |h| && Parent(c) == best
      ensures Le(d, s[Parent(best)], s[c])
    {
      assert OrderedAt(h, d, c);
    }
  }

  // Positions.

  /** `slot` is in the heap where its link says. */
  predicate In(h: seq<nat>, p: seq<nat>, slot: nat) {
    slot < |p| && p[slot] < |h| && h[p[slot]] == slot
  }

  /** The link of every slot in the heap is its exact position. */
  predicate Linked(h: seq<nat>, p: seq<nat>) {
    forall i :: 0 <= i < |h| ==> h[i] < |p| && p[h[i]] == i
  }

  /** The same slots are in the heap, and nobody else's link moved. */
  predicate SameMembers(h: seq<nat>, p: seq<nat>, h': seq<nat>, p': seq<nat>) {
    && |h'| == |h| && |p'| == |p|
    && (forall s :: 0 <= s < |p| ==> In(h', p', s) == In(h, p, s))
    && (forall s :: 0 <= s < |p| && !In(h, p, s) ==> p'[s] == p[s])
  }

  lemma SwapKeepsMembers(h: seq<nat>, p: seq<nat>, a: nat, b: nat, p': seq<nat>)
    requires Linked(h, p) && a < |h| && b < |h| && a != b
    requires p' == p[h[b] := a][h[a] := b]
    ensures Linked(Swapped(h, a, b), p') && SameMembers(h, p, Swapped(h, a, b), p')
  {
    assert h[a] != h[b];
  }

  lemma MembersCompose(h: seq<nat>, p: seq<nat>, h1: seq<nat>, p1: seq<nat>, h2: seq<nat>, p2: seq<nat>)
    requires SameMembers(h, p, h1, p1) && SameMembers(h1, p1, h2, p2)
    ensures SameMembers(h, p, h2, p2)
  {
  }

  // Removal: the last item takes the hole at `pos`.

  function Filled(h: seq<nat>, pos: nat): seq<nat>
    requires pos < |h|
  {
    if pos == |h| - 1 then h[..pos] else h[..|h| - 1][pos := h[|h| - 1]]
  }

  predicate AgreeExcept(d: seq<nat>, e: seq<nat>, slot: nat) {
    |d| == |e| && forall s :: 0 <= s < |d| && s != slot ==> d[s] == e[s]
  }

  /** In order once the item at `pos` has some other deadline. */
  ghost predicate OrderedBut(h: seq<nat>, d: seq<nat>, e: seq<nat>, pos: nat) {
    pos < |h| && InRange(h, d) && InRange(h, e) && AgreeExcept(d, e, h[pos]) && Ordered(h, e)
  }

  lemma FilledIsAlmostOrdered(h: seq<nat>, p: seq<nat>, d: seq<nat>, e: seq<nat>, pos: nat)
    requires Linked(h, p) && OrderedBut(h, d, e, pos)
    ensures InRange(Filled(h, pos), d)
    ensures if pos == |h| - 1 then Ordered(Filled(h, pos), d) else ExceptAt(Filled(h, pos), d, pos)
  {
    var f := Filled(h, pos);
    forall i | 0 < i < |f| && i != pos && Parent(i) != pos
      ensures OrderedAt(f, d, i)
    {
      assert OrderedAt(h, e, i);
      assert f[i] == h[i] && f[Parent(i)] == h[Parent(i)];
      assert p[h[i]] == i && p[h[Parent(i)]] == Parent(i);
    }
    forall c | 0 < pos < c < |f| && Parent(c) == pos
      ensures Le(d, f[Parent(pos)], f[c])
    {
      assert OrderedAt(h, e, c) && OrderedAt(h, e, pos);
      assert p[h[c]] == c && p[h[Parent(pos)]] == Parent(pos) && p[h[pos]] == pos;
    }
  }

  /** Every slot but `out` is in the heap as before, and no link of a slot outside moved. */
  predicate Lost(h: seq<nat>, p: seq<nat>, h': seq<nat>, p': seq<nat>, out: nat) {
    && |p'| == |p|
    && (forall s :: 0 <= s < |p| && s != out ==> In(h', p', s) == In(h, p, s))
    && (forall s :: 0 <= s < |p| && s != out && !In(h, p, s) ==> p'[s] == p[s])
  }

  lemma FilledMembers(h: seq<nat>, p: seq<nat>, pos: nat)
    requires Linked(h, p) && pos < |h| - 1
    ensures var p' := p[h[|h| - 1] := pos]; Linked(Filled(h, pos), p') && Lost(h, p, Filled(h, pos), p', h[pos])
  {
    var last := |h| - 1;
    var f := Filled(h, pos);
    assert p[h[pos]] == pos && p[h[last]] == last;
    assert forall i :: 0 <= i < |f| ==> f[i] == if i == pos then h[last] else h[i];
  }

  lemma CutMembers(h: seq<nat>, p: seq<nat>)
    requires Linked(h, p) && 0 < |h|
    ensures Linked(h[..|h| - 1], p) && Lost(h, p, h[..|h| - 1], p, h[|h| - 1])
  {
    assert p[h[|h| - 1]] == |h| - 1;
  }

  lemma LostThenSifted(h: seq<nat>, p: seq<nat>, h1: seq<nat>, p1: seq<nat>, h2: seq<nat>, p2: seq<nat>, out: nat)
    requires Lost(h, p, h1, p1, out) && SameMembers(h1, p1, h2, p2)
    ensures Lost(h, p, h2, p2, out)
  {
  }

  lemma UnlinkOut(h: seq<nat>, p: seq<nat>, h': seq<nat>, p': seq<nat>, out: nat)
    requires Linked(h', p') && Lost(h, p, h', p', out) && out < |p'| && out !in h' && |h'| <= NONE
    ensures var q := p'[out := NONE]; Linked(h', q) && Lost(h, p, h', q, out) && !In(h', q, out)
  {
  }

  lemma SiftedStillOut(h: seq<nat>, p: seq<nat>, h': seq<nat>, p': seq<nat>, out: nat)
    requires Linked(h, p) && Linked(h', p') && SameMembers(h, p, h', p') && out < |p| && out !in h
    ensures out !in h'
  {
    assert !In(h', p', out);
  }

  lemma FilledDropsOut(h: seq<nat>, p: seq<nat>, pos: nat)
    requires Linked(h, p) && pos < |h|
    ensures h[pos] !in Filled(h, pos)
  {
    var f := Filled(h, pos);
    forall i | 0 <= i < |f|
      ensures f[i] != h[pos]
    {
      var j := if i == pos then |h| - 1 else i;
      assert f[i] == h[j] && p[h[j]] == j && p[h[pos]] == pos;
    }
  }

  // Arming.

  /** A heap of distinct slots that misses one is not full: tr_timer_queue_arm never finds it full. */
  lemma NeverFull(h: seq<nat>, n: nat, missing: nat)
    requires missing < n && missing !in h
    requires forall i :: 0 <= i < |h| ==> h[i] < n
    requires forall i, j :: 0 <= i < j < |h| ==> h[i] != h[j]
    ensures |h| < n
  {
    SubsetSize(Elements(h), Below(n) - {missing});
  }

  lemma AppendMembers(h: seq<nat>, p: seq<nat>, slot: nat)
    requires Linked(h, p) && slot < |p| && !In(h, p, slot)
    ensures var h' := h + [slot]; var p' := p[slot := |h|];
      Linked(h', p') && In(h', p', slot) && Lost(h, p, h', p', slot)
  {
  }

  lemma AppendIsAlmostOrdered(h: seq<nat>, d: seq<nat>, e: seq<nat>, slot: nat)
    requires InRange(h, d) && InRange(h, e) && Ordered(h, e) && slot < |d| && slot !in h && AgreeExcept(d, e, slot)
    ensures InRange(h + [slot], d) && ExceptUp(h + [slot], d, |h|) && ExceptAt(h + [slot], d, |h|)
  {
    var s := h + [slot];
    forall i | 0 < i < |s| && i != |h|
      ensures OrderedAt(s, d, i)
    {
      assert OrderedAt(h, e, i);
      assert h[i] in h && h[Parent(i)] in h;
    }
  }

  /** Changing the deadline of the item at `pos` disturbs the order only there: upwards if it became
      earlier, downwards if it became later. */
  lemma RetimedIsAlmostOrdered(h: seq<nat>, p: seq<nat>, d: seq<nat>, e: seq<nat>, pos: nat)
    requires Linked(h, p) && OrderedBut(h, d, e, pos)
    ensures ExceptAt(h, d, pos)
    ensures d[h[pos]] <= e[h[pos]] ==> ExceptUp(h, d, pos)
    ensures d[h[pos]] >= e[h[pos]] ==> ExceptDown(h, d, pos)
    ensures d[h[pos]] == e[h[pos]] ==> Ordered(h, d)
  {
    forall i | 0 < i < |h|
      ensures i != pos && (Parent(i) != pos || d[h[pos]] <= e[h[pos]]) ==> OrderedAt(h, d, i)
      ensures i == pos && d[h[pos]] >= e[h[pos]] ==> OrderedAt(h, d, i)
    {
      assert OrderedAt(h, e, i);
      assert p[h[i]] == i && p[h[Parent(i)]] == Parent(i) && p[h[pos]] == pos;
    }
    forall c | 0 < pos < c < |h| && Parent(c) == pos
      ensures Le(d, h[Parent(pos)], h[c])
    {
      assert OrderedAt(h, e, c) && OrderedAt(h, e, pos);
      assert p[h[c]] == c && p[h[Parent(pos)]] == Parent(pos) && p[h[pos]] == pos;
    }
  }
}
