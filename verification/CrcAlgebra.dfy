/** The algebra behind the CRC32 instruction and behind error detection, for any register type `W` fed with
    bytes `B`: it uses only that addition is associative and cancels, that a byte step commutes with
    adding higher bytes, and that it is one-to-one on the narrow values a state can take. */
module CrcAlgebra {

  /** `narrow(v, k)`: the value `v` fits in `k` bytes. */
  datatype Machine<!W, !B> = Machine(
    add: (W, W) -> W, step: W -> W, shift: W -> W, embed: B -> W, narrow: (W, nat) -> bool)

  ghost predicate Associative<W(!new), B(!new)>(m: Machine<W, B>) {
    forall a, b, c :: m.add(m.add(a, b), c) == m.add(a, m.add(b, c))
  }

  /** A step moves higher bytes down unchanged. */
  ghost predicate PassesHighBytes<W(!new), B(!new)>(m: Machine<W, B>) {
    forall a, h :: m.narrow(h, 7) ==> m.step(m.add(a, m.shift(h))) == m.add(m.step(a), h)
  }

  ghost predicate Widens<W(!new), B(!new)>(m: Machine<W, B>) {
    && (forall b :: m.narrow(m.embed(b), 1))
    && (forall b, w, k: nat :: k < 8 && m.narrow(w, k) ==> m.narrow(m.add(m.embed(b), m.shift(w)), k + 1))
  }

  ghost predicate Grows<W(!new), B(!new)>(m: Machine<W, B>) {
    forall w, j: nat, k: nat :: j <= k <= 8 && m.narrow(w, j) ==> m.narrow(w, k)
  }

  /** What the chunk cascade needs. */
  ghost predicate Linear<W(!new), B(!new)>(m: Machine<W, B>) {
    Associative(m) && PassesHighBytes(m) && Widens(m) && Grows(m)
  }

  /** The bytes as one little-endian word. */
  function Word<W, B>(m: Machine<W, B>, data: seq<B>): W
    requires data != []
    decreases |data|
  {
    if |data| == 1 then m.embed(data[0]) else m.add(m.embed(data[0]), m.shift(Word(m, data[1..])))
  }

  /** Byte by byte. */
  function Fold<W, B>(m: Machine<W, B>, s: W, data: seq<B>): W
    decreases |data|
  {
    if data == [] then s else Fold(m, m.step(m.add(s, m.embed(data[0]))), data[1..])
  }

  function Repeat<W, B>(m: Machine<W, B>, v: W, n: nat): W
    decreases n
  {
    if n == 0 then v else Repeat(m, m.step(v), n - 1)
  }

  lemma {:induction false} WordIsNarrow<W(!new), B(!new)>(m: Machine<W, B>, data: seq<B>)
    requires Linear(m) && 0 < |data| <= 8
    ensures m.narrow(Word(m, data), |data|)
    decreases |data|
  {
    if |data| > 1 {
      WordIsNarrow(m, data[1..]);
    }
  }

  /** Adding a whole word and stepping once per byte is adding and stepping byte by byte. */
  lemma {:induction false} WordIsBytes<W(!new), B(!new)>(m: Machine<W, B>, s: W, data: seq<B>)
    requires Linear(m) && 0 < |data| <= 8
    ensures Repeat(m, m.add(s, Word(m, data)), |data|) == Fold(m, s, data)
    decreases |data|
  {
    var b := m.embed(data[0]);
    if |data| == 1 {
      assert data[1..] == [];
      assert Repeat(m, m.step(m.add(s, b)), 0) == m.step(m.add(s, b));
    } else {
      var rest := data[1..];
      var w := Word(m, rest);
      WordIsNarrow(m, rest);
      assert m.narrow(w, 7);
      assert m.add(s, m.add(b, m.shift(w))) == m.add(m.add(s, b), m.shift(w));
      assert m.step(m.add(m.add(s, b), m.shift(w))) == m.add(m.step(m.add(s, b)), w);
      WordIsBytes(m, m.step(m.add(s, b)), rest);
    }
  }

  ghost predicate Cancels<W(!new), B(!new)>(m: Machine<W, B>) {
    && (forall a, b, c :: m.add(a, b) == m.add(a, c) ==> b == c)
    && (forall a, b, c :: m.add(a, c) == m.add(b, c) ==> a == b)
  }

  ghost predicate StepsOneToOne<W(!new), B(!new)>(m: Machine<W, B>) {
    && (forall a, b :: m.narrow(a, 4) && m.narrow(b, 4) && m.step(a) == m.step(b) ==> a == b)
    && (forall a :: m.narrow(a, 4) ==> m.narrow(m.step(a), 4))
  }

  ghost predicate StaysNarrow<W(!new), B(!new)>(m: Machine<W, B>) {
    forall a, b :: m.narrow(a, 4) && m.narrow(b, 4) ==> m.narrow(m.add(a, b), 4)
  }

  ghost predicate Separates<W(!new), B(!new)>(m: Machine<W, B>) {
    && (forall b, c :: m.embed(b) == m.embed(c) ==> b == c)
    && (forall b, c, v, w :: m.narrow(v, 7) && m.narrow(w, 7) && m.add(m.embed(b), m.shift(v)) == m.add(m.embed(c), m.shift(w)) ==>
          b == c && v == w)
  }

  /** What detection needs: nothing that fits in four bytes is lost. */
  ghost predicate OneToOne<W(!new), B(!new)>(m: Machine<W, B>) {
    Cancels(m) && StepsOneToOne(m) && StaysNarrow(m) && Separates(m)
  }

  lemma {:induction false} RepeatIsOneToOne<W(!new), B(!new)>(m: Machine<W, B>, a: W, b: W, n: nat)
    requires OneToOne(m) && m.narrow(a, 4) && m.narrow(b, 4) && a != b
    ensures Repeat(m, a, n) != Repeat(m, b, n)
    decreases n
  {
    if n != 0 {
      RepeatIsOneToOne(m, m.step(a), m.step(b), n - 1);
    }
  }

  /** The same bytes keep different states different. */
  lemma {:induction false} FoldIsOneToOne<W(!new), B(!new)>(m: Machine<W, B>, a: W, b: W, data: seq<B>)
    requires OneToOne(m) && Linear(m) && m.narrow(a, 4) && m.narrow(b, 4) && a != b
    ensures Fold(m, a, data) != Fold(m, b, data)
    decreases |data|
  {
    if data != [] {
      var c := m.embed(data[0]);
      assert m.narrow(c, 1) && m.narrow(c, 4);
      assert m.add(a, c) != m.add(b, c);
      FoldIsOneToOne(m, m.step(m.add(a, c)), m.step(m.add(b, c)), data[1..]);
    }
  }

  lemma {:induction false} WordIsOneToOne<W(!new), B(!new)>(m: Machine<W, B>, x: seq<B>, y: seq<B>)
    requires OneToOne(m) && Linear(m) && 0 < |x| == |y| <= 8 && x != y
    ensures Word(m, x) != Word(m, y)
    decreases |x|
  {
    if |x| == 1 {
      assert x == [x[0]] && y == [y[0]];
    } else {
      var v, w := Word(m, x[1..]), Word(m, y[1..]);
      WordIsNarrow(m, x[1..]);
      WordIsNarrow(m, y[1..]);
      assert m.narrow(v, 7) && m.narrow(w, 7);
      if x[1..] != y[1..] {
        WordIsOneToOne(m, x[1..], y[1..]);
      } else {
        assert x == [x[0]] + x[1..] && y == [y[0]] + y[1..];
      }
    }
  }

  lemma {:induction false} FoldIsNarrow<W(!new), B(!new)>(m: Machine<W, B>, s: W, data: seq<B>)
    requires OneToOne(m) && Linear(m) && m.narrow(s, 4)
    ensures m.narrow(Fold(m, s, data), 4)
    decreases |data|
  {
    if data != [] {
      var c := m.embed(data[0]);
      assert m.narrow(c, 1) && m.narrow(c, 4);
      FoldIsNarrow(m, m.step(m.add(s, c)), data[1..]);
    }
  }

  /** Up to four consecutive bytes that differ lead to different states. */
  lemma WindowIsDetected<W(!new), B(!new)>(m: Machine<W, B>, s: W, x: seq<B>, y: seq<B>)
    requires OneToOne(m) && Linear(m) && m.narrow(s, 4) && 0 < |x| == |y| <= 4 && x != y
    ensures Fold(m, s, x) != Fold(m, s, y)
  {
    WordIsOneToOne(m, x, y);
    WordIsBytes(m, s, x);
    WordIsBytes(m, s, y);
    WordIsNarrow(m, x);
    WordIsNarrow(m, y);
    var v, w := m.add(s, Word(m, x)), m.add(s, Word(m, y));
    assert m.narrow(Word(m, x), 4) && m.narrow(Word(m, y), 4);
    assert v != w;
    RepeatIsOneToOne(m, v, w, |x|);
  }
}
