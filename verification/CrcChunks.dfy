/** CRC32C by words (tr_crc32c_update_sse42) and what the checksum detects. The CRC32 instruction on an n-byte
    operand is n byte steps of the reflected polynomial on the sum of state and operand. */
module CrcChunks {
  import opened Crc32cTable
  import C = Crc32c
  import A = CrcAlgebra

  type byte = C.byte

  function Shift(v: bv64): bv64 {
    v << 8
  }

  function Embed(b: byte): bv64 {
    b as bv64
  }

  /** The largest value of `k` bytes. */
  function Mask(k: nat): bv64 {
    if k == 0 then 0 else if k == 1 then 0xff else if k == 2 then 0xffff else if k == 3 then 0xff_ffff
    else if k == 4 then 0xffff_ffff else if k == 5 then 0xff_ffff_ffff else if k == 6 then 0xffff_ffff_ffff
    else if k == 7 then 0xff_ffff_ffff_ffff else 0xffff_ffff_ffff_ffff
  }

  predicate Narrow(v: bv64, k: nat) {
    v <= Mask(k)
  }

  /** The machine with byte step `g`. */
  function Register(g: bv64 -> bv64): A.Machine<bv64, byte> {
    A.Machine(Xor, g, Shift, Embed, Narrow)
  }

  function Castagnoli(): A.Machine<bv64, byte> {
    Register(EightSteps)
  }

  ghost predicate Passes(g: bv64 -> bv64) {
    forall a: bv64, h: bv64 :: Narrow(h, 7) ==> g(Xor(a, Shift(h))) == Xor(g(a), h)
  }

  // The laws, one by one, on plain bit vectors.

  lemma XorAssociates(a: bv64, b: bv64, c: bv64)
    ensures (a ^ b) ^ c == a ^ (b ^ c)
  {
  }

  lemma XorCancels(a: bv64, b: bv64, c: bv64)
    ensures a ^ b == a ^ c ==> b == c
    ensures a ^ c == b ^ c ==> a == b
  {
  }

  lemma StepPassesHighBytes(a: bv64, h: bv64)
    requires Narrow(h, 7)
    ensures EightSteps(Xor(a, Shift(h))) == Xor(EightSteps(a), h)
  {
    EightStepsAdd(a, Shift(h));
    EightStepsShift(h);
  }

  lemma ByteIsNarrow(b: byte)
    ensures b as bv64 <= 0xff
  {
  }

  lemma ByteAndWordSeparate(b: byte, c: byte, v: bv64, w: bv64)
    requires v <= 0xff_ffff_ffff_ffff && w <= 0xff_ffff_ffff_ffff
    ensures (b as bv64) ^ (v << 8) == (c as bv64) ^ (w << 8) ==> b == c && v == w
  {
  }

  lemma EmbedIsOneToOne(b: byte, c: byte)
    ensures b as bv64 == c as bv64 ==> b == c
  {
  }

  lemma XorIsNarrow(a: bv64, b: bv64)
    requires a <= 0xffff_ffff && b <= 0xffff_ffff
    ensures a ^ b <= 0xffff_ffff
  {
  }

  /** The polynomial has its highest bit set, so a bit step loses nothing. */
  lemma BitStepIsOneToOne(a: bv64, b: bv64)
    requires a <= 0xffff_ffff && b <= 0xffff_ffff
    ensures BitStep(a) <= 0xffff_ffff
    ensures BitStep(a) == BitStep(b) ==> a == b
  {
  }

  /** Eight rounds of a map that stays within `ok` and is one-to-one there. */
  lemma EightRoundsAreOneToOne<W(!new)>(f: W -> W, ok: W -> bool, a: W, b: W)
    requires forall x, y :: ok(x) && ok(y) ==> ok(f(x)) && (f(x) == f(y) ==> x == y)
    requires ok(a) && ok(b)
    ensures ok(f(f(f(f(f(f(f(f(a)))))))))
    ensures f(f(f(f(f(f(f(f(a)))))))) == f(f(f(f(f(f(f(f(b)))))))) ==> a == b
  {
    var a4, b4 := f(f(f(f(a)))), f(f(f(f(b))));
    assert ok(f(a)) && ok(f(b)) && ok(f(f(a))) && ok(f(f(b)));
    assert ok(f(f(f(a)))) && ok(f(f(f(b)))) && ok(a4) && ok(b4);
    assert ok(f(a4)) && ok(f(b4)) && ok(f(f(a4))) && ok(f(f(b4)));
    assert ok(f(f(f(a4)))) && ok(f(f(f(b4))));
  }

  predicate Word(v: bv64) {
    v <= 0xffff_ffff
  }

  lemma StepIsOneToOne(a: bv64, b: bv64)
    requires a <= 0xffff_ffff && b <= 0xffff_ffff
    ensures EightSteps(a) <= 0xffff_ffff && (EightSteps(a) == EightSteps(b) ==> a == b)
  {
    forall x, y | Word(x) && Word(y)
      ensures Word(BitStep(x)) && (BitStep(x) == BitStep(y) ==> x == y)
    {
      BitStepIsOneToOne(x, y);
    }
    EightRoundsAreOneToOne(BitStep, Word, a, b);
  }

  lemma Widen0(b: byte, w: bv64)
    requires w <= 0x0
    ensures (b as bv64) ^ (w << 8) <= 0xff
  {
  }

  lemma Widen1(b: byte, w: bv64)
    requires w <= 0xff
    ensures (b as bv64) ^ (w << 8) <= 0xffff
  {
  }

  lemma Widen2(b: byte, w: bv64)
    requires w <= 0xffff
    ensures (b as bv64) ^ (w << 8) <= 0xffffff
  {
  }

  lemma Widen3(b: byte, w: bv64)
    requires w <= 0xffffff
    ensures (b as bv64) ^ (w << 8) <= 0xffffffff
  {
  }

  lemma Widen4(b: byte, w: bv64)
    requires w <= 0xffffffff
    ensures (b as bv64) ^ (w << 8) <= 0xffffffffff
  {
  }

  lemma Widen5(b: byte, w: bv64)
    requires w <= 0xffffffffff
    ensures (b as bv64) ^ (w << 8) <= 0xffffffffffff
  {
  }

  lemma Widen6(b: byte, w: bv64)
    requires w <= 0xffffffffffff
    ensures (b as bv64) ^ (w << 8) <= 0xffffffffffffff
  {
  }

  lemma Widen7(b: byte, w: bv64)
    requires w <= 0xffffffffffffff
    ensures (b as bv64) ^ (w << 8) <= 0xffffffffffffffff
  {
  }

  lemma Widen(b: byte, w: bv64, k: nat)
    requires k < 8 && Narrow(w, k)
    ensures Narrow(Xor(Embed(b), Shift(w)), k + 1)
  {
    if k == 0 { Widen0(b, w); }
    else if k == 1 { Widen1(b, w); }
    else if k == 2 { Widen2(b, w); }
    else if k == 3 { Widen3(b, w); }
    else if k == 4 { Widen4(b, w); }
    else if k == 5 { Widen5(b, w); }
    else if k == 6 { Widen6(b, w); }
    else { Widen7(b, w); }
  }

  lemma MaskGrows(j: nat, k: nat)
    requires j <= k <= 8
    ensures Mask(j) <= Mask(k)
  {
  }

  lemma XorIsAssociative()
    ensures A.Associative(Castagnoli())
  {
    forall a: bv64, b: bv64, c: bv64
      ensures Castagnoli().add(Castagnoli().add(a, b), c) == Castagnoli().add(a, Castagnoli().add(b, c))
    {
      XorAssociates(a, b, c);
    }
  }

  lemma EightStepsPass()
    ensures Passes(EightSteps)
  {
    forall a: bv64, h: bv64 | Narrow(h, 7)
      ensures EightSteps(Xor(a, Shift(h))) == Xor(EightSteps(a), h)
    {
      StepPassesHighBytes(a, h);
    }
  }

  lemma RegisterPasses(g: bv64 -> bv64)
    requires Passes(g)
    ensures A.PassesHighBytes(Register(g))
  {
  }

  lemma RegisterWidens()
    ensures A.Widens(Castagnoli())
  {
    var m := Castagnoli();
    forall b: byte
      ensures m.narrow(m.embed(b), 1)
    {
      ByteIsNarrow(b);
    }
    forall b: byte, w: bv64, k: nat | k < 8 && m.narrow(w, k)
      ensures m.narrow(m.add(m.embed(b), m.shift(w)), k + 1)
    {
      Widen(b, w, k);
    }
  }

  lemma RegisterGrows()
    ensures A.Grows(Castagnoli())
  {
    var m := Castagnoli();
    forall w: bv64, j: nat, k: nat | j <= k <= 8 && m.narrow(w, j)
      ensures m.narrow(w, k)
    {
      MaskGrows(j, k);
    }
  }

  lemma XorIsCancelling()
    ensures A.Cancels(Castagnoli())
  {
    var m := Castagnoli();
    forall a: bv64, b: bv64, c: bv64
      ensures m.add(a, b) == m.add(a, c) ==> b == c
      ensures m.add(a, c) == m.add(b, c) ==> a == b
    {
      XorCancels(a, b, c);
    }
  }

  ghost predicate Injective(g: bv64 -> bv64) {
    && (forall a: bv64, b: bv64 :: Narrow(a, 4) && Narrow(b, 4) && g(a) == g(b) ==> a == b)
    && (forall a: bv64 :: Narrow(a, 4) ==> Narrow(g(a), 4))
  }

  lemma EightStepsAreInjective()
    ensures Injective(EightSteps)
  {
    forall a: bv64, b: bv64 | Narrow(a, 4) && Narrow(b, 4)
      ensures Narrow(EightSteps(a), 4) && (EightSteps(a) == EightSteps(b) ==> a == b)
    {
      StepIsOneToOne(a, b);
    }
  }

  lemma StepsAreOneToOne(g: bv64 -> bv64)
    requires Injective(g)
    ensures A.StepsOneToOne(Register(g))
  {
  }

  lemma SumsStayNarrow()
    ensures A.StaysNarrow(Castagnoli())
  {
    var m := Castagnoli();
    forall a: bv64, b: bv64 | m.narrow(a, 4) && m.narrow(b, 4)
      ensures m.narrow(m.add(a, b), 4)
    {
      XorIsNarrow(a, b);
    }
  }

  lemma BytesSeparate()
    ensures A.Separates(Castagnoli())
  {
    var m := Castagnoli();
    forall b: byte, c: byte
      ensures m.embed(b) == m.embed(c) ==> b == c
    {
      EmbedIsOneToOne(b, c);
    }
    forall b: byte, c: byte, v: bv64, w: bv64 | m.narrow(v, 7) && m.narrow(w, 7)
      ensures m.add(m.embed(b), m.shift(v)) == m.add(m.embed(c), m.shift(w)) ==> b == c && v == w
    {
      ByteAndWordSeparate(b, c, v, w);
    }
  }

  lemma CastagnoliIsLinear()
    ensures A.Linear(Castagnoli())
  {
    XorIsAssociative();
    EightStepsPass();
    RegisterPasses(EightSteps);
    RegisterWidens();
    RegisterGrows();
  }

  lemma CastagnoliIsOneToOne()
    ensures A.OneToOne(Castagnoli())
  {
    XorIsCancelling();
    EightStepsAreInjective();
    StepsAreOneToOne(EightSteps);
    SumsStayNarrow();
    BytesSeparate();
  }

  lemma {:induction false} FoldIsState(s: bv64, data: seq<byte>)
    ensures A.Fold(Castagnoli(), s, data) == C.CrcState(s, data)
    decreases |data|
  {
    if data != [] {
      FoldIsState(EightSteps(s ^ (data[0] as bv64)), data[1..]);
    }
  }

  /** _mm_crc32_u64, _u32, _u16, _u8: by the length of the operand, loaded in little-endian order. */
  function Instruction(s: bv64, operand: seq<byte>): bv64
    requires operand != []
  {
    A.Repeat(Castagnoli(), s ^ A.Word(Castagnoli(), operand), |operand|)
  }

  lemma InstructionIsBytes(s: bv64, operand: seq<byte>)
    requires 0 < |operand| <= 8
    ensures Instruction(s, operand) == C.CrcState(s, operand)
  {
    CastagnoliIsLinear();
    A.WordIsBytes(Castagnoli(), s, operand);
    FoldIsState(s, operand);
  }

  // tr_crc32c_update_sse42: eight bytes at a time, then four, two and one
  method UpdateSse42(state: bv64, data: seq<byte>) returns (r: bv64)
    ensures r == C.CrcState(state, data)
  {
    r := state;
    var i := 0;
    while |data| - i >= 8
      invariant 0 <= i <= |data| && Absorbed(state, data, i, r)
    {
      r := Consume(state, data, i, 8, r);
      i := i + 8;
    }
    if |data| - i >= 4 {
      r := Consume(state, data, i, 4, r);
      i := i + 4;
    }
    if |data| - i >= 2 {
      r := Consume(state, data, i, 2, r);
      i := i + 2;
    }
    if i < |data| {
      r := Consume(state, data, i, 1, r);
      i := i + 1;
    }
    AllAbsorbed(state, data, i, r);
  }

  /** `r` is the state after the first `i` bytes. */
  ghost predicate Absorbed(state: bv64, data: seq<byte>, i: nat, r: bv64) {
    i <= |data| && r == C.CrcState(state, data[..i])
  }

  lemma AllAbsorbed(state: bv64, data: seq<byte>, i: nat, r: bv64)
    requires Absorbed(state, data, i, r) && i == |data|
    ensures r == C.CrcState(state, data)
  {
    assert data[..i] == data;
  }

  /** One instruction on the next `n` bytes. */
  method Consume(ghost state: bv64, data: seq<byte>, i: nat, n: nat, s: bv64) returns (r: bv64)
    requires 0 < n <= 8 && i + n <= |data| && Absorbed(state, data, i, s)
    ensures Absorbed(state, data, i + n, r)
  {
    r := Instruction(s, data[i..i + n]);
    InstructionIsBytes(s, data[i..i + n]);
    C.StateSplits(state, data[..i], data[i..i + n]);
    assert data[..i] + data[i..i + n] == data[..i + n];
  }

  // Detection.

  lemma StateIsNarrow(s: bv64, data: seq<byte>)
    requires Narrow(s, 4)
    ensures Narrow(C.CrcState(s, data), 4)
  {
    CastagnoliIsLinear();
    CastagnoliIsOneToOne();
    A.FoldIsNarrow(Castagnoli(), s, data);
    FoldIsState(s, data);
  }

  lemma WindowDiffers(s: bv64, x: seq<byte>, y: seq<byte>)
    requires Narrow(s, 4) && 0 < |x| == |y| <= 4 && x != y
    ensures C.CrcState(s, x) != C.CrcState(s, y)
  {
    CastagnoliIsLinear();
    CastagnoliIsOneToOne();
    A.WindowIsDetected(Castagnoli(), s, x, y);
    FoldIsState(s, x);
    FoldIsState(s, y);
  }

  lemma TailKeepsDifference(s: bv64, t: bv64, data: seq<byte>)
    requires Narrow(s, 4) && Narrow(t, 4) && s != t
    ensures C.CrcState(s, data) != C.CrcState(t, data)
  {
    CastagnoliIsLinear();
    CastagnoliIsOneToOne();
    A.FoldIsOneToOne(Castagnoli(), s, t, data);
    FoldIsState(s, data);
    FoldIsState(t, data);
  }

  lemma BeginIsNarrow()
    ensures Narrow(C.BEGIN, 4)
  {
  }

  lemma FinishIsOneToOne(a: bv64, b: bv64)
    ensures C.Finish(a) == C.Finish(b) ==> a == b
  {
  }

  lemma WindowReachesEnd(p: seq<byte>, x: seq<byte>, y: seq<byte>, q: seq<byte>)
    requires 0 < |x| == |y| <= 4 && x != y
    ensures C.Crc(p + x + q) != C.Crc(p + y + q)
  {
    BeginIsNarrow();
    StateIsNarrow(C.BEGIN, p);
    var s := C.CrcState(C.BEGIN, p);
    WindowDiffers(s, x, y);
    StateIsNarrow(s, x);
    StateIsNarrow(s, y);
    TailKeepsDifference(C.CrcState(s, x), C.CrcState(s, y), q);
    C.StateSplits(C.BEGIN, p, x);
    C.StateSplits(C.BEGIN, p, y);
    C.StateSplits(C.BEGIN, p + x, q);
    C.StateSplits(C.BEGIN, p + y, q);
    FinishIsOneToOne(C.CrcState(C.BEGIN, p + x + q), C.CrcState(C.BEGIN, p + y + q));
  }

  /** Two strings of equal length that differ, but only within four consecutive bytes, have different
      checksums. */
  lemma BurstIsDetected(a: seq<byte>, b: seq<byte>, i: nat)
    requires |a| == |b| && a != b
    requires forall k :: 0 <= k < |a| && !(i <= k < i + 4) ==> a[k] == b[k]
    ensures C.Crc(a) != C.Crc(b)
  {
    var from := if i < |a| then i else |a|;
    var to := if i + 4 < |a| then i + 4 else |a|;
    assert a == a[..from] + a[from..to] + a[to..];
    assert b == b[..from] + b[from..to] + b[to..];
    assert a[..from] == b[..from] && a[to..] == b[to..];
    WindowReachesEnd(a[..from], a[from..to], b[from..to], a[to..]);
  }
}
