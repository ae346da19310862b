/** What the start value and the final complement of CRC32C mean. */
module CrcMeaning {
  import opened Crc32cTable
  import C = Crc32c
  import A = CrcAlgebra
  import opened CrcChunks

  function Complement(b: byte): byte {
    b ^ 0xff
  }

  /** The first four bytes complemented. */
  function Complemented(data: seq<byte>): seq<byte>
    requires |data| >= 4
  {
    [Complement(data[0]), Complement(data[1]), Complement(data[2]), Complement(data[3])] + data[4..]
  }

  lemma {:induction false} WordOfFour<W(!new), B(!new)>(m: A.Machine<W, B>, w: seq<B>)
    requires |w| == 4
    ensures A.Word(m, w) ==
      m.add(m.embed(w[0]), m.shift(m.add(m.embed(w[1]), m.shift(m.add(m.embed(w[2]), m.shift(m.embed(w[3])))))))
  {
    assert A.Word(m, w[3..]) == m.embed(w[3]);
    assert w[2..][1..] == w[3..] && w[1..][1..] == w[2..];
    assert A.Word(m, w[2..]) == m.add(m.embed(w[2]), m.shift(m.embed(w[3])));
  }

  function Four(a: byte, b: byte, c: byte, d: byte): bv64 {
    (a as bv64) ^ (((b as bv64) ^ (((c as bv64) ^ ((d as bv64) << 8)) << 8)) << 8)
  }

  lemma WordIsFour(w: seq<byte>)
    requires |w| == 4
    ensures A.Word(Castagnoli(), w) == Four(w[0], w[1], w[2], w[3])
  {
    WordOfFour(Castagnoli(), w);
  }

  lemma OnesComplementBytes(a: byte, b: byte, c: byte, d: byte)
    ensures 0xffff_ffff ^ Four(a, b, c, d) == 0 ^ Four(a ^ 0xff, b ^ 0xff, c ^ 0xff, d ^ 0xff)
  {
  }

  lemma WordsComplement(w: seq<byte>, v: seq<byte>)
    requires |w| == |v| == 4 && forall i :: 0 <= i < 4 ==> v[i] == Complement(w[i])
    ensures Xor(C.BEGIN, A.Word(Castagnoli(), w)) == Xor(0, A.Word(Castagnoli(), v))
  {
    WordIsFour(w);
    WordIsFour(v);
    OnesComplementBytes(w[0], w[1], w[2], w[3]);
  }

  /** State and operand matter only through their sum. */
  lemma SameSum<W(!new), B(!new)>(m: A.Machine<W, B>, s: W, w: seq<B>, t: W, v: seq<B>)
    requires A.Linear(m) && 0 < |w| == |v| <= 8 && m.add(s, A.Word(m, w)) == m.add(t, A.Word(m, v))
    ensures A.Fold(m, s, w) == A.Fold(m, t, v)
  {
    A.WordIsBytes(m, s, w);
    A.WordIsBytes(m, t, v);
  }

  lemma StartIsComplement(w: seq<byte>, v: seq<byte>)
    requires |w| == |v| == 4 && forall i :: 0 <= i < 4 ==> v[i] == Complement(w[i])
    ensures C.CrcState(C.BEGIN, w) == C.CrcState(0, v)
  {
    CastagnoliIsLinear();
    WordsComplement(w, v);
    SameSum(Castagnoli(), C.BEGIN, w, 0, v);
    FoldIsState(C.BEGIN, w);
    FoldIsState(0, v);
  }

  /** Section 12.1 of RFC 3720: starting from all ones is starting from zero with the first four bytes complemented. */
  lemma BeginIsComplement(data: seq<byte>)
    requires |data| >= 4
    ensures C.CrcState(C.BEGIN, data) == C.CrcState(0, Complemented(data))
  {
    var v := Complemented(data);
    assert data == data[..4] + data[4..] && v == v[..4] + data[4..];
    StartIsComplement(data[..4], v[..4]);
    C.StateSplits(C.BEGIN, data[..4], data[4..]);
    C.StateSplits(0, v[..4], data[4..]);
  }

  /** The next byte of `data` takes the state from `s` to `t`. */
  lemma Absorb(data: seq<byte>, s: bv64, t: bv64)
    requires data != [] && EightSteps(s ^ (data[0] as bv64)) == t
    ensures C.CrcState(s, data) == C.CrcState(t, data[1..])
  {
  }

  lemma Digits0()
    ensures EightSteps(0xffffffff ^ 0x31) == 0x6f0a661c
    ensures EightSteps(0x6f0a661c ^ 0x32) == 0x8caa3b9f
    ensures EightSteps(0x8caa3b9f ^ 0x33) == 0xef84d04d
  {
  }

  lemma Digits1()
    ensures EightSteps(0xef84d04d ^ 0x34) == 0x09c50b11
    ensures EightSteps(0x09c50b11 ^ 0x35) == 0xe72edcca
    ensures EightSteps(0xe72edcca ^ 0x36) == 0xbeca8e79
  {
  }

  lemma Digits2()
    ensures EightSteps(0xbeca8e79 ^ 0x37) == 0xedbd6815
    ensures EightSteps(0xedbd6815 ^ 0x38) == 0x9f787f65
    ensures EightSteps(0x9f787f65 ^ 0x39) == 0x1cf96d7c
  {
  }

  const DIGITS: seq<byte> := [0x31, 0x32, 0x33, 0x34, 0x35, 0x36, 0x37, 0x38, 0x39]

  lemma DigitState0()
    ensures C.CrcState(0xffffffff, DIGITS) == C.CrcState(0xef84d04d, DIGITS[3..])
  {
    Digits0();
    Absorb(DIGITS, 0xffffffff, 0x6f0a661c);
    assert DIGITS[1..][0] == 0x32 && DIGITS[1..][1..] == DIGITS[2..];
    Absorb(DIGITS[1..], 0x6f0a661c, 0x8caa3b9f);
    assert DIGITS[2..][0] == 0x33 && DIGITS[2..][1..] == DIGITS[3..];
    Absorb(DIGITS[2..], 0x8caa3b9f, 0xef84d04d);
  }

  lemma DigitState1()
    ensures C.CrcState(0xef84d04d, DIGITS[3..]) == C.CrcState(0xbeca8e79, DIGITS[6..])
  {
    Digits1();
    assert DIGITS[3..][0] == 0x34 && DIGITS[3..][1..] == DIGITS[4..];
    Absorb(DIGITS[3..], 0xef84d04d, 0x09c50b11);
    assert DIGITS[4..][0] == 0x35 && DIGITS[4..][1..] == DIGITS[5..];
    Absorb(DIGITS[4..], 0x09c50b11, 0xe72edcca);
    assert DIGITS[5..][0] == 0x36 && DIGITS[5..][1..] == DIGITS[6..];
    Absorb(DIGITS[5..], 0xe72edcca, 0xbeca8e79);
  }

  lemma DigitState2()
    ensures C.CrcState(0xbeca8e79, DIGITS[6..]) == C.CrcState(0x1cf96d7c, DIGITS[9..])
  {
    Digits2();
    assert DIGITS[6..][0] == 0x37 && DIGITS[6..][1..] == DIGITS[7..];
    Absorb(DIGITS[6..], 0xbeca8e79, 0xedbd6815);
    assert DIGITS[7..][0] == 0x38 && DIGITS[7..][1..] == DIGITS[8..];
    Absorb(DIGITS[7..], 0xedbd6815, 0x9f787f65);
    assert DIGITS[8..][0] == 0x39 && DIGITS[8..][1..] == DIGITS[9..];
    Absorb(DIGITS[8..], 0x9f787f65, 0x1cf96d7c);
  }

  /** The published check value: the checksum of the digits 1 to 9. */
  lemma CheckValue()
    ensures C.Crc(DIGITS) == 0xe306_9283
  {
    DigitState0();
    DigitState1();
    DigitState2();
    assert DIGITS[9..] == [];
  }

  /** `v` in little-endian order. */
  function LittleEndian(v: bv64): seq<byte> {
    [(v & 0xff) as byte, ((v >> 8) & 0xff) as byte, ((v >> 16) & 0xff) as byte, ((v >> 24) & 0xff) as byte]
  }

  lemma FourBytes(v: bv64, a: byte, b: byte, c: byte, d: byte)
    requires v <= 0xffff_ffff && a == (v & 0xff) as byte && b == ((v >> 8) & 0xff) as byte
    requires c == ((v >> 16) & 0xff) as byte && d == ((v >> 24) & 0xff) as byte
    ensures Four(a, b, c, d) == v
  {
  }

  lemma ComplementStaysNarrow(s: bv64)
    requires s <= 0xffff_ffff
    ensures s ^ 0xffff_ffff <= 0xffff_ffff && s ^ (s ^ 0xffff_ffff) == 0xffff_ffff
  {
  }

  lemma OnesThrough()
    ensures EightSteps(0xffffffff) == 0xad82acae && EightSteps(0xad82acae) == 0xe9e882d
    ensures EightSteps(0xe9e882d) == 0x9f9b5c85 && EightSteps(0x9f9b5c85) == 0xb798b438
  {
  }

  /** A message followed by its checksum in little-endian order has the same checksum whatever the message. */
  lemma ChecksumLeavesResidue(data: seq<byte>)
    ensures C.Crc(data + LittleEndian(C.Crc(data))) == 0x48674bc7
  {
    var s := C.CrcState(C.BEGIN, data);
    var v := C.Crc(data);
    var w := LittleEndian(v);
    BeginIsNarrow();
    StateIsNarrow(C.BEGIN, data);
    ComplementStaysNarrow(s);
    FourBytes(v, w[0], w[1], w[2], w[3]);
    WordIsFour(w);
    InstructionIsBytes(s, w);
    OnesThrough();
    C.StateSplits(C.BEGIN, data, w);
  }
}
