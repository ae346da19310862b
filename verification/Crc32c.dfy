/** CRC32C (crc32c.c): the bitwise recurrence as reference and the table loop.

    A uint32_t state is a 64-bit register whose upper half is zero (CrcChunks.StateIsNarrow). The theory is
    stated for any byte step `g` and table `t` related by `TableLaw`; EightSteps and Table of
    Crc32cTable are. */
module Crc32c {
  import opened Crc32cTable

  type byte = bv8

  ghost predicate TableLaw(g: bv64 -> bv64, t: bv8 -> bv32) {
    forall v {:trigger g(v)} :: g(v) == (v >> 8) ^ (t((v & 0xff) as bv8) as bv64)
  }

  lemma CastagnoliTableLaw()
    ensures TableLaw(EightSteps, Table)
  {
    forall v: bv64
      ensures EightSteps(v) == (v >> 8) ^ (Table((v & 0xff) as bv8) as bv64)
    {
      TableIsEightSteps(v, (v & 0xff) as bv8);
    }
  }

  /** Eight bits of input enter the register from below. */
  function ByteStep(g: bv64 -> bv64, s: bv64, b: byte): bv64 {
    g(s ^ (b as bv64))
  }

  function Fold(g: bv64 -> bv64, s: bv64, data: seq<byte>): bv64
    decreases |data|
  {
    if data == [] then s else Fold(g, ByteStep(g, s, data[0]), data[1..])
  }

  /** Reference: the running state of the bitwise recurrence after `data`. */
  function CrcState(s: bv64, data: seq<byte>): bv64 {
    Fold(EightSteps, s, data)
  }

  // tr_crc32c_begin, tr_crc32c_finish
  const BEGIN: bv64 := 0xffff_ffff

  function Finish(s: bv64): bv64 {
    s ^ 0xffff_ffff
  }

  // tr_crc32c
  function Crc(data: seq<byte>): bv64 {
    Finish(CrcState(BEGIN, data))
  }

  /** The state splits over any segmentation of the input. */
  lemma {:induction false} FoldSplits(g: bv64 -> bv64, s: bv64, a: seq<byte>, b: seq<byte>)
    ensures Fold(g, s, a + b) == Fold(g, Fold(g, s, a), b)
    decreases |a|
  {
    if a == [] {
      assert a + b == b;
    } else {
      assert (a + b)[1..] == a[1..] + b;
      FoldSplits(g, ByteStep(g, s, a[0]), a[1..], b);
    }
  }

  lemma StateSplits(s: bv64, a: seq<byte>, b: seq<byte>)
    ensures CrcState(s, a + b) == CrcState(CrcState(s, a), b)
  {
    FoldSplits(EightSteps, s, a, b);
  }

  // ---------------------------------------------------------------------------------
  // The table loop
  // ---------------------------------------------------------------------------------

  lemma LawAt(g: bv64 -> bv64, t: bv8 -> bv32, v: bv64, i: bv8)
    requires TableLaw(g, t) && i == (v & 0xff) as bv8
    ensures g(v) == (v >> 8) ^ (t(i) as bv64)
  {
  }

  lemma ByteLeavesUpperBits(s: bv64, b: byte)
    ensures (s ^ (b as bv64)) >> 8 == s >> 8
  {
  }

  lemma ByteStepIsTableStep(g: bv64 -> bv64, t: bv8 -> bv32, s: bv64, b: byte, i: bv8)
    requires TableLaw(g, t) && i == ((s ^ (b as bv64)) & 0xff) as bv8
    ensures ByteStep(g, s, b) == (s >> 8) ^ (t(i) as bv64)
  {
    LawAt(g, t, s ^ (b as bv64), i);
    ByteLeavesUpperBits(s, b);
  }

  // tr_crc32c_update_portable
  method UpdatePortable(state: bv64, data: seq<byte>) returns (r: bv64)
    ensures r == CrcState(state, data)
  {
    CastagnoliTableLaw();
    r := state;
    var i := 0;
    while i < |data|
      invariant 0 <= i <= |data|
      invariant CrcState(state, data) == CrcState(r, data[i..])
    {
      var index := ((r ^ (data[i] as bv64)) & 0xff) as bv8;
      ByteStepIsTableStep(EightSteps, Table, r, data[i], index);
      r := (r >> 8) ^ (Table(index) as bv64);
      i := i + 1;
    }
  }
}
