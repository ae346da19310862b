/** The slice walks of reactor.c that checksum and gather one frame out of a message's payload slices. */
module TxSlices {
  import opened TxFrames
  import C = Crc32c

  /** The payload bytes from offset `pos` of slice `i` on. */
  ghost predicate At(slices: seq<seq<byte>>, i: nat, pos: nat, rest: seq<byte>) {
    i <= |slices| && pos <= |Flatten(slices[i..])| && Flatten(slices[i..])[pos..] == rest
  }

  lemma Skip(slices: seq<seq<byte>>, i: nat, pos: nat, rest: seq<byte>)
    requires At(slices, i, pos, rest) && i < |slices| && |slices[i]| <= pos
    ensures At(slices, i + 1, pos - |slices[i]|, rest)
  {
    assert slices[i..][1..] == slices[i + 1..];
  }

  lemma Enter(slices: seq<seq<byte>>, i: nat, pos: nat, rest: seq<byte>)
    requires At(slices, i, pos, rest) && i < |slices| && pos < |slices[i]|
    ensures rest == slices[i][pos..] + Flatten(slices[i + 1..])
  {
    assert slices[i..][1..] == slices[i + 1..];
  }

  lemma Take(slices: seq<seq<byte>>, i: nat, pos: nat, rest: seq<byte>, take: nat)
    requires At(slices, i, pos, rest) && i < |slices| && pos < |slices[i]| && take <= |slices[i]| - pos
    ensures take <= |rest| && slices[i][pos..pos + take] == rest[..take]
    ensures pos + take == |slices[i]| ==> At(slices, i + 1, 0, rest[take..])
  {
    Enter(slices, i, pos, rest);
  }

  lemma Start(slices: seq<seq<byte>>, pos: nat)
    requires pos <= |Flatten(slices)|
    ensures At(slices, 0, pos, Flatten(slices)[pos..])
  {
    assert slices[0..] == slices;
  }

  /** A walk that stops with bytes still wanted has run off the end, where there are none. */
  lemma Finished(slices: seq<seq<byte>>, i: nat, pos: nat, rest: seq<byte>, remaining: nat)
    requires remaining != 0 ==> At(slices, i, pos, rest)
    requires remaining == 0 || i == |slices|
    requires remaining <= |rest|
    ensures remaining == 0
  {
    assert slices[|slices|..] == [];
  }

  /** `got` are the first `n` bytes of `all`, and `rest` the others. */
  ghost predicate Walked(all: seq<byte>, got: seq<byte>, rest: seq<byte>, n: int) {
    0 <= n <= |all| && got == all[..n] && rest == all[n..]
  }

  lemma Walk(all: seq<byte>, got: seq<byte>, rest: seq<byte>, n: int, take: nat)
    requires Walked(all, got, rest, n) && take <= |rest|
    ensures Walked(all, got + rest[..take], rest[take..], n + take)
  {
  }

  /** `state` is the running checksum of `data`. */
  ghost predicate Running(state: bv64, data: seq<byte>) {
    state == C.CrcState(C.BEGIN, data)
  }

  method Absorb(state: bv64, piece: seq<byte>, ghost got: seq<byte>) returns (next: bv64)
    requires Running(state, got)
    ensures Running(next, got + piece)
  {
    next := C.UpdatePortable(state, piece);
    C.StateSplits(C.BEGIN, got, piece);
  }

  lemma NothingAbsorbed()
    ensures Running(C.BEGIN, [])
  {
  }

  method Conclude(state: bv64, ghost data: seq<byte>) returns (crc: bv64)
    requires Running(state, data)
    ensures crc == C.Crc(data)
  {
    crc := C.Finish(state);
  }

  // tr_tx_crc_range
  method CrcRange(slices: seq<seq<byte>>, start: nat, len: nat) returns (crc: bv64)
    requires start + len <= |Flatten(slices)|
    ensures crc == C.Crc(Flatten(slices)[start..][..len])
  {
    ghost var all := Flatten(slices)[start..];
    ghost var got, rest := [], all;
    var state := C.BEGIN;
    var pos: nat := start;
    var remaining: nat := len;
    var i: nat := 0;
    Start(slices, start);
    NothingAbsorbed();
    while i < |slices| && remaining != 0
      invariant 0 <= i <= |slices| && remaining <= |rest|
      invariant Walked(all, got, rest, len - remaining)
      invariant remaining != 0 ==> At(slices, i, pos, rest)
      invariant Running(state, got)
    {
      if pos >= |slices[i]| {
        Skip(slices, i, pos, rest);
        pos := pos - |slices[i]|;
      } else {
        var take := |slices[i]| - pos;
        if take > remaining {
          take := remaining;
        }
        var piece := slices[i][pos..pos + take];
        Take(slices, i, pos, rest, take);
        Walk(all, got, rest, len - remaining, take);
        state := Absorb(state, piece, got);
        got, rest := got + piece, rest[take..];
        remaining := remaining - take;
        pos := 0;
      }
      i := i + 1;
    }
    Finished(slices, i, pos, rest, remaining);
    crc := 0;
    if remaining == 0 {
      crc := Conclude(state, got);
    }
  }

  /** The contents of a scatter-gather list. */
  function Gathered<T>(iov: seq<seq<T>>): seq<T> {
    if iov == [] then [] else Gathered(iov[..|iov| - 1]) + iov[|iov| - 1]
  }

  lemma GatherOne<T>(iov: seq<seq<T>>, x: seq<T>)
    ensures Gathered(iov + [x]) == Gathered(iov) + x
  {
    assert (iov + [x])[..|iov|] == iov;
  }

  lemma AppendPayload(a: seq<byte>, b: seq<byte>)
    ensures PayloadOctets(a + b) == PayloadOctets(a) + PayloadOctets(b)
  {
  }

  function OctetPieces(pieces: seq<seq<byte>>): (iov: seq<seq<Octet>>)
    ensures |iov| == |pieces|
  {
    if pieces == [] then []
    else OctetPieces(pieces[..|pieces| - 1]) + [PayloadOctets(pieces[|pieces| - 1])]
  }

  lemma {:induction false} GatherOctets(pieces: seq<seq<byte>>)
    ensures Gathered(OctetPieces(pieces)) == PayloadOctets(Gathered(pieces))
  {
    if pieces != [] {
      var init := pieces[..|pieces| - 1];
      GatherOctets(init);
      GatherOne(OctetPieces(init), PayloadOctets(pieces[|pieces| - 1]));
      AppendPayload(Gathered(init), pieces[|pieces| - 1]);
    }
  }

  lemma {:induction false} GatherHead(x: seq<Octet>, iov: seq<seq<Octet>>)
    ensures Gathered([x] + iov) == x + Gathered(iov)
  {
    if iov == [] {
      assert ([x] + iov)[..0] == [];
    } else {
      GatherHead(x, iov[..|iov| - 1]);
      assert ([x] + iov)[..|iov|] == [x] + iov[..|iov| - 1];
    }
  }

  // The slice walk of tr_tx_build_iov.
  method GatherPayload(slices: seq<seq<byte>>, start: nat, len: nat) returns (pieces: seq<seq<byte>>)
    requires start + len <= |Flatten(slices)|
    ensures Gathered(pieces) == Flatten(slices)[start..][..len]
    ensures |pieces| <= |slices|
  {
    pieces := [];
    ghost var all := Flatten(slices)[start..];
    ghost var got, rest := [], all;
    var pos: nat := start;
    var remaining: nat := len;
    var i: nat := 0;
    Start(slices, start);
    while i < |slices| && remaining != 0
      invariant 0 <= i <= |slices| && remaining <= |rest|
      invariant Walked(all, got, rest, len - remaining)
      invariant remaining != 0 ==> At(slices, i, pos, rest)
      invariant Gathered(pieces) == got && |pieces| <= i
    {
      if pos >= |slices[i]| {
        Skip(slices, i, pos, rest);
        pos := pos - |slices[i]|;
      } else {
        var take := |slices[i]| - pos;
        if take > remaining {
          take := remaining;
        }
        var piece := slices[i][pos..pos + take];
        Take(slices, i, pos, rest, take);
        Walk(all, got, rest, len - remaining, take);
        GatherOne(pieces, piece);
        pieces := pieces + [piece];
        got, rest := got + piece, rest[take..];
        remaining := remaining - take;
        pos := 0;
      }
      i := i + 1;
    }
    Finished(slices, i, pos, rest, remaining);
  }

  // tr_tx_build_iov: the unsent octets of the frame, gathered from the header and the slices
  method BuildIov(slices: seq<seq<byte>>, header: Header, pos: nat, wirePos: nat) returns (iov: seq<seq<Octet>>)
    requires pos + header.payloadLen <= |Flatten(slices)|
    requires wirePos < HEADER_SIZE + header.payloadLen
    ensures Gathered(iov) == Octets(Frame(header, Flatten(slices)[pos..pos + header.payloadLen]))[wirePos..]
    ensures 0 < |iov| <= 1 + |slices|
  {
    FrameTail(header, Flatten(slices), pos, wirePos);
    if wirePos < HEADER_SIZE {
      var pieces := GatherPayload(slices, pos, header.payloadLen);
      var head := EncodeHeader(header)[wirePos..];
      iov := [head] + OctetPieces(pieces);
      GatherOctets(pieces);
      GatherHead(head, OctetPieces(pieces));
    } else {
      var skip := wirePos - HEADER_SIZE;
      var pieces := GatherPayload(slices, pos + skip, header.payloadLen - skip);
      iov := OctetPieces(pieces);
      GatherOctets(pieces);
      assert Gathered(iov) != [];
    }
  }

  lemma DropPayload(data: seq<byte>, pos: nat)
    requires pos <= |data|
    ensures PayloadOctets(data)[pos..] == PayloadOctets(data[pos..])
  {
  }

  lemma DropFrom(a: seq<Octet>, b: seq<Octet>, k: nat)
    requires k <= |a| + |b|
    ensures (a + b)[k..] == if k < |a| then a[k..] + b else b[k - |a|..]
  {
  }

  lemma SubRange(body: seq<byte>, from: nat, len: nat, pos: nat)
    requires from + len <= |body| && pos <= len
    ensures body[from + pos..][..len - pos] == body[from..from + len][pos..]
  {
  }

  lemma FrameTail(header: Header, body: seq<byte>, pos0: nat, wirePos: nat)
    requires pos0 + header.payloadLen <= |body| && wirePos < HEADER_SIZE + header.payloadLen
    ensures var wire := Octets(Frame(header, body[pos0..pos0 + header.payloadLen]));
      var pos := if wirePos < HEADER_SIZE then 0 else wirePos - HEADER_SIZE;
      var head := if wirePos < HEADER_SIZE then EncodeHeader(header)[wirePos..] else [];
      head + PayloadOctets(body[pos0 + pos..][..header.payloadLen - pos]) == wire[wirePos..]
  {
    var payload := body[pos0..pos0 + header.payloadLen];
    DropFrom(EncodeHeader(header), PayloadOctets(payload), wirePos);
    if wirePos < HEADER_SIZE {
      SubRange(body, pos0, header.payloadLen, 0);
    } else {
      SubRange(body, pos0, header.payloadLen, wirePos - HEADER_SIZE);
      DropPayload(payload, wirePos - HEADER_SIZE);
    }
  }

  lemma {:induction false} GatheredPrefix(iov: seq<seq<Octet>>, i: nat)
    requires i <= |iov|
    ensures Gathered(iov[..i]) <= Gathered(iov)
    decreases |iov| - i
  {
    if i == |iov| {
      assert iov[..i] == iov;
    } else {
      GatheredPrefix(iov, i + 1);
      assert iov[..i + 1] == iov[..i] + [iov[i]];
      GatherOne(iov[..i], iov[i]);
    }
  }

  /** The budget cap on one system call: cut the gathered octets at `budget`. */
  method Clip(iov: seq<seq<Octet>>, budget: nat) returns (capped: seq<seq<Octet>>)
    requires 0 < budget
    ensures Gathered(capped) <= Gathered(iov)
    ensures |Gathered(capped)| == if |Gathered(iov)| < budget then |Gathered(iov)| else budget
  {
    var remaining := budget;
    var i := 0;
    while i < |iov|
      invariant 0 <= i <= |iov| && 0 < remaining == budget - |Gathered(iov[..i])|
    {
      assert iov[..i + 1] == iov[..i] + [iov[i]];
      GatherOne(iov[..i], iov[i]);
      if |iov[i]| >= remaining {
        capped := iov[..i] + [iov[i][..remaining]];
        GatherOne(iov[..i], iov[i][..remaining]);
        GatheredPrefix(iov, i + 1);
        return;
      }
      remaining := remaining - |iov[i]|;
      i := i + 1;
    }
    assert iov[..i] == iov;
    capped := iov;
  }
}
