/** Messages, frames and octets of the TX path (reactor.c, tr_tx_prepare_frame): how one message is
    cut into frames, as a function of the message alone. The 40 header octets are kept symbolic:
    the k-th octet of an encoded header is `HeaderOctet(header, k)`. */
module TxFrames {
  import C = Crc32c

  type byte = C.byte

  /** A payload checksum. Nothing about framing depends on which; Crc32c.Crc is the one in use. */
  type Checksum = seq<byte> -> bv64

  const HEADER_SIZE: nat := 40
  const MAX_TX_SLICES: nat := 4
  const TWO_32: nat := 0x1_0000_0000

  datatype FrameType =
    | Data | StreamOpen | StreamClose | WindowUpdate | Ping | Pong | Error | Hello | HelloAck
    | Goaway | Bind | BindAck | PipelineControl | StreamReset | StreamRefused

  datatype Flags = Flags(first: bool, last: bool, laneBulk: bool)

  const NO_FLAGS := Flags(false, false, false)

  datatype Header = Header(kind: FrameType, flags: Flags, stream: nat, message: nat, payloadLen: nat, payloadCrc: bv64)

  datatype Octet = HeaderOctet(header: Header, position: nat) | PayloadOctet(value: byte)

  datatype Frame = Frame(header: Header, payload: seq<byte>)

  /** The part of struct tr_tx_item that a send fixes: payload slices and addressing. */
  datatype Message = Message(
    kind: FrameType, flags: Flags, stream: nat, messageId: nat, slices: seq<seq<byte>>, maxFrame: nat)

  function Flatten(slices: seq<seq<byte>>): seq<byte> {
    if slices == [] then [] else slices[0] + Flatten(slices[1..])
  }

  function Body(m: Message): seq<byte> {
    Flatten(m.slices)
  }

  /** What tr_reactor_sendv_limited admits: up to four slices of less than 2^32 bytes in all, a nonzero frame
      limit, and a control message in one frame. */
  predicate Sendable(m: Message) {
    && |m.slices| <= MAX_TX_SLICES && |Body(m)| < TWO_32
    && 0 < m.maxFrame && (!m.kind.Data? ==> |Body(m)| <= m.maxFrame)
  }

  function FrameLen(m: Message, pos: nat): (len: nat)
    requires pos <= |Body(m)|
    ensures pos + len <= |Body(m)|
  {
    if |Body(m)| - pos > m.maxFrame then m.maxFrame else |Body(m)| - pos
  }

  function Chunk(m: Message, pos: nat): seq<byte>
    requires pos <= |Body(m)|
  {
    Body(m)[pos..pos + FrameLen(m, pos)]
  }

  function FrameFlags(m: Message, pos: nat): Flags
    requires pos <= |Body(m)|
  {
    if m.kind.Data? then Flags(pos == 0, pos + FrameLen(m, pos) == |Body(m)|, m.flags.laneBulk) else m.flags
  }

  // tr_tx_prepare_frame
  function HeaderAt(crc: Checksum, m: Message, pos: nat): Header
    requires pos <= |Body(m)|
  {
    Header(m.kind, FrameFlags(m, pos), m.stream, m.messageId, FrameLen(m, pos), crc(Chunk(m, pos)))
  }

  function FrameAt(crc: Checksum, m: Message, pos: nat): Frame
    requires pos <= |Body(m)|
  {
    Frame(HeaderAt(crc, m, pos), Chunk(m, pos))
  }

  function EncodeHeader(h: Header): (octets: seq<Octet>)
    ensures |octets| == HEADER_SIZE
  {
    seq(HEADER_SIZE, k requires 0 <= k < HEADER_SIZE => HeaderOctet(h, k))
  }

  function PayloadOctets(data: seq<byte>): (octets: seq<Octet>)
    ensures |octets| == |data|
  {
    seq(|data|, i requires 0 <= i < |data| => PayloadOctet(data[i]))
  }

  function Octets(f: Frame): seq<Octet> {
    EncodeHeader(f.header) + PayloadOctets(f.payload)
  }

  /** The frames of a message from payload position `pos` on: the reference for fragmentation. */
  function Fragments(crc: Checksum, m: Message, pos: nat): seq<Frame>
    requires Sendable(m) && pos <= |Body(m)|
    decreases |Body(m)| - pos
  {
    var next := pos + FrameLen(m, pos);
    [FrameAt(crc, m, pos)] + if next < |Body(m)| then Fragments(crc, m, next) else []
  }

  function Payloads(frames: seq<Frame>): seq<byte> {
    if frames == [] then [] else frames[0].payload + Payloads(frames[1..])
  }

  lemma SplitTail(body: seq<byte>, pos: nat, next: nat)
    requires pos <= next <= |body|
    ensures body[pos..next] + body[next..] == body[pos..]
  {
  }

  lemma PayloadsOfCons(f: Frame, rest: seq<Frame>)
    ensures Payloads([f] + rest) == f.payload + Payloads(rest)
  {
    assert ([f] + rest)[1..] == rest;
  }

  /** The payloads of the frames concatenate to exactly the remaining message. */
  lemma {:induction false} FragmentsCoverMessage(crc: Checksum, m: Message, pos: nat)
    requires Sendable(m) && pos <= |Body(m)|
    ensures Payloads(Fragments(crc, m, pos)) == Body(m)[pos..]
    decreases |Body(m)| - pos
  {
    var next := pos + FrameLen(m, pos);
    if next < |Body(m)| {
      FragmentsCoverMessage(crc, m, next);
      SplitTail(Body(m), pos, next);
      PayloadsOfCons(FrameAt(crc, m, pos), Fragments(crc, m, next));
    } else {
      PayloadsOfCons(FrameAt(crc, m, pos), []);
    }
  }

  /** A header names its message: type, stream and message id, for DATA the lane, for control all flags. */
  predicate Names(h: Header, m: Message) {
    && h.kind == m.kind && h.stream == m.stream && h.message == m.messageId
    && (if m.kind.Data? then h.flags.laneBulk == m.flags.laneBulk else h.flags == m.flags)
  }

  /** Each frame names its message, is within the limit and full unless it is the last, carries the checksum of its
      own payload, and for DATA only the first is marked FIRST and only the last LAST. */
  lemma {:induction false} FragmentsAreWellFormed(crc: Checksum, m: Message, pos: nat, k: nat)
    requires Sendable(m) && pos <= |Body(m)|
    requires k < |Fragments(crc, m, pos)|
    ensures var frames := Fragments(crc, m, pos); var f := frames[k];
      && Names(f.header, m)
      && |f.payload| == f.header.payloadLen <= m.maxFrame && (k < |frames| - 1 ==> |f.payload| == m.maxFrame)
      && f.header.payloadCrc == crc(f.payload)
      && (m.kind.Data? ==>
            && (f.header.flags.first <==> k == 0 && pos == 0)
            && (f.header.flags.last <==> k == |frames| - 1))
      && (!m.kind.Data? ==> f.header.flags == m.flags && (pos == 0 ==> |frames| == 1))
    decreases k
  {
    var next := pos + FrameLen(m, pos);
    if k != 0 {
      FragmentsAreWellFormed(crc, m, next, k - 1);
    }
  }
}
