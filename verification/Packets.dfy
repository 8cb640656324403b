/** Packet framing: the 52-byte header of Serializer and PacketParser, and streams of packets. */
module Packets {
  import opened Results
  import TransferTypes
  import opened Bytes

  type byte = TransferTypes.byte

  /** The runtime_error thrown by the parser, whatever its text. */
  datatype PacketError = MalformedPacket

  const ENCODED_SIZE: nat := 52
  const MAGIC: seq<byte> := [0x42, 0x44, 0x52, 0x50]
  const VERSION: nat := 1
  const U64_SIZE: nat := 0x1_0000_0000_0000_0000

  datatype PacketType =
    Hello | FileInfo | ResumeReq | ResumeAck | Data | FileEnd | Finish | Error | Heartbeat | DirectoryInfo

  function TypeCode(t: PacketType): nat {
    match t
    case Hello => 1
    case FileInfo => 2
    case ResumeReq => 3
    case ResumeAck => 4
    case Data => 5
    case FileEnd => 6
    case Finish => 7
    case Error => 8
    case Heartbeat => 9
    case DirectoryInfo => 10
  }

  function ParseType(value: nat): Option<PacketType> {
    match value
    case 1 => Some(Hello)
    case 2 => Some(FileInfo)
    case 3 => Some(ResumeReq)
    case 4 => Some(ResumeAck)
    case 5 => Some(Data)
    case 6 => Some(FileEnd)
    case 7 => Some(Finish)
    case 8 => Some(Error)
    case 9 => Some(Heartbeat)
    case 10 => Some(DirectoryInfo)
    case _ => None
  }

  datatype PacketHeader = PacketHeader(
    magic: seq<byte>, version: nat, kind: PacketType, flags: nat, length: nat, checksum: seq<byte>)

  datatype Packet = Packet(header: PacketHeader, payload: seq<byte>)

  /** The header a default-constructed packet starts from. */
  function FreshPacket(kind: PacketType, payload: seq<byte>): Packet {
    Packet(PacketHeader(MAGIC, VERSION, kind, 0, |payload|, seq(32, _ => 0)), payload)
  }

  /** The widths of the fields, the fixed magic and version, and a length that matches the payload. */
  predicate WellFormed(p: Packet) {
    && p.header.magic == MAGIC && p.header.version == VERSION
    && p.header.flags < 0x1_0000_0000
    && p.header.length == |p.payload| < U64_SIZE - ENCODED_SIZE
    && |p.header.checksum| == 32
  }

  function EncodeHeader(h: PacketHeader, length: nat): seq<byte> {
    h.magic + BigEndian(h.version, 2) + BigEndian(TypeCode(h.kind), 2) + BigEndian(h.flags, 4) + BigEndian(length, 8) + h.checksum
  }

  /** Serializer::encode: the length field is always the payload size. */
  function Encode(p: Packet): seq<byte> {
    EncodeHeader(p.header, |p.payload|) + p.payload
  }

  /** PacketParser::parse; the sum of header and payload size wraps at 2^64. */
  function Decode(bytes: seq<byte>): Result<Packet, PacketError> {
    if |bytes| < ENCODED_SIZE then Err(MalformedPacket)
    else if bytes[0..4] != MAGIC then Err(MalformedPacket)
    else if FromBigEndian(bytes[4..6]) != VERSION then Err(MalformedPacket)
    else match ParseType(FromBigEndian(bytes[6..8]))
      case None => Err(MalformedPacket)
      case Some(kind) =>
        var length := FromBigEndian(bytes[12..20]);
        if |bytes| != (ENCODED_SIZE + length) % U64_SIZE then Err(MalformedPacket)
        else Ok(Packet(PacketHeader(bytes[0..4], VERSION, kind, FromBigEndian(bytes[8..12]), length, bytes[20..52]), bytes[52..]))
  }

  // ---------- the serializer and the parser ----------

  method AppendU16(out: seq<byte>, value: nat) returns (r: seq<byte>)
    ensures r == out + BigEndian(value, 2)
  {
    BigEndianAt(value, 2, 0);
    BigEndianAt(value, 2, 1);
    r := out + [ByteAt(value, 8)];
    r := r + [ByteAt(value, 0)];
  }

  method AppendShifted(out: seq<byte>, value: nat, width: nat) returns (r: seq<byte>)
    requires width > 0
    ensures r == out + BigEndian(value, width)
  {
    hide ByteAt;
    hide BigEndian;
    r := out;
    var shift := 8 * (width - 1);
    ghost var i := 0;
    assert BigEndian(value, width)[..0] == [];
    while shift >= 0
      invariant i <= width && shift == 8 * (width - 1 - i)
      invariant r == out + BigEndian(value, width)[..i]
    {
      BigEndianAt(value, width, i);
      assert BigEndian(value, width)[..i + 1] == BigEndian(value, width)[..i] + [ByteAt(value, shift)];
      r := r + [ByteAt(value, shift)];
      shift := shift - 8;
      i := i + 1;
    }
    assert BigEndian(value, width)[..width] == BigEndian(value, width);
  }

  method Serialize(packet: Packet) returns (out: seq<byte>)
    ensures out == Encode(packet)
  {
    hide BigEndian;
    var header := packet.header.(length := |packet.payload|);
    out := [];
    out := out + header.magic;
    out := AppendU16(out, header.version);
    out := AppendU16(out, TypeCode(header.kind));
    out := AppendShifted(out, header.flags, 4);
    out := AppendShifted(out, header.length, 8);
    out := out + header.checksum;
    out := out + packet.payload;
  }

  /** The shift-accumulate loops read_u32 and read_u64. */
  method ReadBigEndian(bytes: seq<byte>, offset: nat, width: nat) returns (value: nat)
    requires offset + width <= |bytes|
    ensures value == FromBigEndian(bytes[offset..offset + width])
  {
    value := 0;
    for i := 0 to width
      invariant value == FromBigEndian(bytes[offset..offset + i])
    {
      assert bytes[offset..offset + i + 1][..i] == bytes[offset..offset + i];
      value := value * 256 + bytes[offset + i];
    }
  }

  method Parse(bytes: seq<byte>) returns (r: Result<Packet, PacketError>)
    ensures r == Decode(bytes)
  {
    hide FromBigEndian;
    if |bytes| < ENCODED_SIZE {
      return Err(MalformedPacket);
    }
    var offset := 0;
    var magic := [];
    for i := 0 to 4
      invariant offset == i && magic == bytes[0..i]
    {
      magic := magic + [bytes[offset]];
      offset := offset + 1;
    }
    if magic != MAGIC {
      return Err(MalformedPacket);
    }
    var version := ReadBigEndian(bytes, offset, 2);
    offset := offset + 2;
    if version != VERSION {
      return Err(MalformedPacket);
    }
    var code := ReadBigEndian(bytes, offset, 2);
    var kind := ParseType(code);
    if kind.None? {
      return Err(MalformedPacket);
    }
    offset := offset + 2;
    var flags := ReadBigEndian(bytes, offset, 4);
    offset := offset + 4;
    var length := ReadBigEndian(bytes, offset, 8);
    offset := offset + 8;
    var checksum := [];
    for i := 0 to 32
      invariant offset == 20 + i && checksum == bytes[20..20 + i]
    {
      checksum := checksum + [bytes[offset]];
      offset := offset + 1;
    }
    if |bytes| != (ENCODED_SIZE + length) % U64_SIZE {
      return Err(MalformedPacket);
    }
    return Ok(Packet(PacketHeader(magic, version, kind.value, flags, length, checksum), bytes[offset..]));
  }

  // ---------- parse is the inverse of encode ----------

  lemma Fields(h: PacketHeader, length: nat, payload: seq<byte>)
    requires |h.magic| == 4 && |h.checksum| == 32
    ensures var bytes := EncodeHeader(h, length) + payload;
            && |bytes| == ENCODED_SIZE + |payload|
            && bytes[0..4] == h.magic
            && bytes[4..6] == BigEndian(h.version, 2)
            && bytes[6..8] == BigEndian(TypeCode(h.kind), 2)
            && bytes[8..12] == BigEndian(h.flags, 4)
            && bytes[12..20] == BigEndian(length, 8)
            && bytes[20..52] == h.checksum
            && bytes[52..] == payload
  {
    hide BigEndian;
  }

  lemma TypeCodes(t: PacketType, v: nat)
    ensures ParseType(TypeCode(t)) == Some(t)
    ensures ParseType(v).Some? ==> TypeCode(ParseType(v).value) == v
  {
  }

  lemma DecodeEncode(p: Packet)
    requires WellFormed(p)
    ensures Decode(Encode(p)) == Ok(p)
  {
    hide BigEndian;
    hide FromBigEndian;
    Fields(p.header, |p.payload|, p.payload);
    Widths();
    ReadsBack(p.header.version, 2);
    ReadsBack(TypeCode(p.header.kind), 2);
    ReadsBack(p.header.flags, 4);
    ReadsBack(|p.payload|, 8);
    TypeCodes(p.header.kind, 0);
  }

  lemma Rejoin(bytes: seq<byte>)
    requires |bytes| >= ENCODED_SIZE
    ensures bytes == bytes[0..4] + bytes[4..6] + bytes[6..8] + bytes[8..12] + bytes[12..20] + bytes[20..52] + bytes[52..]
  {
  }

  lemma EncodeDecode(bytes: seq<byte>)
    requires |bytes| < U64_SIZE && Decode(bytes).Ok?
    ensures WellFormed(Decode(bytes).value) && Encode(Decode(bytes).value) == bytes
  {
    hide BigEndian;
    hide FromBigEndian;
    Widths();
    WritesBack(bytes[4..6]);
    WritesBack(bytes[6..8]);
    WritesBack(bytes[8..12]);
    WritesBack(bytes[12..20]);
    TypeCodes(Hello, FromBigEndian(bytes[6..8]));
    Rejoin(bytes);
    NoWrap(|bytes|, FromBigEndian(bytes[12..20]));
  }

  /** A length whose sum with the header size wraps is never accepted. */
  lemma NoWrap(size: nat, length: nat)
    requires ENCODED_SIZE <= size < U64_SIZE && length < U64_SIZE
    requires size == (ENCODED_SIZE + length) % U64_SIZE
    ensures size == ENCODED_SIZE + length
  {
  }

  /** The parser accepts exactly the encodings of well-formed packets, and returns the packet encoded. */
  lemma DecodeIff(bytes: seq<byte>, p: Packet)
    requires |bytes| < U64_SIZE
    ensures Decode(bytes) == Ok(p) <==> WellFormed(p) && Encode(p) == bytes
  {
    if Decode(bytes) == Ok(p) {
      EncodeDecode(bytes);
    }
    if WellFormed(p) && Encode(p) == bytes {
      DecodeEncode(p);
    }
  }

  // ---------- streams ----------

  function WireOf(packets: seq<Packet>): seq<byte> {
    if packets == [] then [] else Encode(packets[0]) + WireOf(packets[1..])
  }

  /** How many bytes read_packet takes from the front of a stream, when they are all there. */
  function FrameSize(stream: seq<byte>): Option<nat> {
    if |stream| < ENCODED_SIZE then None
    else
      var n := ENCODED_SIZE + FromBigEndian(stream[12..20]);
      if n <= |stream| then Some(n) else None
  }

  /** What repeated read_packet calls return before the first one that fails. */
  function Deframe(stream: seq<byte>): seq<Packet>
    decreases |stream|
  {
    match FrameSize(stream)
    case None => []
    case Some(n) =>
      match Decode(stream[..n])
      case Err(_) => []
      case Ok(p) => [p] + Deframe(stream[n..])
  }

  predicate AllWellFormed(packets: seq<Packet>) { forall p <- packets :: WellFormed(p) }

  function CompleteFrames(packets: seq<Packet>, k: nat): (n: nat)
    ensures n <= |packets|
  {
    if packets == [] || k < |Encode(packets[0])| then 0
    else 1 + CompleteFrames(packets[1..], k - |Encode(packets[0])|)
  }

  lemma FrameAtFront(p: Packet, rest: seq<byte>, k: nat)
    requires WellFormed(p) && k <= |Encode(p)| + |rest|
    ensures FrameSize((Encode(p) + rest)[..k]) == if k < |Encode(p)| then None else Some(|Encode(p)|)
    ensures |Encode(p)| == ENCODED_SIZE + |p.payload|
  {
    hide BigEndian;
    hide FromBigEndian;
    Fields(p.header, |p.payload|, p.payload);
    Widths();
    ReadsBack(|p.payload|, 8);
    if k >= ENCODED_SIZE {
      var t := (Encode(p) + rest)[..k];
      assert t[12..20] == Encode(p)[12..20];
    }
  }

  /** A stream cut anywhere, as by a lost connection, yields exactly the packets that are complete:
      none is lost, reordered or made up from a fragment. */
  lemma {:induction false} DeframeCut(packets: seq<Packet>, k: nat)
    requires AllWellFormed(packets) && k <= |WireOf(packets)|
    ensures Deframe(WireOf(packets)[..k]) == packets[..CompleteFrames(packets, k)]
  {
    hide Encode;
    hide Decode;
    hide FrameSize;
    if packets == [] {
      ShortStream(WireOf(packets)[..k]);
    } else {
      var p := packets[0];
      assert p in packets;
      var rest := WireOf(packets[1..]);
      FrameAtFront(p, rest, k);
      DecodeEncode(p);
      if k >= |Encode(p)| {
        var t := WireOf(packets)[..k];
        assert t[..|Encode(p)|] == Encode(p);
        assert t[|Encode(p)|..] == rest[..k - |Encode(p)|];
        DeframeCut(packets[1..], k - |Encode(p)|);
        var n := CompleteFrames(packets[1..], k - |Encode(p)|);
        assert packets[..n + 1] == [p] + packets[1..][..n];
      }
    }
  }

  lemma ShortStream(stream: seq<byte>)
    requires |stream| < ENCODED_SIZE
    ensures FrameSize(stream) == None
  {
  }

  lemma {:induction false} AllFramesComplete(packets: seq<Packet>)
    ensures CompleteFrames(packets, |WireOf(packets)|) == |packets|
  {
    hide Encode;
    if packets != [] {
      AllFramesComplete(packets[1..]);
    }
  }

  lemma DeframeWhole(packets: seq<Packet>)
    requires AllWellFormed(packets)
    ensures Deframe(WireOf(packets)) == packets
  {
    DeframeCut(packets, |WireOf(packets)|);
    AllFramesComplete(packets);
    assert WireOf(packets)[..|WireOf(packets)|] == WireOf(packets);
  }

  /** Writing one packet more appends its encoding. */
  lemma {:induction false} WireOfConcat(a: seq<Packet>, b: seq<Packet>)
    ensures WireOf(a + b) == WireOf(a) + WireOf(b)
  {
    hide Encode;
    if a == [] {
      assert a + b == b;
    } else {
      WireOfConcat(a[1..], b);
      assert (a + b)[1..] == a[1..] + b;
    }
  }

  lemma WireOfCons(packets: seq<Packet>)
    requires packets != []
    ensures WireOf(packets) == Encode(packets[0]) + WireOf(packets[1..])
  {
    hide Encode;
  }

  lemma WireOfOne(p: Packet)
    ensures WireOf([p]) == Encode(p)
  {
    hide Encode;
    assert [p][1..] == [];
    assert Encode(p) + [] == Encode(p);
  }

  /** A well-formed packet in front is what a reader takes first. */
  lemma DeframeFront(p: Packet, rest: seq<byte>)
    requires WellFormed(p)
    ensures Deframe(Encode(p) + rest) == [p] + Deframe(rest)
  {
    hide Encode;
    hide Decode;
    hide FrameSize;
    var stream := Encode(p) + rest;
    FrameAtFront(p, rest, |stream|);
    assert stream[..|stream|] == stream;
    DecodeEncode(p);
    assert stream[..|Encode(p)|] == Encode(p) && stream[|Encode(p)|..] == rest;
  }

  /** If a reader takes anything from a stream, a well-formed packet is in front. */
  lemma DeframeNeedsFront(stream: seq<byte>)
    requires |stream| < U64_SIZE && Deframe(stream) != []
    ensures exists p, rest :: WellFormed(p) && stream == Encode(p) + rest
  {
    hide Encode;
    hide Decode;
    hide FrameSize;
    hide Deframe;
    hide WellFormed;
    var n := DeframeStarts(stream);
    var p := Decode(stream[..n]).value;
    EncodeDecode(stream[..n]);
    assert stream == Encode(p) + stream[n..];
  }

  lemma DeframeStarts(stream: seq<byte>) returns (n: nat)
    requires Deframe(stream) != []
    ensures n <= |stream| && Decode(stream[..n]).Ok?
  {
    hide Decode;
    n := FrameSize(stream).value;
  }
}
