/** Session messages as packets on the wire: each message type with its codec, and whole streams cut
    anywhere.  A std::string is a sequence of bytes, here the characters below 256. */
module MessageWire {
  import opened Results
  import opened TransferTypes
  import opened JsonText
  import opened Codecs
  import opened Session
  import P = Packets

  // ---------- text and bytes ----------

  predicate ByteText(s: string) { forall c <- s :: c as int < 256 }

  function TextBytes(s: string): seq<byte>
    requires ByteText(s)
  {
    seq(|s|, i requires 0 <= i < |s| => CharByte(s, i))
  }

  function CharByte(s: string, i: nat): byte
    requires ByteText(s) && i < |s|
  {
    assert s[i] in s;
    s[i] as int
  }

  function BytesText(bytes: seq<byte>): string {
    seq(|bytes|, i requires 0 <= i < |bytes| => bytes[i] as char)
  }

  lemma TextRoundTrip(s: string)
    requires ByteText(s)
    ensures BytesText(TextBytes(s)) == s
  {
  }

  lemma {:induction false} EscapedByteText(s: string)
    requires ByteText(s)
    ensures ByteText(Escape(s))
  {
    if s != "" {
      assert s[0] in s;
      assert forall c <- s[1..] :: c in s;
      EscapedByteText(s[1..]);
    }
  }

  lemma DecimalByteText(n: nat)
    ensures ByteText(Decimal(n))
  {
    DecimalIsDigits(n);
    assert forall c <- Decimal(n) :: IsDigit(c);
  }

  predicate FieldByteText(f: Field) { ByteText(f.gap) && ByteText(f.key) && ByteText(f.sep) && ByteText(f.Value()) }

  lemma JoinedByteText(a: string, b: string)
    requires ByteText(a) && ByteText(b)
    ensures ByteText(a + b)
  {
  }

  lemma FieldIsByteText(f: Field)
    requires FieldByteText(f)
    ensures ByteText(f.gap + "\"" + f.key + "\"" + f.sep + f.Value())
  {
    hide ByteText;
    assert ByteText("\"") by {
      QuoteByteText();
    }
    JoinedByteText(f.gap, "\"");
    JoinedByteText(f.gap + "\"", f.key);
    JoinedByteText(f.gap + "\"" + f.key, "\"");
    JoinedByteText(f.gap + "\"" + f.key + "\"", f.sep);
    JoinedByteText(f.gap + "\"" + f.key + "\"" + f.sep, f.Value());
  }

  lemma QuoteByteText()
    ensures ByteText("\"")
  {
  }

  lemma {:induction false} RenderByteText(fields: seq<Field>, tail: string)
    requires ByteText(tail) && forall f <- fields :: FieldByteText(f)
    ensures ByteText(Render(fields, tail))
  {
    hide ByteText;
    hide FieldByteText;
    if fields != [] {
      var f := fields[0];
      assert FieldByteText(f);
      RenderByteText(fields[1..], tail);
      FieldIsByteText(f);
      JoinedByteText(f.gap + "\"" + f.key + "\"" + f.sep + f.Value(), Render(fields[1..], tail));
    }
  }

  // ---------- messages ----------

  /** Messages the program can send: byte strings, non-empty where the codec insists, payloads that fit. */
  predicate Sendable(m: Msg) {
    match m
    case Directory(path) => path != "" && ByteText(path)
    case Info(info) =>
      && info.relativePath != "" && ByteText(info.relativePath)
      && info.sha256 != "" && ByteText(info.sha256)
    case _ => true
  }

  function Payload(m: Msg): seq<byte>
    requires Sendable(m)
  {
    match m
    case Hello(manifest) => ManifestIsByteText(manifest); TextBytes(EncodeManifest(manifest))
    case Directory(path) => TextBytes(path)
    case Info(info) => FileInfoIsByteText(info); TextBytes(EncodeFileInfo(info))
    case Ack(offset) => AckIsByteText(offset); TextBytes(EncodeAck(offset))
    case Data(payload) => payload
    case FileEnd => []
    case Finish => []
  }

  function Kind(m: Msg): P.PacketType {
    match m
    case Hello(_) => P.Hello
    case Directory(_) => P.DirectoryInfo
    case Info(_) => P.FileInfo
    case Ack(_) => P.ResumeAck
    case Data(_) => P.Data
    case FileEnd => P.FileEnd
    case Finish => P.Finish
  }

  function ToPacket(m: Msg): P.Packet
    requires Sendable(m)
  {
    P.FreshPacket(Kind(m), Payload(m))
  }

  /** The codec that belongs to the packet's type; FILE_END and FINISH ignore their payload. */
  function FromPacket(p: P.Packet): Result<Msg, ErrorCode> {
    match p.header.kind
    case Hello =>
      (match DecodeManifest(BytesText(p.payload))
       case Ok(manifest) => Ok(Msg.Hello(manifest))
       case Err(e) => Err(e))
    case DirectoryInfo => if p.payload == [] then Err(InvalidPayload) else Ok(Directory(BytesText(p.payload)))
    case FileInfo =>
      (match DecodeFileInfo(BytesText(p.payload))
       case Ok(info) => Ok(Info(info))
       case Err(e) => Err(e))
    case ResumeAck =>
      (match DecodeAck(BytesText(p.payload))
       case Ok(offset) => Ok(Ack(offset))
       case Err(e) => Err(e))
    case Data => Ok(Msg.Data(p.payload))
    case FileEnd => Ok(Msg.FileEnd)
    case Finish => Ok(Msg.Finish)
    case _ => Err(UnexpectedPacket)
  }

  lemma ManifestIsByteText(m: TransferManifest)
    ensures ByteText(EncodeManifest(m))
  {
    hide Decimal;
    DecimalByteText(m.fileCount);
    DecimalByteText(m.totalBytes);
    DecimalByteText(m.directoryCount);
  }

  lemma FileInfoIsByteText(info: FileInfo)
    requires ByteText(info.relativePath) && ByteText(info.sha256)
    ensures ByteText(EncodeFileInfo(info))
  {
    hide Decimal;
    hide Escape;
    hide Render;
    EscapedByteText(info.relativePath);
    EscapedByteText(info.sha256);
    DecimalByteText(info.size);
    var fields := FileInfoFields(info);
    assert FieldByteText(fields[0]) && FieldByteText(fields[1]) && FieldByteText(fields[2]);
    RenderByteText(fields, "\n}\n");
  }

  lemma AckIsByteText(offset: u64)
    ensures ByteText(EncodeAck(offset))
  {
    hide Decimal;
    DecimalByteText(offset);
  }

  /** Every message the program can send is read back as itself by the other side. */
  lemma MessageRoundTrip(m: Msg)
    requires Sendable(m)
    ensures FromPacket(ToPacket(m)) == Ok(m)
  {
    hide ByteText;
    hide EncodeManifest;
    hide DecodeManifest;
    hide EncodeFileInfo;
    hide DecodeFileInfo;
    hide EncodeAck;
    hide DecodeAck;
    hide TextBytes;
    hide BytesText;
    match m
    case Hello(manifest) =>
      ManifestIsByteText(manifest);
      TextRoundTrip(EncodeManifest(manifest));
      ManifestRoundTrip(manifest);
    case Directory(path) =>
      TextRoundTrip(path);
      NotEmpty(path);
    case Info(info) =>
      FileInfoIsByteText(info);
      TextRoundTrip(EncodeFileInfo(info));
      FileInfoRoundTrip(info);
    case Ack(offset) =>
      AckIsByteText(offset);
      TextRoundTrip(EncodeAck(offset));
      AckRoundTrip(offset);
    case _ =>
  }

  lemma NotEmpty(path: string)
    requires path != "" && ByteText(path)
    ensures TextBytes(path) != []
  {
    assert |TextBytes(path)| == |path|;
  }

  // ---------- streams ----------

  /** Its packet can be written. */
  predicate Fits(m: Msg) { Sendable(m) && |Payload(m)| < P.U64_SIZE - P.ENCODED_SIZE }

  predicate AllSendable(ms: seq<Msg>) { forall m <- ms :: Fits(m) }

  /** Strings short enough for a packet's length field, with room for every character to be escaped. */
  predicate ShortText(s: string) { ByteText(s) && |s| < 0x1000_0000_0000_0000 }

  function Pow10(k: nat): nat { if k == 0 then 1 else 10 * Pow10(k - 1) }

  lemma {:induction false} DecimalLength(n: nat, k: nat)
    requires k > 0 && n < Pow10(k)
    ensures |Decimal(n)| <= k
  {
    if n >= 10 {
      DecimalLength(n / 10, k - 1);
    }
  }

  lemma U64Length(n: u64)
    ensures |Decimal(n)| <= 20
  {
    assert Pow10(5) == 100000;
    assert Pow10(10) == 100000 * Pow10(5);
    assert Pow10(15) == 100000 * Pow10(10);
    assert Pow10(20) == 100000 * Pow10(15);
    DecimalLength(n, 20);
  }

  lemma {:induction false} EscapedLength(s: string)
    ensures |Escape(s)| <= 2 * |s|
  {
    if s != "" {
      EscapedLength(s[1..]);
    }
  }

  lemma {:induction false} BytesLength(s: string)
    requires ByteText(s)
    ensures |TextBytes(s)| == |s|
  {
  }

  lemma InfoLength(info: FileInfo)
    ensures |EncodeFileInfo(info)| <= 2 * |info.relativePath| + 2 * |info.sha256| + 100
  {
    hide Decimal;
    hide Escape;
    EscapedLength(info.relativePath);
    EscapedLength(info.sha256);
    U64Length(info.size);
    var fields := FileInfoFields(info);
    var tail := "\n}\n";
    assert fields == [fields[0]] + fields[1..] && fields[1..] == [fields[1]] + fields[2..] && fields[2..] == [fields[2]] + [];
    hide Render;
    RenderCons(fields[0], fields[1..], tail);
    RenderCons(fields[1], fields[2..], tail);
    RenderCons(fields[2], [], tail);
    NoFields(tail);
  }

  lemma NoFields(tail: string)
    ensures Render([], tail) == tail
  {
  }

  /** Messages with short strings and payloads below 2^63 bytes fit. */
  lemma ShortFits(m: Msg)
    requires Sendable(m)
    requires m.Directory? ==> ShortText(m.path)
    requires m.Info? ==> ShortText(m.info.relativePath) && ShortText(m.info.sha256)
    requires m.Data? ==> |m.payload| < 0x8000_0000_0000_0000
    ensures Fits(m)
  {
    hide Decimal;
    hide Escape;
    hide EncodeFileInfo;
    hide TextBytes;
    match m
    case Hello(manifest) =>
      ManifestIsByteText(manifest);
      ManifestLength(manifest);
      BytesLength(EncodeManifest(manifest));
    case Directory(path) => BytesLength(path);
    case Info(info) =>
      FileInfoIsByteText(info);
      InfoLength(info);
      BytesLength(EncodeFileInfo(info));
    case Ack(offset) =>
      AckIsByteText(offset);
      U64Length(offset);
      BytesLength(EncodeAck(offset));
    case _ =>
  }

  lemma ManifestLength(m: TransferManifest)
    ensures |EncodeManifest(m)| <= 200
  {
    hide Decimal;
    U64Length(m.fileCount);
    U64Length(m.totalBytes);
    U64Length(m.directoryCount);
  }

  function ToPackets(ms: seq<Msg>): seq<P.Packet>
    requires AllSendable(ms)
  {
    seq(|ms|, i requires 0 <= i < |ms| => PacketAt(ms, i))
  }

  function PacketAt(ms: seq<Msg>, i: nat): P.Packet
    requires AllSendable(ms) && i < |ms|
  {
    assert ms[i] in ms;
    ToPacket(ms[i])
  }

  /** What the reading side makes of the packets, up to the first that its codec refuses. */
  function FromPackets(packets: seq<P.Packet>): seq<Msg> {
    if packets == [] then []
    else match FromPacket(packets[0])
      case Err(_) => []
      case Ok(m) => [m] + FromPackets(packets[1..])
  }

  lemma {:induction false} PacketsRoundTrip(ms: seq<Msg>)
    requires AllSendable(ms)
    ensures FromPackets(ToPackets(ms)) == ms
  {
    hide FromPacket;
    hide ToPacket;
    if ms != [] {
      assert ms[0] in ms;
      MessageRoundTrip(ms[0]);
      assert ToPackets(ms)[0] == ToPacket(ms[0]);
      assert ToPackets(ms)[1..] == ToPackets(ms[1..]);
      PacketsRoundTrip(ms[1..]);
    }
  }

  /** Messages written to a connection that is lost after any number of bytes: the other side reads
      exactly a prefix of them, and all of them if nothing was lost. */
  lemma MessagesSurvive(ms: seq<Msg>, k: nat)
    requires AllSendable(ms) && k <= |P.WireOf(ToPackets(ms))|
    ensures var n := P.CompleteFrames(ToPackets(ms), k);
            n <= |ms| && FromPackets(P.Deframe(P.WireOf(ToPackets(ms))[..k])) == ms[..n]
    ensures FromPackets(P.Deframe(P.WireOf(ToPackets(ms)))) == ms
  {
    hide FromPacket;
    hide ToPacket;
    hide Fits;
    hide P.WellFormed;
    hide P.WireOf;
    hide P.Deframe;
    PacketsWellFormed(ms);
    var packets := ToPackets(ms);
    P.DeframeCut(packets, k);
    P.DeframeWhole(packets);
    PacketsUpTo(ms, P.CompleteFrames(packets, k));
    PacketsRoundTrip(ms[..P.CompleteFrames(packets, k)]);
    PacketsRoundTrip(ms);
  }

  lemma PacketsWellFormed(ms: seq<Msg>)
    requires AllSendable(ms)
    ensures P.AllWellFormed(ToPackets(ms))
  {
    hide Payload;
    var packets := ToPackets(ms);
    forall p | p in packets
      ensures P.WellFormed(p)
    {
      var i :| 0 <= i < |ms| && p == packets[i];
      assert p == PacketAt(ms, i);
      assert ms[i] in ms;
    }
  }

  lemma PacketsUpTo(ms: seq<Msg>, n: nat)
    requires AllSendable(ms) && n <= |ms|
    ensures AllSendable(ms[..n]) && ToPackets(ms)[..n] == ToPackets(ms[..n])
  {
    hide Fits;
    hide ToPacket;
    forall i | 0 <= i < n
      ensures ToPackets(ms)[..n][i] == ToPackets(ms[..n])[i]
    {
      assert ToPackets(ms)[i] == PacketAt(ms, i) && ToPackets(ms[..n])[i] == PacketAt(ms[..n], i);
    }
  }
}
