/** The formats themselves, byte by byte and character by character: two programs that only agreed with each
    other could still disagree with every other release. */
module WireFormat {
  import opened TransferTypes
  import opened Bytes
  import opened JsonText
  import opened Codecs
  import opened ResumeText
  import opened Session
  import opened MessageWire
  import P = Packets

  // ---------- packets ----------

  function Four(a: int, b: int, c: int, d: int): int { a * 0x100_0000 + b * 0x1_0000 + c * 0x100 + d }

  lemma FromTwo(s: seq<byte>)
    requires |s| == 2
    ensures FromBigEndian(s) == Four(0, 0, s[0], s[1])
  {
    assert s[..1][..0] == [];
    assert FromBigEndian(s[..1]) == s[0];
  }

  lemma FromTwice(s: seq<byte>, m: nat)
    requires m <= |s| <= m + 2 && |s| == m + 2
    ensures FromBigEndian(s) == FromBigEndian(s[..m]) * 0x1_0000 + Four(0, 0, s[m], s[m + 1])
  {
    assert s[..m + 1][..m] == s[..m];
    assert FromBigEndian(s) == FromBigEndian(s[..m + 1]) * 256 + s[m + 1];
    assert FromBigEndian(s[..m + 1]) == FromBigEndian(s[..m]) * 256 + s[m];
  }

  lemma FromFour(s: seq<byte>)
    requires |s| == 4
    ensures FromBigEndian(s) == Four(s[0], s[1], s[2], s[3])
  {
    FromTwice(s, 2);
    FromTwo(s[..2]);
    hide FromBigEndian;
  }

  lemma FromEight(s: seq<byte>)
    requires |s| == 8
    ensures FromBigEndian(s)
         == Four(s[0], s[1], s[2], s[3]) * 0x1_0000_0000 + Four(s[4], s[5], s[6], s[7])
  {
    FromTwice(s, 6);
    assert s[..6][..4] == s[..4];
    FromTwice(s[..6], 4);
    FromFour(s[..4]);
    hide FromBigEndian;
  }

  lemma FourAt(e: seq<byte>, at: nat)
    requires at + 4 <= |e|
    ensures FromBigEndian(e[at..at + 4]) == Four(e[at], e[at + 1], e[at + 2], e[at + 3])
  {
    FromFour(e[at..at + 4]);
    hide FromBigEndian;
    hide Four;
  }

  lemma EightAt(e: seq<byte>, at: nat)
    requires at + 8 <= |e|
    ensures FromBigEndian(e[at..at + 8])
         == Four(e[at], e[at + 1], e[at + 2], e[at + 3]) * 0x1_0000_0000 + Four(e[at + 4], e[at + 5], e[at + 6], e[at + 7])
  {
    FromEight(e[at..at + 8]);
    hide FromBigEndian;
    hide Four;
  }

  /** The numbers of the packet types. */
  function TypeNumber(kind: P.PacketType): byte {
    match kind
    case Hello => 1
    case FileInfo => 2
    case ResumeReq => 3
    case ResumeAck => 4
    case Data => 5
    case FileEnd => 6
    case Finish => 7
    case Error => 8
    case Heartbeat => 9
    case DirectoryInfo => 10
  }

  /** Where everything is in a packet: "BDRP", version 1, the type, the flags, the length of the payload, all
      most significant byte first, then 32 bytes of checksum, then the payload. */
  lemma PacketLayout(p: P.Packet)
    requires P.WellFormed(p)
    ensures var e := P.Encode(p);
            && |e| == 52 + |p.payload|
            && e[0..4] == [0x42, 0x44, 0x52, 0x50]
            && e[4..6] == [0, 1]
            && e[6..8] == [0, TypeNumber(p.header.kind)]
            && Four(e[8], e[9], e[10], e[11]) == p.header.flags
            && Four(e[12], e[13], e[14], e[15]) * 0x1_0000_0000 + Four(e[16], e[17], e[18], e[19]) == |p.payload|
            && e[20..52] == p.header.checksum
            && e[52..] == p.payload
  {
    P.Fields(p.header, |p.payload|, p.payload);
    Known(p);
    var e := P.Encode(p);
    FourAt(e, 8);
    EightAt(e, 12);
    hide BigEndian;
    hide FromBigEndian;
    hide Four;
    hide TypeNumber;
    hide P.EncodeHeader;
  }

  lemma Known(p: P.Packet)
    requires P.WellFormed(p)
    ensures BigEndian(p.header.version, 2) == [0, 1] && BigEndian(P.TypeCode(p.header.kind), 2) == [0, TypeNumber(p.header.kind)]
    ensures FromBigEndian(BigEndian(p.header.flags, 4)) == p.header.flags
    ensures FromBigEndian(BigEndian(|p.payload|, 8)) == |p.payload|
  {
    Widths();
    ReadsBack(p.header.flags, 4);
    ReadsBack(|p.payload|, 8);
    SmallNumber(1);
    SmallNumber(P.TypeCode(p.header.kind));
    hide BigEndian;
    hide FromBigEndian;
  }

  lemma SmallNumber(n: byte)
    ensures BigEndian(n, 2) == [0, n]
  {
    assert BigEndian(n / 256, 1) == [0];
  }

  function MessageNumber(m: Msg): byte {
    match m
    case Hello(_) => 1
    case Info(_) => 2
    case Ack(_) => 4
    case Data(_) => 5
    case FileEnd => 6
    case Finish => 7
    case Directory(_) => 10
  }

  lemma NumberOf(m: Msg)
    ensures MessageNumber(m) == TypeNumber(Kind(m))
  {
  }

  /** What the payload is for each message. */
  predicate PayloadOf(m: Msg, payload: seq<byte>) {
    match m
    case Hello(manifest) => BytesText(payload) == EncodeManifest(manifest)
    case Directory(path) => BytesText(payload) == path
    case Info(info) => BytesText(payload) == EncodeFileInfo(info)
    case Ack(offset) => BytesText(payload) == EncodeAck(offset)
    case Data(bytes) => payload == bytes
    case FileEnd => payload == []
    case Finish => payload == []
  }

  lemma MessagePayload(m: Msg)
    requires MessageWire.Sendable(m)
    ensures PayloadOf(m, Payload(m))
  {
    hide EncodeManifest;
    hide EncodeFileInfo;
    hide EncodeAck;
    hide TextBytes;
    hide BytesText;
    hide ByteText;
    match m {
      case Hello(manifest) =>
        ManifestIsByteText(manifest);
        TextRoundTrip(EncodeManifest(manifest));
      case Directory(path) => TextRoundTrip(path);
      case Info(info) =>
        FileInfoIsByteText(info);
        TextRoundTrip(EncodeFileInfo(info));
      case Ack(offset) =>
        AckIsByteText(offset);
        TextRoundTrip(EncodeAck(offset));
      case _ =>
    }
  }

  /** What goes on the wire for each message. */
  lemma MessageLayout(m: Msg)
    requires Fits(m)
    ensures var e := P.Encode(ToPacket(m));
            && |e| >= 52
            && e[6..8] == [0, MessageNumber(m)]
            && e[8..12] == [0, 0, 0, 0] && e[20..52] == seq(32, _ => 0)
            && PayloadOf(m, e[52..])
  {
    FreshLayout(Kind(m), Payload(m));
    MessagePayload(m);
    NumberOf(m);
    hide P.FreshPacket;
    hide P.Encode;
    hide Payload;
    hide PayloadOf;
    hide MessageNumber;
    hide TypeNumber;
    hide Kind;
    hide MessageWire.Sendable;
  }

  lemma FreshLayout(kind: P.PacketType, payload: seq<byte>)
    requires |payload| < P.U64_SIZE - P.ENCODED_SIZE
    ensures var e := P.Encode(P.FreshPacket(kind, payload));
            && |e| == 52 + |payload|
            && e[6..8] == [0, TypeNumber(kind)] && e[8..12] == [0, 0, 0, 0] && e[20..52] == seq(32, _ => 0)
            && e[52..] == payload
  {
    var p := P.FreshPacket(kind, payload);
    P.Fields(p.header, |payload|, payload);
    NoFlags();
    SmallNumber(P.TypeCode(kind));
    hide BigEndian;
    hide P.EncodeHeader;
  }

  lemma NoFlags()
    ensures BigEndian(0, 4) == [0, 0, 0, 0]
  {
    assert BigEndian(0, 1) == [0];
    assert BigEndian(0, 2) == [0, 0];
    assert BigEndian(0, 3) == [0, 0, 0];
  }

  // ---------- texts ----------

  /** A quote and a backslash get a backslash in front, everything else stays as it is. */
  lemma {:induction false} EscapeEach(before: string, c: char, after: string)
    ensures Escape(before + [c] + after)
         == Escape(before) + (if c == '"' || c == '\\' then ['\\', c] else [c]) + Escape(after)
  {
    var all := before + [c] + after;
    if before == "" {
      assert all[1..] == after;
    } else {
      assert all[1..] == before[1..] + [c] + after;
      EscapeEach(before[1..], c, after);
    }
  }

  lemma LastDigit(n: nat, d: nat)
    requires d < 10
    ensures (10 * n + d) / 10 == n && (10 * n + d) % 10 == d
  {
  }

  lemma DigitIs(d: nat)
    requires d < 10
    ensures DigitChar(d) == "0123456789"[d]
  {
  }

  /** A decimal number has its digits in order and no leading zero. */
  lemma {:induction false} DecimalEach(n: nat, d: nat)
    requires d < 10
    ensures n > 0 ==> Decimal(10 * n + d) == Decimal(n) + ["0123456789"[d]] && Decimal(n)[0] != '0'
    ensures Decimal(d) == ["0123456789"[d]]
  {
    LastDigit(n, d);
    DigitIs(d);
    if n >= 10 {
      DecimalEach(n / 10, n % 10);
    } else {
      DigitIs(n);
    }
  }

  lemma StringMember(gap: string, key: string, sep: string, x: string, rest: string)
    ensures gap + "\"" + key + "\"" + sep + ("\"" + x + "\"") + rest == (gap + "\"" + key + "\"" + sep + "\"") + x + ("\"" + rest)
  {
  }

  lemma Literals()
    ensures "{\n  " + "\"" + "relative_path" + "\"" + ": " + "\"" == "{\n  \"relative_path\": \""
    ensures ",\n  " + "\"" + "size" + "\"" + ": " == ",\n  \"size\": "
    ensures ",\n  " + "\"" + "sha256" + "\"" + ": " + "\"" == ",\n  \"sha256\": \""
    ensures "\"" + "\n}\n" == "\"\n}\n" && "\"" + ",\n  \"size\": " == "\",\n  \"size\": "
  {
  }

  lemma FileInfoEnd(info: FileInfo)
    ensures |FileInfoFields(info)| == 3
    ensures Render(FileInfoFields(info)[2..], "\n}\n") == ",\n  \"sha256\": \"" + Escape(info.sha256) + "\"\n}\n"
  {
    var sha := Escape(info.sha256);
    var fields := FileInfoFields(info);
    assert fields[2..] == [fields[2]] && [fields[2]] + [] == [fields[2]];
    RenderCons(fields[2], [], "\n}\n");
    NoFields("\n}\n");
    hide Render;
    hide Escape;
    hide Decimal;
    Literals();
    StringMember(",\n  ", "sha256", ": ", sha, "\n}\n");
  }

  lemma FileInfoText(info: FileInfo)
    ensures EncodeFileInfo(info)
         == "{\n  \"relative_path\": \"" + Escape(info.relativePath) + "\",\n  \"size\": " + Decimal(info.size)
            + (",\n  \"sha256\": \"" + Escape(info.sha256) + "\"\n}\n")
  {
    var path, size := Escape(info.relativePath), Decimal(info.size);
    FileInfoEnd(info);
    var fields := FileInfoFields(info);
    assert fields == [fields[0]] + fields[1..] && fields[1..] == [fields[1]] + fields[2..];
    RenderCons(fields[0], fields[1..], "\n}\n");
    RenderCons(fields[1], fields[2..], "\n}\n");
    hide Render;
    hide Escape;
    hide Decimal;
    FileInfoFront(path, size, Render(fields[2..], "\n}\n"));
  }

  lemma FileInfoFront(path: string, size: string, end: string)
    ensures "{\n  " + "\"" + "relative_path" + "\"" + ": " + ("\"" + path + "\"") + (",\n  " + "\"" + "size" + "\"" + ": " + size + end)
         == "{\n  \"relative_path\": \"" + path + "\",\n  \"size\": " + size + end
  {
    Literals();
    StringMember("{\n  ", "relative_path", ": ", path, ",\n  \"size\": " + size + end);
  }

  lemma StateLiterals()
    ensures "{" + "\"" + "relative_path" + "\"" + ":" + "\"" == "{\"relative_path\":\""
    ensures "," + "\"" + "size" + "\"" + ":" == ",\"size\":" && "\"" + ",\"size\":" == "\",\"size\":"
    ensures "," + "\"" + "sha256" + "\"" + ":" + "\"" == ",\"sha256\":\""
    ensures "," + "\"" + "offset" + "\"" + ":" == ",\"offset\":" && "\"" + ",\"offset\":" == "\",\"offset\":"
  {
  }

  lemma RecordEnd(r: ResumeRecord)
    ensures |RecordFields(r)| == 4
    ensures Render(RecordFields(r)[2..], "}") == ",\"sha256\":\"" + Escape(r.sha256) + "\",\"offset\":" + Decimal(r.offset) + "}"
  {
    var sha, offset := Escape(r.sha256), Decimal(r.offset);
    var fields := RecordFields(r);
    assert fields[2..] == [fields[2]] + [fields[3]] && [fields[3]] + [] == [fields[3]];
    RenderCons(fields[2], [fields[3]], "}");
    RenderCons(fields[3], [], "}");
    NoFields("}");
    hide Render;
    hide Escape;
    hide Decimal;
    StateLiterals();
    var fourth := ",\"offset\":" + offset + "}";
    assert Render([fields[3]], "}") == fourth;
    StringMember(",", "sha256", ":", sha, fourth);
  }

  /** One record of the state file. */
  lemma RecordText(r: ResumeRecord)
    ensures ObjectText(r)
         == "{\"relative_path\":\"" + Escape(r.relativePath) + "\",\"size\":" + Decimal(r.size)
            + (",\"sha256\":\"" + Escape(r.sha256) + "\",\"offset\":" + Decimal(r.offset) + "}")
  {
    var path, size := Escape(r.relativePath), Decimal(r.size);
    RecordEnd(r);
    var fields := RecordFields(r);
    assert fields == [fields[0]] + fields[1..] && fields[1..] == [fields[1]] + fields[2..];
    RenderCons(fields[0], fields[1..], "}");
    RenderCons(fields[1], fields[2..], "}");
    hide Render;
    hide Escape;
    hide Decimal;
    RecordFront(path, size, Render(fields[2..], "}"));
  }

  lemma RecordFront(path: string, size: string, end: string)
    ensures "{" + "\"" + "relative_path" + "\"" + ":" + ("\"" + path + "\"") + ("," + "\"" + "size" + "\"" + ":" + size + end)
         == "{\"relative_path\":\"" + path + "\",\"size\":" + size + end
  {
    StateLiterals();
    StringMember("{", "relative_path", ":", path, ",\"size\":" + size + end);
  }

  /** The whole state file, with one record in a line. */
  lemma StateText(r: ResumeRecord, s: ResumeRecord)
    ensures SaveText([]) == "{\n  \"records\": [\n" + "  ]\n}\n"
    ensures SaveText([r]) == "{\n  \"records\": [\n" + "    " + ObjectText(r) + "\n" + "  ]\n}\n"
    ensures SaveText([r, s])
         == "{\n  \"records\": [\n" + "    " + ObjectText(r) + ",\n" + "    " + ObjectText(s) + "\n" + "  ]\n}\n"
  {
    hide ObjectText;
    assert [r][1..] == [] && [r, s][1..] == [s] && [s][1..] == [];
    assert RecordLines([s]) == "    " + ObjectText(s) + "\n" + "";
  }

  // ---------- examples ----------

  lemma Numerals()
    ensures Decimal(3) == "3" && Decimal(4) == "4" && Decimal(42) == "42" && Decimal(123) == "123"
  {
    assert Decimal(42) == Decimal(4) + ['2'];
    assert Decimal(123) == Decimal(12) + ['3'] && Decimal(12) == Decimal(1) + ['2'];
  }

  /** A RESUME_ACK and a HELLO. */
  lemma SmallTexts()
    ensures EncodeAck(123) == "{\"offset\":123}"
    ensures EncodeManifest(TransferManifest(3, 42, 4))
         == "beamdrop-manifest-v2" + "\n" + "file_count=3" + "\n" + "total_bytes=42" + "\n" + "directory_count=4" + "\n"
  {
    Numerals();
    hide Decimal;
    assert "file_count=" + "3" == "file_count=3" && "total_bytes=" + "42" == "total_bytes=42";
    assert "directory_count=" + "4" == "directory_count=4";
    ManifestLines(TransferManifest(3, 42, 4));
  }
}
