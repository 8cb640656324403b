/** The payload codecs: FILE_INFO, RESUME_ACK and the HELLO manifest. */
module Codecs {
  import opened Results
  import opened TransferTypes
  import opened JsonText

  // ---------- fields of a JSON object ----------

  function RequireString(json: string, name: string): Result<string, ErrorCode> {
    match Search(json, name, StringField)
    case None => Err(InvalidPayload)
    case Some(captured) =>
      match Unescape(captured)
      case Ok(value) => Ok(value)
      case Err(_) => Err(InvalidPayload)
  }

  function RequireU64(json: string, name: string): Result<u64, ErrorCode> {
    match Search(json, name, NumberField(NonDelimiters))
    case None => Err(InvalidPayload)
    case Some(captured) =>
      match Stoull(captured)
      case Some(value) => Ok(value)
      case None => Err(InvalidPayload)
  }

  // ---------- FILE_INFO ----------

  /** The members written by FileInfoCodec::encode, each with the text in front of it. */
  function FileInfoFields(info: FileInfo): seq<Field> {
    [ Str("{\n  ", "relative_path", ": ", info.relativePath),
      Num(",\n  ", "size", ": ", info.size),
      Str(",\n  ", "sha256", ": ", info.sha256) ]
  }

  function EncodeFileInfo(info: FileInfo): string {
    Render(FileInfoFields(info), "\n}\n")
  }

  /** The text from the first character that is not a blank, tab, carriage return or newline. */
  function FromFirstNonSpace(t: string): string {
    if t != "" && t[0] in " \t\r\n" then FromFirstNonSpace(t[1..]) else t
  }

  function DecodeFileInfo(text: string): Result<FileInfo, ErrorCode> {
    var body := FromFirstNonSpace(text);
    if body == "" || body[0] != '{' then Err(InvalidPayload)
    else match RequireString(text, "relative_path")
      case Err(e) => Err(e)
      case Ok(path) => match RequireU64(text, "size")
        case Err(e) => Err(e)
        case Ok(size) => match RequireString(text, "sha256")
          case Err(e) => Err(e)
          case Ok(sha) =>
            if path == "" || sha == "" then Err(InvalidPayload) else Ok(FileInfo(path, size, sha))
  }

  lemma FileInfoFieldsWellFormed(info: FileInfo)
    ensures var fields := FileInfoFields(info);
            && WellFormedFields(fields)
            && fields[0].key != fields[1].key
            && fields[0].key != fields[2].key
            && fields[1].key != fields[2].key
  {
    var fields := FileInfoFields(info);
    KnownKeys();
    assert fields[0].WellFormed() && fields[1].WellFormed() && fields[2].WellFormed();
    assert |fields[0].key| == 13 && |fields[1].key| == 4 && |fields[2].key| == 6;
  }

  lemma FileInfoFieldFound(info: FileInfo, i: nat, pattern: Pattern)
    requires i < 3 && Matches(FileInfoFields(info)[i], pattern)
    ensures Search(EncodeFileInfo(info), FileInfoFields(info)[i].key, pattern) == Some(Captured(FileInfoFields(info)[i]))
  {
    FileInfoFieldsWellFormed(info);
    SearchFindsField(FileInfoFields(info), "\n}\n", i, pattern);
  }

  /** FILE_INFO survives the wire exactly when the path and the hash are non-empty. */
  lemma FileInfoRoundTrip(info: FileInfo)
    ensures DecodeFileInfo(EncodeFileInfo(info)) ==
            if info.relativePath != "" && info.sha256 != "" then Ok(info) else Err(InvalidPayload)
  {
    hide Search;
    hide Escape;
    hide Unescape;
    hide Stoull;
    hide Decimal;
    hide EncodeFileInfo;
    hide WellFormedFields;
    FileInfoFieldFound(info, 0, StringField);
    FileInfoFieldFound(info, 1, NumberField(NonDelimiters));
    FileInfoFieldFound(info, 2, StringField);
    UnescapeInvertsEscape(info.relativePath);
    UnescapeInvertsEscape(info.sha256);
    StoullDecimal(info.size);
    FileInfoOpens(info);
  }

  lemma FileInfoOpens(info: FileInfo)
    ensures EncodeFileInfo(info) != "" && EncodeFileInfo(info)[0] == '{'
    ensures FromFirstNonSpace(EncodeFileInfo(info)) == EncodeFileInfo(info)
  {
    hide Escape;
    hide Decimal;
    var fields := FileInfoFields(info);
    RenderCons(fields[0], fields[1..], "\n}\n");
    assert fields == [fields[0]] + fields[1..];
  }

  // ---------- RESUME_ACK ----------

  function AckText(offset: nat): string { "{\"offset\":" + Decimal(offset) + "}" }

  function EncodeAck(offset: u64): string { AckText(offset) }

  /** regex_match of `^\s*\{\s*"offset"\s*:\s*([0-9]+)\s*\}\s*$` followed by stoull. */
  function DecodeAck(text: string): Result<u64, ErrorCode> {
    var t := SkipSpaces(text);
    if t == "" || t[0] != '{' then Err(InvalidPayload)
    else match AfterKey(SkipSpaces(t[1..]), "offset")
      case None => Err(InvalidPayload)
      case Some(u) =>
        var digits := Token(u, Digits);
        var end := SkipSpaces(AfterToken(u));
        if digits == "" || end == "" || end[0] != '}' || SkipSpaces(end[1..]) != "" then Err(InvalidPayload)
        else match Stoull(digits)
          case Some(offset) => Ok(offset)
          case None => Err(InvalidResumeOffset)
  }

  function AfterToken(t: string): string {
    if t != "" && IsDigit(t[0]) then AfterToken(t[1..]) else t
  }

  lemma {:induction false} AfterDigits(digits: string, rest: string)
    requires AllDigits(digits)
    requires rest == "" || !IsDigit(rest[0])
    ensures AfterToken(digits + rest) == rest
  {
    if digits == "" {
      assert digits + rest == rest;
    } else {
      assert digits[0] in digits;
      assert (digits + rest)[1..] == digits[1..] + rest;
      AfterDigits(digits[1..], rest);
    }
  }

  /** Any decimal offset: one that does not fit in 64 bits is out of range. */
  lemma AckOfAnyOffset(offset: nat)
    ensures DecodeAck(AckText(offset)) == if offset < U64_LIMIT then Ok(offset) else Err(InvalidResumeOffset)
  {
    hide Stoull;
    hide Decimal;
    var text := AckText(offset);
    var digits := Decimal(offset);
    DecimalIsDigits(offset);
    StoullDecimal(offset);
    assert digits[0] in digits;
    var value := digits + "}";
    var member := "\"offset\":" + value;
    assert text == "{" + member;
    assert SkipSpaces(text) == text && text[1..] == member;
    assert SkipSpaces(member) == member;
    assert member == "\"" + "offset" + "\"" + ":" + value;
    AfterOwnKey("offset", ":", value);
    TokenOfDigits(digits, "}", Digits);
    AfterDigits(digits, "}");
  }

  lemma AckRoundTrip(offset: u64)
    ensures DecodeAck(EncodeAck(offset)) == Ok(offset)
  {
    hide DecodeAck;
    AckOfAnyOffset(offset);
  }

  // ---------- HELLO manifest ----------

  function EncodeManifest(m: TransferManifest): string {
    "beamdrop-manifest-v2" + "\n" +
    "file_count=" + Decimal(m.fileCount) + "\n" +
    "total_bytes=" + Decimal(m.totalBytes) + "\n" +
    "directory_count=" + Decimal(m.directoryCount) + "\n"
  }

  /** std::getline: the line, and what is left in the stream. */
  function GetLine(t: string): (string, string) {
    if t == "" then ("", "")
    else if t[0] == '\n' then ("", t[1..])
    else var (line, rest) := GetLine(t[1..]); ([t[0]] + line, rest)
  }

  function PrefixedU64(line: string, prefix: string): Result<u64, ErrorCode> {
    if !(prefix <= line) then Err(InvalidPayload)
    else match Stoull(line[|prefix|..])
      case Some(v) => Ok(v)
      case None => Err(InvalidPayload)
  }

  function DecodeManifest(text: string): Result<TransferManifest, ErrorCode> {
    var (version, t1) := GetLine(text);
    var (fileLine, t2) := GetLine(t1);
    var (bytesLine, t3) := GetLine(t2);
    var (dirLine, _) := GetLine(t3);
    if version != "beamdrop-manifest-v2" then Err(InvalidPayload)
    else match PrefixedU64(fileLine, "file_count=")
      case Err(e) => Err(e)
      case Ok(fileCount) => match PrefixedU64(bytesLine, "total_bytes=")
        case Err(e) => Err(e)
        case Ok(totalBytes) => match PrefixedU64(dirLine, "directory_count=")
          case Err(e) => Err(e)
          case Ok(directoryCount) => Ok(TransferManifest(fileCount, totalBytes, directoryCount))
  }

  lemma {:induction false} GetLineOf(line: string, rest: string)
    requires '\n' !in line
    ensures GetLine(line + "\n" + rest) == (line, rest)
  {
    var t := line + "\n" + rest;
    if line == "" {
      assert t[1..] == rest;
    } else {
      assert line[0] in line;
      assert t[0] == line[0] && t[1..] == line[1..] + "\n" + rest;
      GetLineOf(line[1..], rest);
      assert [line[0]] + line[1..] == line;
    }
  }

  lemma NumberLine(prefix: string, n: u64, rest: string)
    requires '\n' !in prefix
    ensures GetLine(prefix + Decimal(n) + "\n" + rest) == (prefix + Decimal(n), rest)
    ensures PrefixedU64(prefix + Decimal(n), prefix) == Ok(n)
  {
    DecimalIsDigits(n);
    StoullDecimal(n);
    GetLineOf(prefix + Decimal(n), rest);
    assert (prefix + Decimal(n))[|prefix|..] == Decimal(n);
  }

  lemma RegroupLines(version: string, n: string, a: string, b: string, c: string)
    ensures version + n + a + n + b + n + c + n == version + n + (a + n + (b + n + (c + n + "")))
  {
    assert c + n + "" == c + n;
    assert version + n + a + n + b + n + c + n == version + n + (a + n + (b + n + (c + n)));
  }

  lemma ManifestLines(m: TransferManifest)
    ensures EncodeManifest(m) == "beamdrop-manifest-v2" + "\n" + ("file_count=" + Decimal(m.fileCount)) + "\n"
              + ("total_bytes=" + Decimal(m.totalBytes)) + "\n" + ("directory_count=" + Decimal(m.directoryCount)) + "\n"
  {
    hide Decimal;
    Flat("beamdrop-manifest-v2", "\n", "file_count=", Decimal(m.fileCount), "total_bytes=", Decimal(m.totalBytes),
         "directory_count=", Decimal(m.directoryCount));
  }

  lemma Flat(v: string, n: string, a: string, x: string, b: string, y: string, c: string, z: string)
    ensures v + n + a + x + n + b + y + n + c + z + n == v + n + (a + x) + n + (b + y) + n + (c + z) + n
  {
  }

  lemma ManifestRoundTrip(m: TransferManifest)
    ensures DecodeManifest(EncodeManifest(m)) == Ok(m)
  {
    hide Decimal;
    hide GetLine;
    hide PrefixedU64;
    var t3 := "directory_count=" + Decimal(m.directoryCount) + "\n" + "";
    var t2 := "total_bytes=" + Decimal(m.totalBytes) + "\n" + t3;
    var t1 := "file_count=" + Decimal(m.fileCount) + "\n" + t2;
    RegroupLines("beamdrop-manifest-v2", "\n", "file_count=" + Decimal(m.fileCount), "total_bytes=" + Decimal(m.totalBytes),
                 "directory_count=" + Decimal(m.directoryCount));
    ManifestLines(m);
    GetLineOf("beamdrop-manifest-v2", t1);
    NumberLine("file_count=", m.fileCount, t2);
    NumberLine("total_bytes=", m.totalBytes, t3);
    NumberLine("directory_count=", m.directoryCount, "");
  }

  // ---------- what is refused ----------

  /** A FILE_INFO begins with an opening brace, but for white space. */
  lemma {:induction false} FileInfoNeedsBrace(spaces: string, c: char, rest: string)
    requires (forall s <- spaces :: s in " \t\r\n") && c !in " \t\r\n{"
    ensures DecodeFileInfo(spaces + [c] + rest) == Err(InvalidPayload)
    ensures FromFirstNonSpace(spaces + [c] + rest) == [c] + rest
  {
    var text := spaces + [c] + rest;
    if spaces == "" {
      assert text[0] == c && text == [c] + rest;
    } else {
      assert text[0] in spaces;
      assert text[1..] == spaces[1..] + [c] + rest;
      FileInfoNeedsBrace(spaces[1..], c, rest);
    }
  }

  /** A HELLO of any other version is refused, and so is one whose number is none or does not fit. */
  lemma ManifestRefused(version: string, count: string, rest: string)
    requires '\n' !in version && '\n' !in count
    ensures version != "beamdrop-manifest-v2" ==> DecodeManifest(version + "\n" + rest) == Err(InvalidPayload)
    ensures Stoull(count) == None ==>
              DecodeManifest("beamdrop-manifest-v2" + "\n" + ("file_count=" + count + "\n" + rest)) == Err(InvalidPayload)
  {
    GetLineOf(version, rest);
    GetLineOf("beamdrop-manifest-v2", "file_count=" + count + "\n" + rest);
    assert '\n' !in "file_count=" + count;
    GetLineOf("file_count=" + count, rest);
    assert ("file_count=" + count)[|"file_count="|..] == count;
    hide GetLine;
    hide Stoull;
  }
}
