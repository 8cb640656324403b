/** The text of the resume state file: what save writes, what load reads back, from the whole text
    or from any truncation of it. */
module ResumeText {
  import opened Results
  import opened TransferTypes
  import opened JsonText

  // ---------- save ----------

  function RecordFields(r: ResumeRecord): seq<Field> {
    [ Str("{", "relative_path", ":", r.relativePath),
      Num(",", "size", ":", r.size),
      Str(",", "sha256", ":", r.sha256),
      Num(",", "offset", ":", r.offset) ]
  }

  function ObjectText(r: ResumeRecord): string {
    Render(RecordFields(r), "}")
  }

  const HEADER := "{\n  \"records\": [\n"
  const FOOTER := "  ]\n}\n"

  function LineEnd(more: bool): string { if more then ",\n" else "\n" }

  function RecordLines(records: seq<ResumeRecord>): string {
    if records == [] then ""
    else "    " + ObjectText(records[0]) + LineEnd(|records| > 1) + RecordLines(records[1..])
  }

  function SaveText(records: seq<ResumeRecord>): string {
    HEADER + (RecordLines(records) + FOOTER)
  }

  // ---------- load ----------

  predicate IsBrace(c: char) { c == '{' || c == '}' }

  predicate BraceFree(s: string) { forall c <- s :: !IsBrace(c) }

  /** `[^{}]*` anchored at the start of t. */
  function Run(t: string): (r: string)
    ensures |r| <= |t|
  {
    if t != "" && !IsBrace(t[0]) then [t[0]] + Run(t[1..]) else ""
  }

  /** Does `\{[^{}]*\}` match at the start of t? */
  predicate ObjectStarts(t: string) {
    && t != "" && t[0] == '{'
    && |Run(t[1..])| + 1 < |t|
    && t[|Run(t[1..])| + 1] == '}'
  }

  /** std::sregex_iterator over `\{[^{}]*\}`: the successive leftmost matches. */
  function Objects(t: string): seq<string> {
    if t == "" then []
    else if ObjectStarts(t) then
      var n := |Run(t[1..])| + 2;
      [t[..n]] + Objects(t[n..])
    else Objects(t[1..])
  }

  predicate Contains(t: string, sub: string) {
    sub <= t || (t != "" && Contains(t[1..], sub))
  }

  const PATH_KEY := "\"" + "relative_path" + "\""

  /** An invalid escape is a plain runtime_error in the source, every other defect a TransferError. */
  function RequireString(json: string, name: string): Result<string, ErrorCode> {
    match Search(json, name, StringField)
    case None => Err(InvalidResumeState)
    case Some(captured) =>
      match Unescape(captured)
      case Ok(value) => Ok(value)
      case Err(InvalidEscape) => Err(InternalError)
      case Err(DanglingEscape) => Err(InvalidResumeState)
  }

  function RequireU64(json: string, name: string): Result<u64, ErrorCode> {
    match Search(json, name, NumberField(Digits))
    case None => Err(InvalidResumeState)
    case Some(captured) =>
      match Stoull(captured)
      case Some(value) => Ok(value)
      case None => Err(InvalidResumeState)
  }

  /** One iteration of the loop in load; None when the object is skipped. */
  function DecodeObject(obj: string): Result<Option<ResumeRecord>, ErrorCode> {
    if !Contains(obj, PATH_KEY) then Ok(None)
    else match RequireString(obj, "relative_path")
      case Err(e) => Err(e)
      case Ok(path) => match RequireU64(obj, "size")
        case Err(e) => Err(e)
        case Ok(size) => match RequireString(obj, "sha256")
          case Err(e) => Err(e)
          case Ok(sha) => match RequireU64(obj, "offset")
            case Err(e) => Err(e)
            case Ok(offset) =>
              if path == "" || sha == "" then Err(InvalidResumeState)
              else Ok(Some(ResumeRecord(path, size, sha, offset)))
  }

  function DecodeObjects(objects: seq<string>): Result<seq<ResumeRecord>, ErrorCode> {
    if objects == [] then Ok([])
    else match DecodeObject(objects[0])
      case Err(e) => Err(e)
      case Ok(found) => match DecodeObjects(objects[1..])
        case Err(e) => Err(e)
        case Ok(rest) => Ok((if found.Some? then [found.value] else []) + rest)
  }

  function LoadText(text: string): Result<seq<ResumeRecord>, ErrorCode> {
    DecodeObjects(Objects(text))
  }

  // ---------- one record ----------

  /** The records that survive the state file. */
  predicate Clean(r: ResumeRecord) {
    r.relativePath != "" && r.sha256 != "" && BraceFree(r.relativePath) && BraceFree(r.sha256)
  }

  predicate AllClean(records: seq<ResumeRecord>) { forall r <- records :: Clean(r) }

  lemma RecordFieldsWellFormed(r: ResumeRecord)
    ensures var fields := RecordFields(r);
            && WellFormedFields(fields)
            && fields[0].key != fields[1].key && fields[0].key != fields[2].key && fields[0].key != fields[3].key
            && fields[1].key != fields[2].key && fields[1].key != fields[3].key && fields[2].key != fields[3].key
  {
    var fields := RecordFields(r);
    KnownKeys();
    assert fields[0].WellFormed() && fields[1].WellFormed() && fields[2].WellFormed() && fields[3].WellFormed();
    assert |fields[0].key| == 13 && |fields[1].key| == 4 && |fields[2].key| == |fields[3].key| == 6;
    assert fields[2].key[0] == 's' && fields[3].key[0] == 'o';
  }

  lemma RecordFieldFound(r: ResumeRecord, i: nat, pattern: Pattern)
    requires i < 4 && Matches(RecordFields(r)[i], pattern)
    requires pattern.NumberField? ==> pattern.cls.Digits?
    ensures Search(ObjectText(r), RecordFields(r)[i].key, pattern) == Some(Captured(RecordFields(r)[i]))
  {
    RecordFieldsWellFormed(r);
    SearchFindsField(RecordFields(r), "}", i, pattern);
  }

  lemma {:induction false} RenderTail(fields: seq<Field>, tail: string)
    ensures Render(fields, tail) == Render(fields, "") + tail
  {
    if fields != [] {
      RenderTail(fields[1..], tail);
      var f := fields[0];
      var head := f.gap + "\"" + f.key + "\"" + f.sep + f.Value();
      assert Render(fields, tail) == head + Render(fields[1..], tail);
      assert Render(fields, "") == head + Render(fields[1..], "");
    }
  }

  lemma RegroupOpening(gap: string, quoted: string, sep: string, value: string, rest: string)
    ensures gap + quoted + sep + value + rest == gap + (quoted + sep + (value + rest))
  {
  }

  function AfterFirst(r: ResumeRecord): string { Render(RecordFields(r)[1..], "}") }

  function QuotedPath(r: ResumeRecord): string { "\"" + Escape(r.relativePath) + "\"" }

  /** A rendered record is a brace, then the key, then the rest of the members. */
  lemma ObjectOpens(r: ResumeRecord)
    ensures ObjectText(r) == "{" + (PATH_KEY + ":" + (QuotedPath(r) + AfterFirst(r)))
  {
    var fields := RecordFields(r);
    assert fields == [fields[0]] + fields[1..];
    RenderCons(fields[0], fields[1..], "}");
    RegroupOpening("{", PATH_KEY, ":", QuotedPath(r), AfterFirst(r));
    assert ObjectText(r) == "{" + "\"" + fields[0].key + "\"" + ":" + QuotedPath(r) + AfterFirst(r);
    assert "{" + "\"" + fields[0].key + "\"" == "{" + PATH_KEY;
  }

  lemma ContainsAfter(c: char, sub: string, rest: string)
    ensures Contains([c] + (sub + rest), sub)
  {
    var t := [c] + (sub + rest);
    assert t[1..] == sub + rest;
    assert sub <= sub + rest;
  }

  lemma ObjectHasKey(r: ResumeRecord)
    ensures Contains(ObjectText(r), PATH_KEY)
  {
    hide Contains;
    hide PATH_KEY;
    ObjectOpens(r);
    var rest := ":" + (QuotedPath(r) + AfterFirst(r));
    assert PATH_KEY + ":" + (QuotedPath(r) + AfterFirst(r)) == PATH_KEY + rest;
    ContainsAfter('{', PATH_KEY, rest);
  }

  lemma RenderedStrings(r: ResumeRecord)
    ensures RequireString(ObjectText(r), "relative_path") == Ok(r.relativePath)
    ensures RequireString(ObjectText(r), "sha256") == Ok(r.sha256)
  {
    RecordFieldFound(r, 0, StringField);
    RecordFieldFound(r, 2, StringField);
    UnescapeInvertsEscape(r.relativePath);
    UnescapeInvertsEscape(r.sha256);
  }

  lemma RenderedNumbers(r: ResumeRecord)
    ensures RequireU64(ObjectText(r), "size") == Ok(r.size)
    ensures RequireU64(ObjectText(r), "offset") == Ok(r.offset)
  {
    RecordFieldFound(r, 1, NumberField(Digits));
    RecordFieldFound(r, 3, NumberField(Digits));
    StoullDecimal(r.size);
    StoullDecimal(r.offset);
  }

  /** A rendered record decodes to itself; only empty strings are refused. */
  lemma DecodeRendered(r: ResumeRecord)
    ensures DecodeObject(ObjectText(r)) ==
            if r.relativePath != "" && r.sha256 != "" then Ok(Some(r)) else Err(InvalidResumeState)
  {
    hide Contains;
    hide RequireString;
    hide RequireU64;
    hide ObjectText;
    ObjectHasKey(r);
    RenderedStrings(r);
    RenderedNumbers(r);
  }

  // ---------- braces ----------

  lemma {:induction false} EscapeBraceFree(value: string)
    requires BraceFree(value)
    ensures BraceFree(Escape(value))
  {
    if value != "" {
      assert value[0] in value;
      EscapeBraceFree(value[1..]);
    }
  }

  predicate BraceFreeField(f: Field) {
    f.WellFormed() && BraceFree(f.gap) && (f.Str? ==> BraceFree(f.text))
  }

  lemma FieldBraceFree(f: Field)
    requires BraceFreeField(f)
    ensures BraceFree(f.gap + "\"" + f.key + "\"" + f.sep + f.Value())
  {
    SimpleHasNoQuote(f.key);
    assert BraceFree(f.key) && BraceFree(f.sep);
    if f.Str? {
      EscapeBraceFree(f.text);
    } else {
      DecimalIsDigits(f.value);
    }
    assert BraceFree(f.Value());
  }

  lemma {:induction false} RenderBraceFree(fields: seq<Field>)
    requires forall f <- fields :: BraceFreeField(f)
    ensures BraceFree(Render(fields, ""))
  {
    if fields != [] {
      assert fields[0] in fields;
      FieldBraceFree(fields[0]);
      RenderBraceFree(fields[1..]);
    }
  }

  /** The members of a record without the opening brace. */
  function OpenFields(r: ResumeRecord): seq<Field> {
    [Str("", "relative_path", ":", r.relativePath)] + RecordFields(r)[1..]
  }

  lemma OpenFieldsBraceFree(r: ResumeRecord)
    requires Clean(r)
    ensures forall f <- OpenFields(r) :: BraceFreeField(f)
  {
    var fields := RecordFields(r);
    RecordFieldsWellFormed(r);
    assert BraceFreeField(OpenFields(r)[0]);
    forall i | 1 <= i < 4
      ensures BraceFreeField(fields[i])
    {
      assert fields[i] in fields;
    }
  }

  /** A clean record is written as an opening brace, a brace-free run and a closing brace. */
  lemma ObjectShape(r: ResumeRecord) returns (inner: string)
    requires Clean(r)
    ensures ObjectText(r) == "{" + inner + "}" && BraceFree(inner)
  {
    var fields := RecordFields(r);
    var open := OpenFields(r);
    inner := Render(open, "");
    OpenFieldsBraceFree(r);
    RenderBraceFree(open);
    RenderTail(open, "}");
    RenderCons(open[0], fields[1..], "}");
    assert fields == [fields[0]] + fields[1..];
    RenderCons(fields[0], fields[1..], "}");
    MoveGap("{", "\"" + fields[0].key + "\"" + fields[0].sep + fields[0].Value() + AfterFirst(r), fields[0], AfterFirst(r));
  }

  lemma MoveGap(gap: string, whole: string, f: Field, rest: string)
    requires whole == "\"" + f.key + "\"" + f.sep + f.Value() + rest
    ensures gap + "\"" + f.key + "\"" + f.sep + f.Value() + rest == gap + whole
    ensures "" + "\"" + f.key + "\"" + f.sep + f.Value() + rest == whole
  {
    hide *;
    Regroup(gap, "\"", f.key, f.sep, f.Value(), rest);
    assert "" + "\"" == "\"";
  }

  lemma Regroup(gap: string, quote: string, key: string, sep: string, value: string, rest: string)
    ensures gap + quote + key + quote + sep + value + rest == gap + (quote + key + quote + sep + value + rest)
  {
    assert gap + quote + key + quote == gap + (quote + key + quote);
  }

  lemma {:induction false} RunOf(plain: string, rest: string)
    requires BraceFree(plain)
    ensures Run(plain + rest) == plain + Run(rest)
  {
    if plain == "" {
      assert plain + rest == rest;
    } else {
      assert plain[0] in plain;
      assert (plain + rest)[1..] == plain[1..] + rest;
      RunOf(plain[1..], rest);
    }
  }

  lemma {:induction false} RunBraceFree(t: string)
    ensures BraceFree(Run(t)) && Run(t) <= t
  {
    if t != "" && !IsBrace(t[0]) {
      RunBraceFree(t[1..]);
    }
  }

  lemma {:induction false} ObjectsSkip(plain: string, rest: string)
    requires '{' !in plain
    ensures Objects(plain + rest) == Objects(rest)
  {
    if plain == "" {
      assert plain + rest == rest;
    } else {
      assert plain[0] in plain;
      assert (plain + rest)[1..] == plain[1..] + rest;
      ObjectsSkip(plain[1..], rest);
    }
  }

  lemma {:induction false} NoCloseNoObjects(t: string)
    requires '}' !in t
    ensures Objects(t) == []
  {
    if t != "" {
      NoCloseNoObjects(t[1..]);
    }
  }

  lemma ObjectsTake(inner: string, rest: string)
    requires BraceFree(inner)
    ensures Objects("{" + inner + "}" + rest) == ["{" + inner + "}"] + Objects(rest)
  {
    var t := "{" + inner + "}" + rest;
    assert t[1..] == inner + ("}" + rest);
    RunOf(inner, "}" + rest);
    assert Run("}" + rest) == "";
    assert Run(t[1..]) == inner;
    assert t[|inner| + 1] == '}';
    assert t[..|inner| + 2] == "{" + inner + "}" && t[|inner| + 2..] == rest;
  }

  // ---------- whole and truncated files ----------

  function ObjectTexts(records: seq<ResumeRecord>): seq<string> {
    if records == [] then [] else [ObjectText(records[0])] + ObjectTexts(records[1..])
  }

  /** How many records are complete in the first k characters of the record lines. */
  function CompleteLines(records: seq<ResumeRecord>, k: int): (n: nat)
    ensures n <= |records|
  {
    if records == [] then 0
    else
      var obj := 4 + |ObjectText(records[0])|;
      if k < obj then 0
      else 1 + CompleteLines(records[1..], k - obj - |LineEnd(|records| > 1)|)
  }

  function Complete(records: seq<ResumeRecord>, k: nat): (n: nat)
    ensures n <= |records|
  {
    CompleteLines(records, k - |HEADER|)
  }

  lemma {:induction false} CompleteLinesMonotone(records: seq<ResumeRecord>, k: int, k': int)
    requires k <= k'
    ensures CompleteLines(records, k) <= CompleteLines(records, k')
  {
    if records != [] {
      var line := 4 + |ObjectText(records[0])| + |LineEnd(|records| > 1)|;
      CompleteLinesMonotone(records[1..], k - line, k' - line);
    }
  }

  lemma {:induction false} CompleteLinesNegative(records: seq<ResumeRecord>, k: int)
    requires k <= 0
    ensures CompleteLines(records, k) == 0
  {
  }

  lemma {:induction false} AllLinesComplete(records: seq<ResumeRecord>)
    ensures CompleteLines(records, |RecordLines(records)|) == |records|
  {
    if records != [] {
      AllLinesComplete(records[1..]);
    }
  }

  lemma PrefixOfConcat(a: string, b: string, k: nat)
    requires k <= |a| + |b|
    ensures k <= |a| ==> (a + b)[..k] == a[..k]
    ensures k >= |a| ==> (a + b)[..k] == a + b[..k - |a|]
  {
  }

  lemma FooterHasNoObject(k: nat)
    requires k <= |FOOTER|
    ensures '{' !in FOOTER[..k]
    ensures Objects(FOOTER[..k]) == []
  {
    assert '{' !in FOOTER;
    assert FOOTER[..k] == FOOTER[..k] + "";
    ObjectsSkip(FOOTER[..k], "");
  }

  /** One line of the file, cut after k characters. */
  lemma TornLine(lead: string, inner: string, end: string, rest: string, k: nat)
    requires BraceFree(lead) && BraceFree(inner) && BraceFree(end)
    requires k <= |lead| + |inner| + 2 + |end| + |rest|
    ensures var t := (lead + ("{" + inner + "}") + (end + rest))[..k];
            var closed := |lead| + |inner| + 2;
            Objects(t) ==
              if k < closed then []
              else if k <= closed + |end| then ["{" + inner + "}"]
              else ["{" + inner + "}"] + Objects(rest[..k - closed - |end|])
  {
    var line := lead + ("{" + inner + "}");
    PrefixOfConcat(line, end + rest, k);
    if k < |line| {
      forall i | 0 <= i < k
        ensures line[i] != '}'
      {
        assert i < |lead| ==> lead[i] in lead;
        assert |lead| < i ==> inner[i - |lead| - 1] in inner;
      }
      NoCloseNoObjects(line[..k]);
    } else {
      var after := (end + rest)[..k - |line|];
      assert line + after == lead + ("{" + inner + "}" + after);
      ObjectsSkip(lead, "{" + inner + "}" + after);
      ObjectsTake(inner, after);
      PrefixOfConcat(end, rest, k - |line|);
      if k - |line| <= |end| {
        var cut := end[..k - |line|];
        assert after == cut + "";
        assert forall c <- cut :: c in end;
        ObjectsSkip(cut, "");
      } else {
        ObjectsSkip(end, rest[..k - |line| - |end|]);
      }
    }
  }

  lemma LineEndBraceFree(more: bool)
    ensures BraceFree(LineEnd(more)) && BraceFree("    ")
  {
  }

  lemma RegroupLine(lead: string, obj: string, end: string, lines: string, footer: string)
    ensures lead + obj + end + lines + footer == lead + obj + (end + (lines + footer))
  {
  }

  lemma {:induction false} TornLines(records: seq<ResumeRecord>, k: nat)
    requires AllClean(records)
    requires k <= |RecordLines(records) + FOOTER|
    ensures Objects((RecordLines(records) + FOOTER)[..k]) == ObjectTexts(records[..CompleteLines(records, k)])
  {
    hide Objects;
    hide ObjectText;
    hide LineEnd;
    if records == [] {
      assert RecordLines(records) + FOOTER == FOOTER;
      FooterHasNoObject(k);
    } else {
      var r := records[0];
      assert r in records;
      var inner := ObjectShape(r);
      var end := LineEnd(|records| > 1);
      var rest := RecordLines(records[1..]) + FOOTER;
      LineEndBraceFree(|records| > 1);
      RegroupLine("    ", ObjectText(r), end, RecordLines(records[1..]), FOOTER);
      TornLine("    ", inner, end, rest, k);
      var left := k - 4 - |ObjectText(r)| - |end|;
      if k >= 4 + |ObjectText(r)| {
        var n := CompleteLines(records[1..], left);
        assert records[..n + 1][1..] == records[1..][..n];
        if left <= 0 {
          CompleteLinesNegative(records[1..], left);
        } else {
          TornLines(records[1..], left);
        }
      }
    }
  }

  lemma {:induction false} DecodeAll(records: seq<ResumeRecord>)
    requires AllClean(records)
    ensures DecodeObjects(ObjectTexts(records)) == Ok(records)
  {
    hide DecodeObject;
    hide ObjectText;
    if records != [] {
      assert records[0] in records;
      DecodeRendered(records[0]);
      DecodeAll(records[1..]);
      assert [records[0]] + records[1..] == records;
    }
  }

  lemma {:induction false} ContainsChars(t: string, sub: string, c: char)
    requires Contains(t, sub) && c in sub
    ensures c in t
  {
    if sub <= t {
      var i :| 0 <= i < |sub| && sub[i] == c;
      assert t[i] == c;
    } else {
      ContainsChars(t[1..], sub, c);
    }
  }

  /** The first brace of the text, if any, is an opening one. */
  predicate StopsAtOpening(body: string) {
    Run(body) == body || (|Run(body)| < |body| && body[|Run(body)|] == '{')
  }

  /** The opening brace of the file is never an object with records, whatever follows it. */
  lemma HeaderSkipped(body: string)
    requires StopsAtOpening(body)
    ensures Objects(HEADER + body) == Objects(body)
  {
    var t := HEADER + body;
    var inner := HEADER[1..];
    assert BraceFree(inner);
    assert t[1..] == inner + body;
    RunOf(inner, body);
    assert !ObjectStarts(t) by {
      if |Run(body)| < |body| {
        assert t[|Run(t[1..])| + 1] == body[|Run(body)|];
      }
    }
    ObjectsSkip(inner, body);
  }

  lemma OnlySkipped(obj: string)
    requires DecodeObject(obj) == Ok(None)
    ensures DecodeObjects([obj]) == Ok([])
  {
    assert [obj][1..] == [];
    assert DecodeObjects([]) == Ok([]);
    var none: seq<ResumeRecord> := [];
    assert none + none == none;
  }

  lemma EmptyFile(k: nat)
    requires k <= |FOOTER|
    ensures DecodeObjects(Objects(HEADER + FOOTER[..k])) == Ok([])
  {
    var body := FOOTER[..k];
    if k <= 4 {
      assert BraceFree(body);
      RunOf(body, "");
      assert body + "" == body;
      HeaderSkipped(body);
      FooterHasNoObject(k);
    } else {
      ClosedEmptyFile(FOOTER[5..k]);
      assert FOOTER[..k] == FOOTER[..4] + "}" + FOOTER[5..k];
      assert HEADER == "{" + HEADER[1..];
      assert HEADER + body == "{" + (HEADER[1..] + FOOTER[..4]) + "}" + FOOTER[5..k];
    }
  }

  /** Without records the whole file is one object, which holds no path. */
  lemma ClosedEmptyFile(rest: string)
    requires '{' !in rest && '}' !in rest
    ensures DecodeObjects(Objects("{" + (HEADER[1..] + FOOTER[..4]) + "}" + rest)) == Ok([])
  {
    hide Objects;
    hide DecodeObjects;
    hide DecodeObject;
    var inner := HEADER[1..] + FOOTER[..4];
    assert BraceFree(inner) && '_' !in inner;
    ObjectsTake(inner, rest);
    assert rest == rest + "";
    ObjectsSkip(rest, "");
    NoObjects();
    NoPathKey("{" + inner + "}");
    OnlySkipped("{" + inner + "}");
    assert ["{" + inner + "}"] + [] == ["{" + inner + "}"];
  }

  lemma NoObjects()
    ensures Objects("") == []
  {
  }

  lemma NoPathKey(obj: string)
    requires '_' !in obj
    ensures DecodeObject(obj) == Ok(None)
  {
    assert PATH_KEY[9] == '_';
    if Contains(obj, PATH_KEY) {
      ContainsChars(obj, PATH_KEY, '_');
    }
  }

  lemma HeaderTorn(k: nat)
    requires k < |HEADER|
    ensures Objects(HEADER[..k]) == []
  {
    assert '}' !in HEADER;
    NoCloseNoObjects(HEADER[..k]);
  }

  lemma LineStart(lead: string, rest: string, k: nat)
    requires BraceFree(lead) && k <= |lead| + 1 + |rest|
    ensures StopsAtOpening((lead + ("{" + rest))[..k])
  {
    PrefixOfConcat(lead, "{" + rest, k);
    if k <= |lead| {
      RunOf(lead[..k], "");
      assert lead[..k] == lead[..k] + "";
    } else {
      var tail := ("{" + rest)[..k - |lead|];
      RunOf(lead, tail);
      assert Run(tail) == "";
    }
  }

  lemma BodyStart(records: seq<ResumeRecord>, k: nat)
    requires records != [] && AllClean(records)
    requires k <= |RecordLines(records) + FOOTER|
    ensures StopsAtOpening((RecordLines(records) + FOOTER)[..k])
  {
    hide StopsAtOpening;
    hide ObjectText;
    hide LineEnd;
    var inner := ObjectShape(records[0]);
    var end := LineEnd(|records| > 1);
    var rest := inner + "}" + (end + (RecordLines(records[1..]) + FOOTER));
    RegroupLine("    ", ObjectText(records[0]), end, RecordLines(records[1..]), FOOTER);
    assert "    " + ("{" + inner + "}") + (end + (RecordLines(records[1..]) + FOOTER)) == "    " + ("{" + rest);
    LineEndBraceFree(true);
    LineStart("    ", rest, k);
  }

  /** Torn-write tolerance: every truncation of a saved file loads, to a prefix of the records. */
  lemma LoadTorn(records: seq<ResumeRecord>, k: nat)
    requires AllClean(records)
    requires k <= |SaveText(records)|
    ensures LoadText(SaveText(records)[..k]) == Ok(records[..Complete(records, k)])
  {
    hide Objects;
    hide DecodeObjects;
    hide RecordLines;
    hide CompleteLines;
    hide ObjectText;
    NoLines();
    var body := RecordLines(records) + FOOTER;
    PrefixOfConcat(HEADER, body, k);
    if k < |HEADER| {
      HeaderTorn(k);
      CompleteLinesNegative(records, k - |HEADER|);
    } else {
      var m := k - |HEADER|;
      if records == [] {
        assert body == FOOTER;
        EmptyFile(m);
      } else {
        BodyStart(records, m);
        HeaderSkipped(body[..m]);
        TornLines(records, m);
        DecodeAll(records[..CompleteLines(records, m)]);
      }
    }
  }

  lemma NoLines()
    ensures RecordLines([]) == "" && CompleteLines([], 0) == 0
    ensures ObjectTexts([]) == [] && DecodeObjects([]) == Ok([])
  {
  }

  lemma LoadWhole(records: seq<ResumeRecord>)
    requires AllClean(records)
    ensures LoadText(SaveText(records)) == Ok(records)
  {
    hide LoadText;
    hide SaveText;
    hide Complete;
    var text := SaveText(records);
    LoadTorn(records, |text|);
    assert text[..|text|] == text;
    AllComplete(records);
    assert records[..|records|] == records;
  }

  lemma CompleteMonotone(records: seq<ResumeRecord>, k: nat, k': nat)
    requires k <= k'
    ensures Complete(records, k) <= Complete(records, k')
  {
    CompleteLinesMonotone(records, k - |HEADER|, k' - |HEADER|);
  }

  lemma AllComplete(records: seq<ResumeRecord>)
    ensures Complete(records, |SaveText(records)|) == |records|
  {
    hide RecordLines;
    hide CompleteLines;
    AllLinesComplete(records);
    CompleteLinesMonotone(records, |RecordLines(records)|, |SaveText(records)| - |HEADER|);
  }

  // ---------- what load can return at all ----------

  predicate IsSuffix(u: string, t: string) { |u| <= |t| && t[|t| - |u|..] == u }

  lemma {:induction false} SkipSpacesSuffix(t: string)
    ensures IsSuffix(SkipSpaces(t), t)
  {
    if t != "" && IsSpace(t[0]) {
      SkipSpacesSuffix(t[1..]);
      SuffixTrans(SkipSpaces(t), t[1..], t);
    }
  }

  lemma SuffixTrans(a: string, b: string, c: string)
    requires IsSuffix(a, b) && IsSuffix(b, c)
    ensures IsSuffix(a, c)
  {
    assert b[|b| - |a|..] == c[|c| - |a|..];
  }

  lemma AfterKeySuffix(t: string, name: string)
    requires AfterKey(t, name).Some?
    ensures IsSuffix(AfterKey(t, name).value, t)
  {
    var a := t[|name| + 2..];
    var u := SkipSpaces(a);
    SkipSpacesSuffix(a);
    SkipSpacesSuffix(u[1..]);
    SuffixTrans(SkipSpaces(u[1..]), u[1..], u);
    SuffixTrans(SkipSpaces(u[1..]), u, a);
    SuffixTrans(SkipSpaces(u[1..]), a, t);
  }

  lemma {:induction false} StringBodyPrefix(t: string)
    requires StringBody(t).Some?
    ensures StringBody(t).value + "\"" <= t
  {
    if t[0] == '"' {
    } else if t[0] == '\\' {
      StringBodyPrefix(t[2..]);
      assert t == t[..2] + t[2..];
    } else {
      StringBodyPrefix(t[1..]);
      assert t == [t[0]] + t[1..];
    }
  }

  /** A captured string lies before the last character of the searched text. */
  lemma {:induction false} CapturedInside(t: string, name: string, c: char)
    requires Search(t, name, StringField).Some?
    requires c in Search(t, name, StringField).value
    ensures t != "" && c in t[..|t| - 1]
  {
    if FieldAt(t, name, StringField).Some? {
      var u := AfterKey(t, name).value;
      AfterKeySuffix(t, name);
      StringBodyPrefix(u[1..]);
      var body := StringBody(u[1..]).value;
      var i :| 0 <= i < |body| && body[i] == c;
      assert u[1..][i] == c;
      assert t[|t| - |u| + 1 + i] == c;
      assert |t| - |u| + 1 + i < |t| - 1;
    } else {
      CapturedInside(t[1..], name, c);
      var i :| 0 <= i < |t[1..]| - 1 && t[1..][i] == c;
      assert t[i + 1] == c;
    }
  }

  lemma FieldIsBraceFree(inner: string, name: string)
    requires BraceFree(inner)
    requires RequireString("{" + inner + "}", name).Ok?
    ensures BraceFree(RequireString("{" + inner + "}", name).value)
  {
    var obj := "{" + inner + "}";
    assert obj[0] != '"' && (("\"" + name + "\"")[0] == '"');
    assert FieldAt(obj, name, StringField).None?;
    assert obj[1..] == inner + "}";
    var value := RequireString(obj, name).value;
    var captured := Search(obj, name, StringField).value;
    forall c | c in value
      ensures !IsBrace(c)
    {
      UnescapeKeepsChars(captured, c);
      CapturedInside(inner + "}", name, c);
      assert (inner + "}")[..|inner|] == inner;
    }
  }

  lemma {:induction false} ObjectsShape(t: string, obj: string)
    requires obj in Objects(t)
    ensures ObjectLike(obj)
  {
    if ObjectStarts(t) {
      var n := |Run(t[1..])| + 2;
      RunBraceFree(t[1..]);
      if obj == t[..n] {
        assert obj[1..n - 1] == Run(t[1..]);
      } else {
        ObjectsShape(t[n..], obj);
      }
    } else {
      ObjectsShape(t[1..], obj);
    }
  }

  predicate ObjectLike(o: string) {
    |o| >= 2 && o == "{" + o[1..|o| - 1] + "}" && BraceFree(o[1..|o| - 1])
  }

  lemma DecodedIsClean(o: string)
    requires ObjectLike(o)
    requires DecodeObject(o).Ok? && DecodeObject(o).value.Some?
    ensures Clean(DecodeObject(o).value.value)
  {
    hide RequireString;
    hide RequireU64;
    hide Contains;
    var inner := o[1..|o| - 1];
    FieldIsBraceFree(inner, "relative_path");
    FieldIsBraceFree(inner, "sha256");
  }

  lemma {:induction false} DecodedAreClean(objects: seq<string>)
    requires forall o <- objects :: ObjectLike(o)
    requires DecodeObjects(objects).Ok?
    ensures AllClean(DecodeObjects(objects).value)
  {
    hide ObjectLike;
    hide DecodeObject;
    if objects != [] {
      assert objects[0] in objects;
      DecodedAreClean(objects[1..]);
      if DecodeObject(objects[0]).value.Some? {
        DecodedIsClean(objects[0]);
      }
    }
  }

  /** Whatever the file holds, every record load returns is clean. */
  lemma LoadedAreClean(text: string)
    requires LoadText(text).Ok?
    ensures AllClean(LoadText(text).value)
  {
    forall o | o in Objects(text)
      ensures ObjectLike(o)
    {
      ObjectsShape(text, o);
    }
    DecodedAreClean(Objects(text));
  }

  /** Saving then loading is the identity exactly on clean records. */
  lemma RoundTripIff(records: seq<ResumeRecord>)
    ensures LoadText(SaveText(records)) == Ok(records) <==> AllClean(records)
  {
    if AllClean(records) {
      LoadWhole(records);
    }
    if LoadText(SaveText(records)) == Ok(records) {
      LoadedAreClean(SaveText(records));
    }
  }
}
