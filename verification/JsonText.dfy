/** The hand-written JSON dialect shared by FILE_INFO payloads and the resume state file:
    string escaping, decimal numbers and the leftmost key search done with std::regex.
    Text is a sequence of characters, one per byte. */
module JsonText {
  import opened Results

  const U64_LIMIT: nat := 0x1_0000_0000_0000_0000

  // ---------- escaping ----------

  function EscapeChar(c: char): string {
    if c == '\\' then "\\\\" else if c == '"' then "\\\"" else [c]
  }

  function Escape(value: string): string {
    if value == "" then "" else EscapeChar(value[0]) + Escape(value[1..])
  }

  datatype EscapeError = InvalidEscape | DanglingEscape

  function Unescape(value: string): Result<string, EscapeError> {
    if value == "" then Ok("")
    else if value[0] == '\\' then
      if |value| == 1 then Err(DanglingEscape)
      else if value[1] != '\\' && value[1] != '"' then Err(InvalidEscape)
      else Prepend(value[1], Unescape(value[2..]))
    else Prepend(value[0], Unescape(value[1..]))
  }

  function Prepend(c: char, r: Result<string, EscapeError>): Result<string, EscapeError> {
    match r
    case Ok(s) => Ok([c] + s)
    case Err(e) => Err(e)
  }

  lemma EscapeAppend(a: string, c: char)
    ensures Escape(a + [c]) == Escape(a) + EscapeChar(c)
  {
    if a == "" {
      assert a + [c] == [c];
    } else {
      assert (a + [c])[1..] == a[1..] + [c];
    }
  }

  method EscapeJsonString(value: string) returns (escaped: string)
    ensures escaped == Escape(value)
  {
    escaped := "";
    for i := 0 to |value|
      invariant escaped == Escape(value[..i])
    {
      EscapeAppend(value[..i], value[i]);
      assert value[..i] + [value[i]] == value[..i + 1];
      match value[i] {
        case '\\' => escaped := escaped + "\\\\";
        case '"' => escaped := escaped + "\\\"";
        case _ => escaped := escaped + [value[i]];
      }
    }
    assert value[..|value|] == value;
  }

  /** What remains to be produced by the loop of unescape_json_string from its current state. */
  ghost function Continue(done: string, escaping: bool, rest: string): Result<string, EscapeError> {
    var r := if escaping then Unescape("\\" + rest) else Unescape(rest);
    match r
    case Ok(s) => Ok(done + s)
    case Err(e) => Err(e)
  }

  lemma ContinueStep(done: string, escaping: bool, rest: string)
    requires rest != ""
    ensures var c := rest[0];
            Continue(done, escaping, rest) ==
            if escaping then
              if c != '\\' && c != '"' then Err(InvalidEscape) else Continue(done + [c], false, rest[1..])
            else if c == '\\' then Continue(done, true, rest[1..])
            else Continue(done + [c], false, rest[1..])
  {
    var c := rest[0];
    if escaping {
      var t := "\\" + rest;
      assert t[0] == '\\' && t[1] == c && t[2..] == rest[1..];
      if Unescape(rest[1..]).Ok? {
        assert done + ([c] + Unescape(rest[1..]).value) == (done + [c]) + Unescape(rest[1..]).value;
      }
    } else if c == '\\' {
      assert "\\" + rest[1..] == rest;
    } else {
      if Unescape(rest[1..]).Ok? {
        assert done + ([c] + Unescape(rest[1..]).value) == (done + [c]) + Unescape(rest[1..]).value;
      }
    }
  }

  method UnescapeJsonString(value: string) returns (r: Result<string, EscapeError>)
    ensures r == Unescape(value)
  {
    var unescaped := "";
    var escaping := false;
    var i := 0;
    assert value[0..] == value;
    assert forall s: string :: "" + s == s;
    while i < |value|
      invariant 0 <= i <= |value|
      invariant Continue(unescaped, escaping, value[i..]) == Unescape(value)
    {
      var ch := value[i];
      ContinueStep(unescaped, escaping, value[i..]);
      assert value[i..][1..] == value[i + 1..];
      i := i + 1;
      if escaping {
        if ch != '\\' && ch != '"' {
          return Err(InvalidEscape);
        }
        unescaped := unescaped + [ch];
        escaping := false;
        continue;
      }
      if ch == '\\' {
        escaping := true;
        continue;
      }
      unescaped := unescaped + [ch];
    }
    assert value[i..] == "";
    if escaping {
      assert "\\" + value[i..] == "\\";
      return Err(DanglingEscape);
    }
    assert unescaped + "" == unescaped;
    return Ok(unescaped);
  }

  lemma {:induction false} UnescapeInvertsEscape(value: string)
    ensures Unescape(Escape(value)) == Ok(value)
  {
    if value != "" {
      UnescapeInvertsEscape(value[1..]);
      var t := Escape(value);
      var rest := Escape(value[1..]);
      if value[0] == '\\' || value[0] == '"' {
        assert t[0] == '\\' && t[1] == value[0] && t[2..] == rest;
      } else {
        assert t[0] == value[0] && t[1..] == rest;
      }
      assert [value[0]] + value[1..] == value;
    }
  }

  /** After what can be unescaped, a backslash at the end dangles, and one before anything but a backslash or a
      quote is an invalid escape; what follows then does not matter. */
  lemma {:induction false} UnescapeFails(before: string, c: char, after: string)
    requires Unescape(before).Ok?
    ensures Unescape(before + "\\") == Err(DanglingEscape)
    ensures c != '\\' && c != '"' ==> Unescape(before + "\\" + [c] + after) == Err(InvalidEscape)
  {
    var dangling := before + "\\";
    var invalid := before + "\\" + [c] + after;
    if before == "" {
      assert invalid[0] == '\\' && invalid[1] == c;
    } else if before[0] == '\\' {
      UnescapeFails(before[2..], c, after);
      assert dangling[2..] == before[2..] + "\\" && invalid[2..] == before[2..] + "\\" + [c] + after;
    } else {
      UnescapeFails(before[1..], c, after);
      assert dangling[1..] == before[1..] + "\\" && invalid[1..] == before[1..] + "\\" + [c] + after;
    }
  }

  /** Inside an escaped value every quote follows a backslash. */
  lemma {:induction false} EscapedQuotes(value: string, i: nat)
    requires i < |Escape(value)| && Escape(value)[i] == '"'
    ensures i > 0 && Escape(value)[i - 1] == '\\'
  {
    var head := EscapeChar(value[0]);
    if i >= |head| {
      EscapedQuotes(value[1..], i - |head|);
    }
  }

  /** Unescaping invents no character. */
  lemma {:induction false} UnescapeKeepsChars(value: string, c: char)
    requires Unescape(value).Ok? && c in Unescape(value).value
    ensures c in value
  {
    if value[0] == '\\' {
      if c != value[1] {
        UnescapeKeepsChars(value[2..], c);
      }
    } else if c != value[0] {
      UnescapeKeepsChars(value[1..], c);
    }
  }

  // ---------- numbers ----------

  predicate IsDigit(c: char) { '0' <= c <= '9' }

  function DigitChar(d: nat): (c: char)
    requires d < 10
    ensures IsDigit(c) && DigitValue(c) == d
  {
    '0' + d as char
  }

  function DigitValue(c: char): nat
    requires IsDigit(c)
  {
    (c - '0') as nat
  }

  /** operator<< on an unsigned integer. */
  function Decimal(n: nat): string {
    if n < 10 then [DigitChar(n)] else Decimal(n / 10) + [DigitChar(n % 10)]
  }

  predicate AllDigits(s: string) { forall c <- s :: IsDigit(c) }

  function DigitsValue(s: string): nat
    requires AllDigits(s)
  {
    if s == "" then 0 else DigitsValue(s[..|s| - 1]) * 10 + DigitValue(s[|s| - 1])
  }

  lemma {:induction false} DecimalIsDigits(n: nat)
    ensures AllDigits(Decimal(n)) && |Decimal(n)| > 0
  {
    if n >= 10 {
      DecimalIsDigits(n / 10);
    }
  }

  lemma {:induction false} DecimalValue(n: nat)
    ensures AllDigits(Decimal(n)) && DigitsValue(Decimal(n)) == n
  {
    DecimalIsDigits(n);
    if n < 10 {
      assert Decimal(n)[..0] == "";
    } else {
      DecimalValue(n / 10);
      assert Decimal(n)[..|Decimal(n)| - 1] == Decimal(n / 10);
    }
  }

  /** std::stoull with the check that every character was consumed.  A leading minus sign negates
      modulo 2^64, as strtoull does; a captured token never starts with white space. */
  function Stoull(s: string): Option<nat> {
    var negative := s != "" && s[0] == '-';
    var digits := if s != "" && (s[0] == '-' || s[0] == '+') then s[1..] else s;
    if digits == "" || !AllDigits(digits) then None
    else
      var v := DigitsValue(digits);
      if v >= U64_LIMIT then None
      else Some(if negative then (U64_LIMIT - v) % U64_LIMIT else v)
  }

  lemma StoullDecimal(n: nat)
    ensures Stoull(Decimal(n)) == if n < U64_LIMIT then Some(n) else None
  {
    DecimalValue(n);
    DecimalIsDigits(n);
    assert IsDigit(Decimal(n)[0]);
  }

  /** A sign is taken: plus changes nothing, minus negates modulo 2^64. */
  lemma StoullSigned(n: nat)
    ensures Stoull("+" + Decimal(n)) == if n < U64_LIMIT then Some(n) else None
    ensures Stoull("-" + Decimal(n)) == if n >= U64_LIMIT then None else if n == 0 then Some(0) else Some(U64_LIMIT - n)
  {
    DecimalValue(n);
    DecimalIsDigits(n);
    assert ("+" + Decimal(n))[1..] == Decimal(n) && ("-" + Decimal(n))[1..] == Decimal(n);
  }

  // ---------- leftmost key search ----------

  predicate IsSpace(c: char) {
    c == ' ' || c == '\t' || c == '\n' || c == '\r' || c == '\U{0b}' || c == '\U{0c}'
  }

  function SkipSpaces(t: string): string {
    if t != "" && IsSpace(t[0]) then SkipSpaces(t[1..]) else t
  }

  /** The part of t after `"name"\s*:\s*`, when t starts with that. */
  function AfterKey(t: string, name: string): Option<string> {
    if !(("\"" + name + "\"") <= t) then None
    else
      var u := SkipSpaces(t[|name| + 2..]);
      if u != "" && u[0] == ':' then Some(SkipSpaces(u[1..])) else None
  }

  /** `((?:\\.|[^"\\])*)"` anchored at the start of t: the captured group. */
  function StringBody(t: string): Option<string> {
    if t == "" then None
    else if t[0] == '"' then Some("")
    else if t[0] == '\\' then
      if |t| < 2 || t[1] == '\n' || t[1] == '\r' then None
      else match StringBody(t[2..])
        case Some(s) => Some(t[..2] + s)
        case None => None
    else match StringBody(t[1..])
      case Some(s) => Some([t[0]] + s)
      case None => None
  }

  /** The two number patterns: `[0-9]+` in the state file, `[^,}\s]+` in FILE_INFO. */
  datatype TokenClass = Digits | NonDelimiters {
    predicate Has(c: char) {
      match this
      case Digits => IsDigit(c)
      case NonDelimiters => c != ',' && c != '}' && !IsSpace(c)
    }
  }

  function Token(t: string, cls: TokenClass): string {
    if t != "" && cls.Has(t[0]) then [t[0]] + Token(t[1..], cls) else ""
  }

  datatype Pattern = StringField | NumberField(cls: TokenClass)

  function FieldAt(t: string, name: string, pattern: Pattern): Option<string> {
    match AfterKey(t, name)
    case None => None
    case Some(u) =>
      match pattern
      case StringField => if u != "" && u[0] == '"' then StringBody(u[1..]) else None
      case NumberField(cls) => if Token(u, cls) != "" then Some(Token(u, cls)) else None
  }

  /** std::regex_search: the captured group of the leftmost match. */
  function Search(t: string, name: string, pattern: Pattern): Option<string> {
    if FieldAt(t, name, pattern).Some? then FieldAt(t, name, pattern)
    else if t == "" then None
    else Search(t[1..], name, pattern)
  }

  // ---------- rendered objects ----------

  /** One `"key": value` member, with the text in front of the key and between key and value. */
  datatype Field =
    | Str(gap: string, key: string, sep: string, text: string)
    | Num(gap: string, key: string, sep: string, value: nat)
  {
    function Value(): string {
      if Str? then "\"" + Escape(text) + "\"" else Decimal(value)
    }

    predicate WellFormed() {
      SimpleKey(key) && '"' !in gap && (sep == ":" || sep == ": ")
    }
  }

  function Render(fields: seq<Field>, tail: string): string {
    if fields == [] then tail
    else fields[0].gap + "\"" + fields[0].key + "\"" + fields[0].sep + fields[0].Value() + Render(fields[1..], tail)
  }

  lemma RenderCons(f: Field, fields: seq<Field>, tail: string)
    ensures Render([f] + fields, tail) == f.gap + "\"" + f.key + "\"" + f.sep + f.Value() + Render(fields, tail)
  {
    assert ([f] + fields)[1..] == fields;
  }

  predicate SimpleKey(key: string) {
    key != "" && forall c <- key :: 'a' <= c <= 'z' || IsDigit(c) || c == '_'
  }

  /** The keys used by the payloads and by the state file. */
  lemma KnownKeys()
    ensures SimpleKey("relative_path") && SimpleKey("size") && SimpleKey("sha256") && SimpleKey("offset")
  {
  }

  /** Members are well formed and every member but the first is separated by a comma. */
  predicate WellFormedFields(fields: seq<Field>) {
    && (forall f <- fields :: f.WellFormed())
    && (forall i :: 1 <= i < |fields| ==> fields[i].gap != "" && fields[i].gap[0] == ',')
  }

  lemma {:induction false} SkipPlain(plain: string, rest: string, name: string, pattern: Pattern)
    requires '"' !in plain
    ensures Search(plain + rest, name, pattern) == Search(rest, name, pattern)
  {
    if plain == "" {
      assert plain + rest == rest;
    } else {
      var t := plain + rest;
      assert t[0] == plain[0] && t[1..] == plain[1..] + rest;
      assert ("\"" + name + "\"")[0] == '"';
      assert AfterKey(t, name).None?;
      SkipPlain(plain[1..], rest, name, pattern);
    }
  }

  /** A quoted escaped value, or a quoted key, is not the searched key unless it spells it. */
  lemma QuotedMismatch(body: string, rest: string, name: string)
    requires SimpleKey(name)
    requires forall i :: 0 <= i < |body| && body[i] == '"' ==> i > 0 && body[i - 1] == '\\'
    ensures ("\"" + name + "\"") <= "\"" + body + "\"" + rest ==> body == name
  {
    var key := "\"" + name + "\"";
    var t := "\"" + body + "\"" + rest;
    SimpleHasNoQuote(name);
    assert forall i :: 0 <= i < |name| ==> key[i + 1] == name[i];
    assert forall i :: 0 <= i < |body| ==> t[i + 1] == body[i];
    assert t[|body| + 1] == '"' && key[|name| + 1] == '"';
    if |body| < |name| {
      assert key[|body| + 1] != t[|body| + 1];
    } else if |body| > |name| {
      assert name[|name| - 1] != '\\';
      if t[|name| + 1] == '"' {
        assert body[|name|] == '"' && body[|name| - 1] == '\\';
        assert t[|name|] != key[|name|];
      }
    } else if body != name {
      var i :| 0 <= i < |name| && name[i] != body[i];
      assert t[i + 1] != key[i + 1];
    }
  }

  /** A value followed by a comma is never taken for a key. */
  lemma ValueIsNotKey(value: string, rest: string, name: string)
    requires SimpleKey(name)
    requires rest != "" && rest[0] == ','
    ensures AfterKey("\"" + Escape(value) + "\"" + rest, name).None?
  {
    var body := Escape(value);
    forall i | 0 <= i < |body| && body[i] == '"'
      ensures i > 0 && body[i - 1] == '\\'
    {
      EscapedQuotes(value, i);
    }
    QuotedMismatch(body, rest, name);
    var t := "\"" + body + "\"" + rest;
    if body == name {
      assert t[|name| + 2..] == rest;
    }
  }

  lemma ClosingQuoteIsNotKey(rest: string, name: string)
    requires SimpleKey(name)
    requires rest != "" && (rest[0] == ',' || rest[0] == ':')
    ensures AfterKey("\"" + rest, name).None?
  {
    var key := "\"" + name + "\"";
    assert name[0] in name;
    assert key[1] == name[0];
    assert ("\"" + rest)[1] == rest[0];
  }

  /** The search passes over the inside of an escaped value and its closing quote. */
  lemma {:induction false} SkipValueBody(value: string, rest: string, name: string, pattern: Pattern)
    requires SimpleKey(name)
    requires rest != "" && rest[0] == ','
    ensures Search(Escape(value) + "\"" + rest, name, pattern) == Search(rest, name, pattern)
  {
    hide Search;
    hide AfterKey;
    hide EscapeChar;
    hide Escape;
    EscapeStep(value);
    if value == "" {
      ClosingQuoteIsNotKey(rest, name);
      SearchOn("\"" + rest, name, pattern);
      NothingEscaped("\"", rest);
    } else {
      var after := Escape(value[1..]) + "\"" + rest;
      SkipValueBody(value[1..], rest, name, pattern);
      RegroupEscaped(EscapeChar(value[0]), Escape(value[1..]), "\"", rest);
      if value[0] == '"' {
        SkipEscapedQuote(value[1..], rest, name, pattern);
        QuoteEscapes(after);
      } else {
        PlainEscapes(value[0]);
        SkipPlain(EscapeChar(value[0]), after, name, pattern);
      }
    }
  }

  lemma EscapeStep(value: string)
    ensures Escape(value) == if value == "" then "" else EscapeChar(value[0]) + Escape(value[1..])
  {
  }

  lemma QuoteEscapes(after: string)
    ensures EscapeChar('"') + after == "\\" + ("\"" + after)
  {
  }

  lemma PlainEscapes(c: char)
    requires c != '"'
    ensures '"' !in EscapeChar(c)
  {
  }

  lemma NothingEscaped(quote: string, rest: string)
    requires |quote| == 1
    ensures "" + quote + rest == quote + rest && (quote + rest)[1..] == rest
  {
  }

  lemma RegroupEscaped(first: string, body: string, quote: string, rest: string)
    ensures (first + body) + quote + rest == first + (body + quote + rest)
  {
  }

  lemma SearchOn(t: string, name: string, pattern: Pattern)
    requires t != "" && AfterKey(t, name).None?
    ensures Search(t, name, pattern) == Search(t[1..], name, pattern)
  {
    hide AfterKey;
  }

  lemma SkipEscapedQuote(value: string, rest: string, name: string, pattern: Pattern)
    requires SimpleKey(name) && rest != "" && rest[0] == ','
    ensures Search("\\" + ("\"" + (Escape(value) + "\"" + rest)), name, pattern)
         == Search(Escape(value) + "\"" + rest, name, pattern)
  {
    hide Escape;
    hide Search;
    hide AfterKey;
    var after := Escape(value) + "\"" + rest;
    SkipPlain("\\", "\"" + after, name, pattern);
    ValueIsNotKey(value, rest, name);
    FrontQuote("\"", Escape(value), rest);
    SearchOn("\"" + after, name, pattern);
    NothingEscaped("\"", after);
  }

  lemma FrontQuote(quote: string, body: string, rest: string)
    ensures quote + body + quote + rest == quote + (body + quote + rest)
  {
  }

  lemma SkipValue(f: Field, rest: string, name: string, pattern: Pattern)
    requires SimpleKey(name)
    requires rest != "" && rest[0] == ','
    ensures Search(f.Value() + rest, name, pattern) == Search(rest, name, pattern)
  {
    if f.Str? {
      var t := f.Value() + rest;
      var after := Escape(f.text) + "\"" + rest;
      assert t == "\"" + Escape(f.text) + "\"" + rest;
      ValueIsNotKey(f.text, rest, name);
      assert t[1..] == after;
      SkipValueBody(f.text, rest, name, pattern);
    } else {
      DecimalIsDigits(f.value);
      SkipPlain(f.Value(), rest, name, pattern);
    }
  }

  lemma SkipKey(key: string, afterKey: string, name: string, pattern: Pattern)
    requires SimpleKey(key) && SimpleKey(name) && key != name
    requires afterKey != "" && afterKey[0] == ':'
    ensures Search("\"" + key + "\"" + afterKey, name, pattern) == Search(afterKey, name, pattern)
  {
    var closing := "\"" + afterKey;
    var opening := "\"" + key + "\"" + afterKey;
    SimpleHasNoQuote(key);
    QuotedMismatch(key, afterKey, name);
    assert opening[1..] == key + closing;
    SkipPlain(key, closing, name, pattern);
    ClosingQuoteIsNotKey(afterKey, name);
    assert closing[1..] == afterKey;
  }

  /** The search passes over a whole member with another key. */
  lemma SkipField(f: Field, rest: string, name: string, pattern: Pattern)
    requires f.WellFormed() && SimpleKey(name) && f.key != name
    requires rest != "" && rest[0] == ','
    ensures Search(f.gap + "\"" + f.key + "\"" + f.sep + f.Value() + rest, name, pattern)
         == Search(rest, name, pattern)
  {
    hide Search;
    hide Escape;
    hide Decimal;
    SepIsPlain(f, f.Value() + rest);
    var value := f.Value() + rest;
    var afterKey := f.sep + value;
    var opening := "\"" + f.key + "\"" + afterKey;
    RegroupField(f.gap, "\"", f.key, f.sep, f.Value(), rest);
    SkipPlain(f.gap, opening, name, pattern);
    SkipKey(f.key, afterKey, name, pattern);
    SkipPlain(f.sep, value, name, pattern);
    SkipValue(f, rest, name, pattern);
  }

  lemma SepIsPlain(f: Field, value: string)
    requires f.WellFormed()
    ensures '"' !in f.gap && '"' !in f.sep && SimpleKey(f.key)
    ensures f.sep + value != "" && (f.sep + value)[0] == ':'
  {
  }

  lemma RegroupField(gap: string, quote: string, key: string, sep: string, value: string, rest: string)
    ensures gap + quote + key + quote + sep + value + rest == gap + (quote + key + quote + (sep + (value + rest)))
  {
    assert gap + quote + key + quote == gap + (quote + key + quote);
  }

  lemma SimpleHasNoQuote(key: string)
    requires SimpleKey(key)
    ensures '"' !in key && '\\' !in key && '{' !in key && '}' !in key
    ensures forall i :: 0 <= i < |key| ==> key[i] != '"' && key[i] != '\\'
  {
    forall i | 0 <= i < |key|
      ensures key[i] != '"' && key[i] != '\\'
    {
      assert key[i] in key;
    }
  }

  lemma {:induction false} StringBodyOfEscaped(value: string, rest: string)
    ensures StringBody(Escape(value) + "\"" + rest) == Some(Escape(value))
  {
    var t := Escape(value) + "\"" + rest;
    if value != "" {
      var after := Escape(value[1..]) + "\"" + rest;
      StringBodyOfEscaped(value[1..], rest);
      var head := EscapeChar(value[0]);
      assert t == head + after;
      if |head| == 2 {
        assert t[2..] == after && t[..2] == head;
      } else {
        assert t[1..] == after && [t[0]] == head;
      }
    } else {
      assert t == "\"" + rest;
    }
  }

  lemma {:induction false} TokenOfDigits(digits: string, rest: string, cls: TokenClass)
    requires AllDigits(digits)
    requires rest == "" || !cls.Has(rest[0])
    ensures Token(digits + rest, cls) == digits
  {
    if digits == "" {
      assert digits + rest == rest;
    } else {
      assert digits[0] in digits;
      assert (digits + rest)[1..] == digits[1..] + rest;
      TokenOfDigits(digits[1..], rest, cls);
      assert [digits[0]] + digits[1..] == digits;
    }
  }

  /** What the pattern captures when it is anchored at the key of the member itself. */
  function Captured(f: Field): string {
    if f.Str? then Escape(f.text) else Decimal(f.value)
  }

  predicate Matches(f: Field, pattern: Pattern) { f.Str? <==> pattern.StringField? }

  lemma AfterOwnKey(key: string, sep: string, value: string)
    requires sep == ":" || sep == ": "
    requires value != "" && !IsSpace(value[0])
    ensures AfterKey("\"" + key + "\"" + sep + value, key) == Some(value)
  {
    var t := "\"" + key + "\"" + sep + value;
    assert t[|key| + 2..] == sep + value;
    assert (sep + value)[0] == ':';
    assert SkipSpaces(value) == value;
    if sep == ":" {
      assert (sep + value)[1..] == value;
    } else {
      var spaced := " " + value;
      assert (sep + value)[1..] == spaced;
      assert spaced[1..] == value;
      assert SkipSpaces(spaced) == value;
    }
  }

  lemma FieldAtItsKey(f: Field, rest: string, pattern: Pattern)
    requires f.WellFormed() && Matches(f, pattern)
    requires f.Num? ==> rest == "" || !pattern.cls.Has(rest[0])
    ensures FieldAt("\"" + f.key + "\"" + f.sep + f.Value() + rest, f.key, pattern) == Some(Captured(f))
  {
    var value := f.Value() + rest;
    assert "\"" + f.key + "\"" + f.sep + f.Value() + rest == "\"" + f.key + "\"" + f.sep + value;
    if f.Str? {
      assert value == "\"" + (Escape(f.text) + "\"" + rest);
      assert value[1..] == Escape(f.text) + "\"" + rest;
      StringBodyOfEscaped(f.text, rest);
    } else {
      DecimalIsDigits(f.value);
      assert value[0] == Decimal(f.value)[0] && Decimal(f.value)[0] in Decimal(f.value);
      TokenOfDigits(Decimal(f.value), rest, pattern.cls);
    }
    AfterOwnKey(f.key, f.sep, value);
  }

  lemma FoundHere(t: string, name: string, pattern: Pattern)
    requires FieldAt(t, name, pattern).Some?
    ensures Search(t, name, pattern) == FieldAt(t, name, pattern)
  {
    hide FieldAt;
  }

  /** The leftmost match of a key search over a rendered object is always the member with that
      key, whatever the string values contain: quotes, backslashes or text that looks like a key. */
  lemma {:induction false} SearchFindsField(fields: seq<Field>, tail: string, i: nat, pattern: Pattern)
    requires WellFormedFields(fields) && i < |fields|
    requires Matches(fields[i], pattern)
    requires forall j :: 0 <= j < i ==> fields[j].key != fields[i].key
    requires i == |fields| - 1 && fields[i].Num? ==> tail == "" || !pattern.cls.Has(tail[0])
    ensures Search(Render(fields, tail), fields[i].key, pattern) == Some(Captured(fields[i]))
    decreases i
  {
    hide Search;
    hide FieldAt;
    hide Render;
    hide WellFormedFields;
    hide Field.WellFormed;
    FieldsFront(fields, tail);
    var f := fields[0];
    var rest := Render(fields[1..], tail);
    if i == 0 {
      var own := "\"" + f.key + "\"" + f.sep + f.Value() + rest;
      RegroupMember(f.gap, "\"", f.key, f.sep, f.Value(), rest);
      GapHasNoQuote(f);
      SkipPlain(f.gap, own, f.key, pattern);
      FieldAtItsKey(f, rest, pattern);
      FoundHere(own, f.key, pattern);
    } else {
      FieldIsWellFormed(fields, i);
      SkipField(f, rest, fields[i].key, pattern);
      assert fields[1..][i - 1] == fields[i];
      SearchFindsField(fields[1..], tail, i - 1, pattern);
    }
  }

  lemma RegroupMember(gap: string, quote: string, key: string, sep: string, value: string, rest: string)
    ensures gap + quote + key + quote + sep + value + rest == gap + (quote + key + quote + sep + value + rest)
  {
    assert gap + quote + key + quote == gap + (quote + key + quote);
  }

  lemma GapHasNoQuote(f: Field)
    requires f.WellFormed()
    ensures '"' !in f.gap
  {
  }

  lemma FieldIsWellFormed(fields: seq<Field>, i: nat)
    requires WellFormedFields(fields) && i < |fields|
    ensures fields[i].WellFormed() && SimpleKey(fields[i].key)
  {
    assert fields[i] in fields;
  }

  lemma FieldsFront(fields: seq<Field>, tail: string)
    requires WellFormedFields(fields) && fields != []
    ensures fields[0].WellFormed() && WellFormedFields(fields[1..])
    ensures Render(fields, tail)
         == fields[0].gap + "\"" + fields[0].key + "\"" + fields[0].sep + fields[0].Value() + Render(fields[1..], tail)
    ensures |fields| == 1 ==> Render(fields[1..], tail) == tail
    ensures |fields| > 1 ==> Render(fields[1..], tail) != "" && Render(fields[1..], tail)[0] == ','
  {
    hide Field.WellFormed;
    assert fields[0] in fields;
    if |fields| > 1 {
      var next := fields[1..];
      assert next[0] == fields[1];
      var more := Render(next[1..], tail);
      assert Render(next, tail) == next[0].gap + "\"" + next[0].key + "\"" + next[0].sep + next[0].Value() + more;
    }
  }
}
