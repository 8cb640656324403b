/** Braces in the strings of the resume state file.  load splits the text at braces, so that a record with
    braces is lost, or makes the whole file unreadable: which, exactly, is said here for every list of
    records. */
module ResumeBraces {
  import opened Results
  import opened TransferTypes
  import opened JsonText
  import opened ResumeText

  // ---------- what the loop of load makes of a text ----------

  function Then(found: Result<Option<ResumeRecord>, ErrorCode>, rest: Result<seq<ResumeRecord>, ErrorCode>): Result<seq<ResumeRecord>, ErrorCode> {
    match found
    case Err(e) => Err(e)
    case Ok(r) =>
      match rest
      case Err(e) => Err(e)
      case Ok(records) => Ok((if r.Some? then [r.value] else []) + records)
  }

  lemma LoadSkips(plain: string, rest: string)
    requires '{' !in plain
    ensures LoadText(plain + rest) == LoadText(rest)
  {
    ObjectsSkip(plain, rest);
  }

  lemma LoadTakes(inner: string, rest: string)
    requires BraceFree(inner)
    ensures LoadText("{" + inner + "}" + rest) == Then(DecodeObject("{" + inner + "}"), LoadText(rest))
  {
    hide DecodeObject;
    hide Objects;
    ObjectsTake(inner, rest);
    var all := ["{" + inner + "}"] + Objects(rest);
    assert all[1..] == Objects(rest);
  }

  /** An opening brace that another one follows first opens no object. */
  lemma LoadDrops(inner: string, rest: string)
    requires BraceFree(inner)
    ensures LoadText("{" + inner + "{" + rest) == LoadText("{" + rest)
  {
    var t := "{" + inner + "{" + rest;
    assert t[1..] == inner + ("{" + rest);
    RunOf(inner, "{" + rest);
    assert Run("{" + rest) == "";
    assert t[|inner| + 1] == '{';
    assert !ObjectStarts(t);
    LoadSkips(inner, "{" + rest);
  }

  // ---------- braces in a string ----------

  function FirstBrace(s: string): Option<char> {
    if s == "" then None else if IsBrace(s[0]) then Some(s[0]) else FirstBrace(s[1..])
  }

  /** The written form of what follows the last brace, if that is an opening one; before the first brace, what
      is open already counts. */
  function Pending(before: Option<string>, s: string): Option<string>
    decreases |s|
  {
    if s == "" then before
    else if s[0] == '{' then Pending(Some(""), s[1..])
    else if s[0] == '}' then Pending(None, s[1..])
    else Pending(if before.Some? then Some(before.value + EscapeChar(s[0])) else None, s[1..])
  }

  function Opening(before: Option<string>): string { if before.Some? then "{" + before.value else "" }

  // ---------- what looks like the key of a path ----------

  const KEY_START := "\"" + "relative_path"

  predicate EndsLikeKey(t: string) { |KEY_START| <= |t| && t[|t| - |KEY_START|..] == KEY_START }

  /** No quote follows an h. */
  predicate Quiet(t: string) { forall i :: 0 < i < |t| && t[i] == '"' ==> t[i - 1] != 'h' }

  /** A quote that follows an h is followed by a comma. */
  predicate Harmless(t: string) { forall i :: 0 < i < |t| - 1 && t[i] == '"' && t[i - 1] == 'h' ==> t[i + 1] == ',' }

  lemma KeyText()
    ensures |KEY_START| == 14 && KEY_START[13] == 'h' && PATH_KEY == KEY_START + "\"" && |PATH_KEY| == 15
    ensures PATH_KEY[13] == 'h' && PATH_KEY[14] == '"' && BraceFree(KEY_START)
  {
  }

  predicate OccursAt(t: string, sub: string, i: int) { 0 <= i <= |t| - |sub| && t[i..i + |sub|] == sub }

  lemma {:induction false} ContainsAt(t: string, sub: string)
    ensures Contains(t, sub) <==> exists i :: OccursAt(t, sub, i)
  {
    if sub <= t {
      assert OccursAt(t, sub, 0);
    } else if t != "" {
      ContainsAt(t[1..], sub);
      if i :| OccursAt(t[1..], sub, i) {
        assert OccursAt(t, sub, i + 1);
      }
      if i :| OccursAt(t, sub, i) {
        assert i > 0;
        assert OccursAt(t[1..], sub, i - 1);
      }
    }
  }

  /** A quote at i ends the key. */
  predicate KeyEnd(t: string, i: int) { 0 < i < |t| && t[i] == '"' && EndsLikeKey(t[..i]) }

  lemma OccursIsEnd(t: string, i: int)
    ensures OccursAt(t, PATH_KEY, i) <==> i >= 0 && KeyEnd(t, i + 14)
  {
    KeyText();
    hide PATH_KEY;
    hide KEY_START;
    if OccursAt(t, PATH_KEY, i) {
      assert t[i..i + 15][14] == t[i + 14];
      assert t[..i + 14][i..] == PATH_KEY[..14];
    }
    if i >= 0 && KeyEnd(t, i + 14) {
      assert t[..i + 14][i..] == t[i..i + 14] == KEY_START;
      assert t[i..i + 15] == t[i..i + 14] + [t[i + 14]];
    }
  }

  /** The key is found where a quote ends it. */
  lemma KeyEndsAt(t: string)
    ensures Contains(t, PATH_KEY) <==> exists i :: KeyEnd(t, i)
  {
    hide PATH_KEY;
    hide KeyEnd;
    hide OccursAt;
    ContainsAt(t, PATH_KEY);
    if i :| OccursAt(t, PATH_KEY, i) {
      OccursIsEnd(t, i);
    }
    if i :| KeyEnd(t, i) {
      LongEnough(t, i);
      OccursIsEnd(t, i - 14);
    }
  }

  lemma LongEnough(t: string, i: int)
    requires KeyEnd(t, i)
    ensures i >= 14
  {
    KeyText();
  }

  lemma EndsWithH(t: string)
    requires EndsLikeKey(t)
    ensures |t| >= 14 && t[|t| - 1] == 'h'
  {
    KeyText();
    hide KEY_START;
    assert t[|t| - 14..][13] == t[|t| - 1];
  }

  /** In front of quiet text the key can end only at the seam. */
  lemma SeamKey(a: string, b: string)
    requires b != "" && b[0] == '"' && Quiet(b)
    ensures Contains(a + b, PATH_KEY) <==> Contains(a, PATH_KEY) || EndsLikeKey(a)
  {
    var t := a + b;
    KeyEndsAt(t);
    KeyEndsAt(a);
    hide EndsLikeKey;
    if i :| KeyEnd(t, i) {
      EndsWithH(t[..i]);
      if i < |a| {
        assert t[..i] == a[..i];
        assert KeyEnd(a, i);
      } else if i == |a| {
        assert t[..i] == a;
      } else {
        LaterQuote(a, b, i);
      }
    }
    if i :| KeyEnd(a, i) {
      assert t[..i] == a[..i];
      assert KeyEnd(t, i);
    }
    if EndsLikeKey(a) {
      EndsWithH(a);
      assert t[..|a|] == a;
      assert KeyEnd(t, |a|);
    }
  }

  lemma LaterQuote(a: string, b: string, i: int)
    requires Quiet(b) && |a| < i < |a + b| && (a + b)[i] == '"'
    ensures (a + b)[..i][i - 1] != 'h'
  {
    assert (a + b)[i] == b[i - |a|] && (a + b)[i - 1] == b[i - |a| - 1];
  }

  /** A quiet text contains no key. */
  lemma QuietHasNoKey(t: string)
    requires Quiet(t)
    ensures !Contains(t, PATH_KEY)
  {
    KeyEndsAt(t);
    if i :| KeyEnd(t, i) {
      EndsWithH(t[..i]);
    }
  }

  lemma QuietJoin(a: string, b: string)
    requires Quiet(a) && Quiet(b) && (a == "" || b == "" || a[|a| - 1] != 'h' || b[0] != '"')
    ensures Quiet(a + b)
  {
  }

  lemma EscapedIsQuiet(s: string)
    ensures Quiet(Escape(s))
  {
    forall i | 0 < i < |Escape(s)| && Escape(s)[i] == '"'
      ensures Escape(s)[i - 1] != 'h'
    {
      EscapedQuotes(s, i);
    }
  }

  lemma {:induction false} NoValueFound(t: string)
    requires Harmless(t)
    ensures Search(t, "relative_path", StringField).None?
  {
    KeyText();
    assert "\"" + "relative_path" + "\"" == PATH_KEY;
    hide PATH_KEY;
    hide StringBody;
    if PATH_KEY <= t {
      assert t[13] == 'h' && t[14] == '"';
      var u := t[15..];
      assert u != "" ==> u[0] == t[15];
      assert SkipSpaces(u) == u;
    }
    assert AfterKey(t, "relative_path").None?;
    if t != "" {
      NoValueFound(t[1..]);
    }
  }

  /** An object that is not a record's own: skipped, or refused if something in it looks like the key. */
  lemma StrayObject(o: string)
    requires Harmless(o)
    ensures DecodeObject(o) == if Contains(o, PATH_KEY) then Err(InvalidResumeState) else Ok(None)
  {
    hide Contains;
    hide Search;
    NoValueFound(o);
  }

  // ---------- one string ----------

  /** What is open holds no brace, and no key either. */
  predicate Pure(opening: Option<string>) { opening.Some? ==> BraceFree(opening.value) && Quiet(opening.value) }

  lemma StrayIsSkipped(u: string, rest: string)
    requires BraceFree(u) && Quiet(u)
    ensures LoadText("{" + u + "}" + rest) == LoadText(rest)
  {
    hide LoadText;
    var o := "{" + u + "}";
    LoadTakes(u, rest);
    assert Quiet(o);
    QuietHasNoKey(o);
    StrayObject(o);
    NothingFound(LoadText(rest));
  }

  lemma NothingFound(rest: Result<seq<ResumeRecord>, ErrorCode>)
    ensures Then(Ok(None), rest) == rest
  {
    if rest.Ok? {
      assert [] + rest.value == rest.value;
    }
  }

  lemma MoreIsPure(u: string, c: char)
    requires BraceFree(u) && Quiet(u) && !IsBrace(c)
    ensures BraceFree(u + EscapeChar(c)) && Quiet(u + EscapeChar(c))
  {
    Plain(c);
    QuietJoin(u, EscapeChar(c));
    assert forall x <- u + EscapeChar(c) :: x in u || x in EscapeChar(c);
  }

  /** load reads through a string and comes out with what is open behind it; whatever the braces in the string
      close is skipped. */
  lemma {:induction false} ReadsString(before: Option<string>, s: string, rest: string)
    requires Pure(before)
    ensures Pure(Pending(before, s))
    ensures LoadText(Opening(before) + (Escape(s) + rest)) == LoadText(Opening(Pending(before, s)) + rest)
    decreases |s|
  {
    hide LoadText;
    hide Escape;
    EscapeStep(s);
    if s == "" {
      assert "" + rest == rest;
    } else {
      var c, after := s[0], Escape(s[1..]) + rest;
      hide EscapeChar;
      Plain(c);
      Ahead(EscapeChar(c), Escape(s[1..]), rest);
      if c == '{' {
        ReadsString(Some(""), s[1..], rest);
        OpensAnew(before, after);
      } else if c == '}' {
        ReadsString(None, s[1..], rest);
        Closes(before, after);
      } else if before.Some? {
        MoreIsPure(before.value, c);
        ReadsString(Some(before.value + EscapeChar(c)), s[1..], rest);
        Moved("{", before.value, EscapeChar(c), after);
      } else {
        ReadsString(None, s[1..], rest);
        LoadSkips(EscapeChar(c), after);
        NoneOpen(EscapeChar(c) + after);
        NoneOpen(after);
      }
    }
  }

  lemma Ahead(a: string, b: string, rest: string)
    ensures (a + b) + rest == a + (b + rest) && "" + rest == rest
  {
  }

  lemma NoneOpen(t: string)
    ensures Opening(None) + t == t
  {
  }

  lemma Moved(open: string, u: string, c: string, after: string)
    ensures (open + u) + (c + after) == open + (u + c) + after && open + u + c + after == (open + u) + (c + after)
  {
  }

  lemma OpensAnew(before: Option<string>, after: string)
    requires Pure(before)
    ensures LoadText(Opening(before) + ("{" + after)) == LoadText(Opening(Some("")) + after)
  {
    hide LoadText;
    assert Opening(Some("")) == "{";
    if before.Some? {
      LoadDrops(before.value, after);
      Moved("{", before.value, "{", after);
    } else {
      NoneOpen("{" + after);
    }
  }

  lemma Closes(before: Option<string>, after: string)
    requires Pure(before)
    ensures LoadText(Opening(before) + ("}" + after)) == LoadText(Opening(None) + after)
  {
    hide LoadText;
    NoneOpen(after);
    if before.Some? {
      StrayIsSkipped(before.value, after);
      Moved("{", before.value, "}", after);
    } else {
      NoneOpen("}" + after);
      LoadSkips("}", after);
    }
  }

  lemma Plain(c: char)
    ensures IsBrace(c) ==> EscapeChar(c) == [c]
    ensures !IsBrace(c) ==> BraceFree(EscapeChar(c))
    ensures c == '{' ==> EscapeChar(c) == "{"
    ensures c == '}' ==> EscapeChar(c) == "}"
  {
  }

  /** The string in front of and behind its first brace. */
  lemma {:induction false} SplitAtBrace(s: string) returns (a: string, b: string)
    requires FirstBrace(s).Some?
    ensures IsBrace(FirstBrace(s).value) && s == a + [FirstBrace(s).value] + b && BraceFree(a)
    ensures forall before :: Pending(before, s) == Pending(if FirstBrace(s).value == '{' then Some("") else None, b)
    decreases |s|
  {
    if IsBrace(s[0]) {
      a, b := "", s[1..];
    } else {
      var front;
      front, b := SplitAtBrace(s[1..]);
      a := [s[0]] + front;
    }
  }

  lemma {:induction false} NoBrace(s: string)
    requires FirstBrace(s).None?
    ensures BraceFree(s)
    ensures Pending(None, s) == None
  {
    if s != "" {
      NoBrace(s[1..]);
    }
  }

  // ---------- one record ----------

  const PATH_OPEN := PATH_KEY + ":" + "\""

  function SizeMember(size: nat): string { "," + "\"" + "size" + "\"" + ":" + Decimal(size) }

  const DIGEST_KEY := "," + "\"" + "sha256" + "\"" + ":"

  function OffsetMember(offset: nat): string { "," + "\"" + "offset" + "\"" + ":" + Decimal(offset) }

  /** From the end of the path to the opening quote of the digest. */
  function Middle(size: nat): string { "\"" + SizeMember(size) + DIGEST_KEY + "\"" }

  /** From the end of the digest to the closing brace. */
  function Ending(offset: nat): string { "\"" + OffsetMember(offset) }

  function AfterDigest(offset: nat, more: string): string { Ending(offset) + ("}" + more) }

  function AfterPath(r: ResumeRecord, more: string): string { Middle(r.size) + (Escape(r.sha256) + AfterDigest(r.offset, more)) }

  lemma ObjectIs(r: ResumeRecord, more: string)
    ensures ObjectText(r) + more == "{" + (PATH_OPEN + (Escape(r.relativePath) + AfterPath(r, more)))
  {
    hide Decimal;
    hide Escape;
    hide PATH_KEY;
    hide DIGEST_KEY;
    ObjectOpens(r);
    MembersAre(r);
    hide ObjectText;
    hide AfterFirst;
    hide SizeMember;
    hide OffsetMember;
    RegroupRecord("{", PATH_KEY + ":", "\"", Escape(r.relativePath), SizeMember(r.size), DIGEST_KEY, Escape(r.sha256), OffsetMember(r.offset), "}", more);
  }

  lemma MembersAre(r: ResumeRecord)
    ensures AfterFirst(r)
         == SizeMember(r.size) + (DIGEST_KEY + ("\"" + Escape(r.sha256) + "\"") + (OffsetMember(r.offset) + "}"))
  {
    hide Decimal;
    hide Escape;
    var fields := RecordFields(r);
    assert fields[1..] == [fields[1]] + fields[2..] && fields[2..] == [fields[2]] + fields[3..] && fields[3..] == [fields[3]] + [];
    assert AfterFirst(r) == Render(fields[1..], "}");
    hide Render;
    RenderCons(fields[3], [], "}");
    RenderCons(fields[2], fields[3..], "}");
    RenderCons(fields[1], fields[2..], "}");
    NothingRendered("}");
  }

  lemma NothingRendered(tail: string)
    ensures Render([], tail) == tail
  {
  }

  lemma RegroupRecord(open: string, key: string, q: string, p: string, size: string, digest: string, e: string, offset: string,
                      close: string, more: string)
    ensures open + (key + ((q + p + q) + (size + (digest + (q + e + q) + (offset + close))))) + more
         == open + ((key + q) + (p + ((q + size + digest + q) + (e + ((q + offset) + (close + more))))))
  {
    assert (q + p + q) + (size + (digest + (q + e + q) + (offset + close)))
        == q + (p + ((q + size + digest + q) + (e + ((q + offset) + close))));
  }

  // ---------- from the braces to the result ----------

  /** Behind the digest: what is open there is closed by the record's own brace. */
  lemma ReadsEnding(opening: Option<string>, offset: nat, more: string)
    requires Pure(opening)
    ensures LoadText(Opening(opening) + AfterDigest(offset, more))
         == if opening.Some? && EndsLikeKey(opening.value) then Err(InvalidResumeState) else LoadText(more)
  {
    hide LoadText;
    EndingIs(offset);
    hide Ending;
    var e := Ending(offset);
    if opening.Some? {
      var u := opening.value;
      RegroupBehind("{", u, e, "}", more);
      LoadTakes(u + e, more);
      StrayWith("{" + u, e + "}");
      InFront("{", u);
      NothingFound(LoadText(more));
    } else {
      Ahead(e, "}", more);
      NoneOpen(e + ("}" + more));
      LoadSkips(e + "}", more);
    }
  }

  lemma RegroupBehind(open: string, u: string, e: string, close: string, more: string)
    ensures (open + u) + (e + (close + more)) == open + (u + e) + close + more
    ensures open + (u + e) + close == (open + u) + (e + close)
  {
  }

  lemma EndingIs(offset: nat)
    ensures BraceFree(Ending(offset)) && Quiet(Ending(offset)) && |Ending(offset)| > 1 && Ending(offset)[0] == '"' && Ending(offset)[1] == ','
    ensures Quiet(Ending(offset) + "}")
  {
    DecimalIsDigits(offset);
    hide Decimal;
    DigitsOnly(Decimal(offset));
  }

  lemma DigitsOnly(s: string)
    requires AllDigits(s)
    ensures BraceFree(s) && '"' !in s && forall i :: 0 <= i < |s| ==> s[i] != '"' && s[i] != 'h'
  {
    forall i | 0 <= i < |s|
      ensures s[i] != '"' && s[i] != 'h'
    {
      assert s[i] in s;
    }
  }

  /** A stray object with one place where the key could end. */
  lemma StrayWith(a: string, b: string)
    requires Quiet(a) && Quiet(b) && |b| > 1 && b[0] == '"' && b[1] == ','
    requires a == "" || a[|a| - 1] != '"' || |a| < 2 || a[|a| - 2] != 'h'
    ensures DecodeObject(a + b) == if EndsLikeKey(a) then Err(InvalidResumeState) else Ok(None)
  {
    hide DecodeObject;
    SeamHarmless(a, b);
    SeamKey(a, b);
    QuietHasNoKey(a);
    StrayObject(a + b);
  }

  lemma SeamHarmless(a: string, b: string)
    requires Harmless(a) && Quiet(b) && |b| > 1 && b[0] == '"' && b[1] == ','
    requires a == "" || a[|a| - 1] != '"' || |a| < 2 || a[|a| - 2] != 'h'
    ensures Harmless(a + b)
  {
  }

  /** A brace in front of a text makes no key of it. */
  lemma InFront(brace: string, t: string)
    requires brace == "{" && Quiet(t)
    ensures EndsLikeKey(brace + t) <==> EndsLikeKey(t)
    ensures Quiet(brace + t)
  {
    KeyText();
    assert KEY_START[0] == '"';
    hide KEY_START;
    var s := brace + t;
    if |t| >= 14 {
      assert s[|s| - 14..] == t[|t| - 14..];
    } else if |t| == 13 {
      assert s[|s| - 14..][0] == '{';
    }
  }

  /** With what is open behind the path: an object closed in the digest, or behind it, holds what looks like
      the key. */
  predicate LooksLikeKey(opening: Option<string>, digest: string) {
    || (opening.Some? && FirstBrace(digest) != Some('{')
        && (EndsLikeKey(opening.value) || (FirstBrace(digest).None? && EndsLikeKey("\"" + Escape(digest)))))
    || (Pending(None, digest).Some? && EndsLikeKey(Pending(None, digest).value))
  }

  lemma MiddleIs(size: nat)
    ensures BraceFree(Middle(size)) && Quiet(Middle(size)) && |Middle(size)| > 1
    ensures Middle(size)[0] == '"' && Middle(size)[1] == ','
    ensures exists front :: Middle(size) == front + ":" + "\""
  {
    DecimalIsDigits(size);
    hide Decimal;
    DigitsOnly(Decimal(size));
    var front := "\"" + SizeMember(size) + "," + "\"" + "sha256" + "\"";
    assert Middle(size) == front + ":" + "\"";
  }

  lemma EscapedOf(s: string)
    requires BraceFree(s)
    ensures BraceFree(Escape(s)) && Quiet(Escape(s)) && (Escape(s) == "" || Escape(s)[0] != '"')
    ensures Escape(s) == "" || Escape(s)[|Escape(s)| - 1] != '"' || (|Escape(s)| > 1 && Escape(s)[|Escape(s)| - 2] != 'h')
  {
    EscapeBraceFree(s);
    EscapedIsQuiet(s);
    if Escape(s) != "" && Escape(s)[|Escape(s)| - 1] == '"' {
      EscapedQuotes(s, |Escape(s)| - 1);
    }
  }

  /** The text from the middle on is quiet, and the digest's own quote is where a key could begin. */
  lemma MiddleJoins(size: nat, s: string)
    requires BraceFree(s)
    ensures var m := Middle(size) + Escape(s); Quiet(m) && BraceFree(m)
    ensures forall u: string :: EndsLikeKey(u + (Middle(size) + Escape(s))) <==> EndsLikeKey("\"" + Escape(s))
    ensures var m := Middle(size) + Escape(s); m[|m| - 1] != '"' || m[|m| - 2] != 'h'
  {
    hide Middle;
    hide EndsLikeKey;
    MiddleIs(size);
    EscapedOf(s);
    QuietJoin(Middle(size), Escape(s));
    var front :| Middle(size) == front + ":" + "\"";
    forall u: string
      ensures EndsLikeKey(u + (Middle(size) + Escape(s))) <==> EndsLikeKey("\"" + Escape(s))
    {
      BehindColon(u + front, "\"" + Escape(s));
      assert u + (Middle(size) + Escape(s)) == (u + front) + ":" + ("\"" + Escape(s));
    }
  }

  /** No key holds a colon. */
  lemma BehindColon(a: string, b: string)
    ensures EndsLikeKey(a + ":" + b) <==> EndsLikeKey(b)
  {
    KeyText();
    assert ':' !in KEY_START;
    hide KEY_START;
    var t := a + ":" + b;
    if |b| >= 14 {
      assert t[|t| - 14..] == b[|b| - 14..];
    } else if |t| >= 14 {
      assert KEY_START[13 - |b|] in KEY_START;
      assert t[|t| - 14..][13 - |b|] == t[|t| - 1 - |b|] == ':';
    }
  }

  /** Behind the path: the middle, the digest and the ending. */
  lemma ReadsDigest(opening: Option<string>, r: ResumeRecord, more: string)
    requires Pure(opening)
    ensures LoadText(Opening(opening) + AfterPath(r, more))
         == if LooksLikeKey(opening, r.sha256) then Err(InvalidResumeState) else LoadText(more)
  {
    hide LoadText;
    hide Middle;
    hide Ending;
    hide EndsLikeKey;
    hide Escape;
    hide AfterDigest;
    hide Pending;
    MiddleIs(r.size);
    var end := AfterDigest(r.offset, more);
    if opening.None? {
      LoadSkips(Middle(r.size), Escape(r.sha256) + end);
      ReadsString(None, r.sha256, end);
      ReadsEnding(Pending(None, r.sha256), r.offset, more);
      assert "" + AfterPath(r, more) == AfterPath(r, more) && "" + (Escape(r.sha256) + end) == Escape(r.sha256) + end;
    } else if FirstBrace(r.sha256).None? {
      NoBrace(r.sha256);
      ClosedByEnding(opening.value, r, more);
    } else {
      BracedDigest(opening.value, r, more);
    }
  }

  lemma BracedDigest(u: string, r: ResumeRecord, more: string)
    requires BraceFree(u) && Quiet(u) && FirstBrace(r.sha256).Some?
    ensures LoadText(Opening(Some(u)) + AfterPath(r, more))
         == if LooksLikeKey(Some(u), r.sha256) then Err(InvalidResumeState) else LoadText(more)
  {
    hide LoadText;
    hide Middle;
    hide Ending;
    hide EndsLikeKey;
    hide Escape;
    hide AfterDigest;
    hide Pending;
    var brace := FirstBrace(r.sha256).value;
    var a, b := SplitAtBrace(r.sha256);
    hide FirstBrace;
    var end := AfterDigest(r.offset, more);
    BracedString(r.sha256, a, brace, b);
    ClosedInDigest(u, r.size, a, brace, Escape(b) + end);
    var after := if brace == '{' then Some("") else None;
    ReadsString(after, b, end);
    ReadsEnding(Pending(after, b), r.offset, more);
    RegroupBraced("{", u, Middle(r.size), Escape(a), [brace], Escape(b), end);
  }

  lemma RegroupBraced(open: string, u: string, middle: string, a: string, brace: string, b: string, end: string)
    ensures open + u + (middle + ((a + brace + b) + end)) == open + u + (middle + a) + (brace + (b + end))
  {
  }

  lemma BracedString(s: string, a: string, brace: char, b: string)
    requires s == a + [brace] + b && IsBrace(brace)
    ensures Escape(s) == Escape(a) + [brace] + Escape(b)
  {
    hide Escape;
    EscapeConcat(a + [brace], b);
    EscapeConcat(a, [brace]);
    OneBrace(brace);
  }

  lemma OneBrace(brace: char)
    requires IsBrace(brace)
    ensures Escape([brace]) == [brace]
  {
    assert [brace][1..] == "";
  }

  lemma ClosedByEnding(u: string, r: ResumeRecord, more: string)
    requires BraceFree(u) && Quiet(u) && BraceFree(r.sha256)
    ensures LoadText(Opening(Some(u)) + AfterPath(r, more))
         == if EndsLikeKey(u) || EndsLikeKey("\"" + Escape(r.sha256)) then Err(InvalidResumeState) else LoadText(more)
  {
    hide LoadText;
    hide EndsLikeKey;
    hide Escape;
    MiddleIs(r.size);
    hide Middle;
    EndingIs(r.offset);
    hide Ending;
    MiddleJoins(r.size, r.sha256);
    var m, e := Middle(r.size) + Escape(r.sha256), Ending(r.offset);
    InFront("{", u);
    RegroupEnding("{", u, Middle(r.size), Escape(r.sha256), e, "}", more);
    hide AfterDigest;
    hide BraceFree;
    AllBraceFree(u, m, e);
    LoadTakes(u + m + e, more);
    StrayWithTwo("{" + u, m, e + "}");
    NothingFound(LoadText(more));
  }

  lemma AllBraceFree(a: string, b: string, c: string)
    requires BraceFree(a) && BraceFree(b) && BraceFree(c)
    ensures BraceFree(a + b + c)
  {
  }

  lemma RegroupEnding(open: string, u: string, middle: string, digest: string, e: string, close: string, more: string)
    ensures open + u + (middle + (digest + (e + (close + more)))) == open + (u + (middle + digest) + e) + close + more
    ensures open + (u + (middle + digest) + e) + close == (open + u) + (middle + digest) + (e + close)
  {
  }

  lemma ClosedInDigest(u: string, size: nat, a: string, brace: char, rest: string)
    requires BraceFree(u) && Quiet(u) && BraceFree(a) && IsBrace(brace)
    ensures LoadText("{" + u + (Middle(size) + Escape(a)) + ([brace] + rest))
         == if brace == '}' && EndsLikeKey(u) then Err(InvalidResumeState)
            else LoadText(Opening(if brace == '{' then Some("") else None) + rest)
  {
    hide LoadText;
    hide EndsLikeKey;
    hide Escape;
    MiddleIs(size);
    hide Middle;
    MiddleJoins(size, a);
    var m := Middle(size) + Escape(a);
    if brace == '{' {
      LoadDrops(u + m, rest);
      assert "{" + u + m + ([brace] + rest) == "{" + (u + m) + "{" + rest;
      assert "{" + "" + rest == "{" + rest;
    } else {
      InFront("{", u);
      LoadTakes(u + m, rest);
      assert "{" + u + m + ([brace] + rest) == "{" + (u + m) + "}" + rest;
      assert "{" + (u + m) + "}" == ("{" + u) + (m + "}");
      StrayWith("{" + u, m + "}");
      NothingFound(LoadText(rest));
      assert "" + rest == rest;
    }
  }

  /** A stray object with two places where the key could end. */
  lemma StrayWithTwo(a: string, b: string, c: string)
    requires Quiet(a) && Quiet(b) && |b| > 1 && b[0] == '"' && b[1] == ',' && (b[|b| - 1] != '"' || b[|b| - 2] != 'h')
    requires Quiet(c) && |c| > 1 && c[0] == '"' && c[1] == ','
    requires a == "" || a[|a| - 1] != '"' || |a| < 2 || a[|a| - 2] != 'h'
    ensures DecodeObject(a + b + c) == if EndsLikeKey(a) || EndsLikeKey(a + b) then Err(InvalidResumeState) else Ok(None)
  {
    hide DecodeObject;
    hide EndsLikeKey;
    SeamHarmless(a, b);
    SeamKey(a, b);
    QuietHasNoKey(a);
    SeamHarmless(a + b, c);
    SeamKey(a + b, c);
    StrayObject(a + b + c);
  }

  lemma {:induction false} EscapeConcat(a: string, b: string)
    ensures Escape(a + b) == Escape(a) + Escape(b)
  {
    if a == "" {
      assert a + b == b;
    } else {
      assert (a + b)[1..] == a[1..] + b;
      EscapeConcat(a[1..], b);
    }
  }

  lemma {:induction false} UnclosedBody(a: string)
    ensures StringBody(Escape(a) + "}").None?
  {
    var t := Escape(a) + "}";
    if a == "" {
      assert t == "}" && t[1..] == "";
    } else {
      UnclosedBody(a[1..]);
      var head := EscapeChar(a[0]);
      assert t == head + (Escape(a[1..]) + "}");
      if |head| == 2 {
        assert t[2..] == Escape(a[1..]) + "}";
      } else {
        assert t[1..] == Escape(a[1..]) + "}";
      }
    }
  }

  lemma UnclosedIsNotKey(a: string, name: string)
    requires SimpleKey(name)
    ensures AfterKey("\"" + Escape(a) + "}", name).None?
  {
    var key := "\"" + name + "\"";
    var body := Escape(a);
    var t := "\"" + body + "}";
    SimpleHasNoQuote(name);
    assert forall i :: 0 <= i < |name| ==> key[i + 1] == name[i];
    assert forall i :: 0 <= i < |body| ==> t[i + 1] == body[i];
    assert key[|name| + 1] == '"' && t[|body| + 1] == '}';
    if |name| < |body| && body[|name|] == '"' {
      EscapedQuotes(a, |name|);
      assert name[|name| - 1] != '\\';
      assert t[|name|] != key[|name|];
    } else if |name| < |body| {
      assert t[|name| + 1] != key[|name| + 1];
    }
  }

  lemma {:induction false} NoFieldInUnclosed(a: string, name: string)
    requires SimpleKey(name)
    ensures Search(Escape(a) + "}", name, StringField).None?
  {
    var t := Escape(a) + "}";
    if a == "" {
      assert t == "}" + "";
      SkipPlain("}", "", name, StringField);
    } else {
      var after := Escape(a[1..]) + "}";
      NoFieldInUnclosed(a[1..], name);
      if a[0] == '"' {
        assert t == "\\" + ("\"" + after);
        SkipPlain("\\", "\"" + after, name, StringField);
        UnclosedIsNotKey(a[1..], name);
        assert "\"" + Escape(a[1..]) + "}" == "\"" + after;
        assert ("\"" + after)[1..] == after;
      } else {
        assert t == EscapeChar(a[0]) + after;
        SkipPlain(EscapeChar(a[0]), after, name, StringField);
      }
    }
  }

  lemma UnclosedField(a: string, name: string)
    requires SimpleKey(name)
    ensures FieldAt("\"" + name + "\"" + ":" + ("\"" + Escape(a) + "}"), name, StringField).None?
  {
    var value := "\"" + Escape(a) + "}";
    AfterOwnKey(name, ":", value);
    UnclosedBody(a);
    assert value[1..] == Escape(a) + "}";
  }

  lemma UnclosedValue(a: string, name: string)
    requires SimpleKey(name)
    ensures Search("\"" + Escape(a) + "}", name, StringField).None?
  {
    var value := "\"" + Escape(a) + "}";
    UnclosedIsNotKey(a, name);
    NoFieldInUnclosed(a, name);
    assert value[1..] == Escape(a) + "}";
  }

  lemma NothingClosed(a: string, name: string)
    requires SimpleKey(name)
    ensures Search("{" + ("\"" + name + "\"" + ":" + ("\"" + Escape(a) + "}")), name, StringField).None?
  {
    hide FieldAt;
    hide AfterKey;
    var value := "\"" + Escape(a) + "}";
    var member := "\"" + name + "\"" + ":" + value;
    var closing := "\"" + (":" + value);
    SkipPlain("{", member, name, StringField);
    UnclosedField(a, name);
    assert member[1..] == name + closing;
    SimpleHasNoQuote(name);
    SkipPlain(name, closing, name, StringField);
    ClosingQuote(":" + value, name);
    SkipPlain(":", value, name, StringField);
    UnclosedValue(a, name);
  }

  lemma ClosingQuote(rest: string, name: string)
    requires SimpleKey(name) && rest != "" && rest[0] == ':'
    ensures Search("\"" + rest, name, StringField) == Search(rest, name, StringField)
  {
    ClosingQuoteIsNotKey(rest, name);
    assert ("\"" + rest)[1..] == rest;
  }

  lemma ClosedEarly(a: string)
    ensures DecodeObject("{" + (PATH_KEY + ":" + ("\"" + Escape(a) + "}"))) == Err(InvalidResumeState)
  {
    hide Search;
    hide Contains;
    var rest := ":" + ("\"" + Escape(a) + "}");
    ContainsAfter('{', PATH_KEY, rest);
    assert PATH_KEY + ":" + ("\"" + Escape(a) + "}") == PATH_KEY + rest;
    KnownKeys();
    NothingClosed(a, "relative_path");
  }

  /** The same for the digest: whatever the path, a closing brace in the digest leaves it without an end. */
  lemma DigestClosedEarly(path: string, size: u64, a: string)
    requires BraceFree(path) && BraceFree(a)
    ensures DecodeObject("{" + (PATH_OPEN + (Escape(path) + (Middle(size) + Escape(a)))) + "}") == Err(InvalidResumeState)
  {
    hide Decimal;
    hide Escape;
    hide Search;
    hide Contains;
    var fields := [Str("{", "relative_path", ":", path), Num(",", "size", ":", size)];
    var tail := "," + ("\"" + "sha256" + "\"" + ":" + ("\"" + Escape(a) + "}"));
    TwoFields(fields, tail, path, size);
    RegroupTwo("{", "\"", ":", path, size, a);
    KnownKeys();
    assert |fields[0].key| == 13 && |fields[1].key| == 4;
    assert fields[0].WellFormed() && fields[1].WellFormed();
    SearchFindsField(fields, tail, 0, StringField);
    SearchFindsField(fields, tail, 1, NumberField(Digits));
    SkipTwo(fields, tail, "sha256");
    NoDigest(a);
    UnescapeInvertsEscape(path);
    StoullDecimal(size);
    KeyIsThere(fields, tail);
  }

  lemma TwoFields(fields: seq<Field>, tail: string, path: string, size: nat)
    requires fields == [Str("{", "relative_path", ":", path), Num(",", "size", ":", size)]
    ensures Render(fields, tail) == "{" + "\"" + "relative_path" + "\"" + ":" + ("\"" + Escape(path) + "\"")
                                    + ("," + "\"" + "size" + "\"" + ":" + Decimal(size) + tail)
  {
    hide Escape;
    hide Decimal;
    assert fields == [fields[0]] + [fields[1]] && [fields[1]] == [fields[1]] + [];
    hide Render;
    RenderCons(fields[0], [fields[1]], tail);
    RenderCons(fields[1], [], tail);
    NothingRendered(tail);
  }

  lemma SkipTwo(fields: seq<Field>, tail: string, name: string)
    requires |fields| == 2 && WellFormedFields(fields) && SimpleKey(name) && fields[0].key != name && fields[1].key != name
    requires tail != "" && tail[0] == ','
    ensures Search(Render(fields, tail), name, StringField) == Search(tail, name, StringField)
  {
    hide Search;
    hide Field.WellFormed;
    FieldsFront(fields, tail);
    FieldsFront(fields[1..], tail);
    assert fields[1..][0] == fields[1];
    hide Render;
    SkipField(fields[1], tail, name, StringField);
    SkipField(fields[0], Render(fields[1..], tail), name, StringField);
  }

  lemma NoDigest(a: string)
    ensures Search("," + ("\"" + "sha256" + "\"" + ":" + ("\"" + Escape(a) + "}")), "sha256", StringField).None?
  {
    hide Search;
    KnownKeys();
    var member := "\"" + "sha256" + "\"" + ":" + ("\"" + Escape(a) + "}");
    NothingClosed(a, "sha256");
    SkipPlain("{", member, "sha256", StringField);
    SkipPlain(",", member, "sha256", StringField);
  }

  lemma KeyIsThere(fields: seq<Field>, tail: string)
    requires |fields| == 2 && fields[0].gap == "{" && fields[0].key == "relative_path" && fields[0].sep == ":"
    ensures Contains(Render(fields, tail), PATH_KEY)
  {
    hide Contains;
    assert fields == [fields[0]] + [fields[1]];
    hide Render;
    RenderCons(fields[0], [fields[1]], tail);
    var rest := fields[0].sep + fields[0].Value() + Render([fields[1]], tail);
    ContainsAfter('{', PATH_KEY, rest);
    RegroupKey(fields[0].gap, "\"", fields[0].key, fields[0].sep, fields[0].Value(), Render([fields[1]], tail));
  }

  lemma RegroupKey(gap: string, q: string, key: string, sep: string, value: string, rest: string)
    ensures gap + q + key + q + sep + value + rest == gap + ((q + key + q) + (sep + value + rest))
  {
  }

  lemma RegroupTwo(open: string, q: string, colon: string, path: string, size: nat, a: string)
    requires open == "{" && q == "\"" && colon == ":"
    ensures "{" + (PATH_OPEN + (Escape(path) + (Middle(size) + Escape(a)))) + "}"
         == "{" + "\"" + "relative_path" + "\"" + ":" + ("\"" + Escape(path) + "\"")
            + ("," + "\"" + "size" + "\"" + ":" + Decimal(size) + ("," + ("\"" + "sha256" + "\"" + ":" + ("\"" + Escape(a) + "}"))))
  {
    hide Escape;
    hide Decimal;
    RegroupPieces(open, q, "relative_path", colon, Escape(path), ",", "size", Decimal(size), "sha256", Escape(a), "}");
  }

  lemma RegroupPieces(open: string, q: string, key: string, colon: string, p: string, comma: string, size: string, d: string,
                      sha: string, a: string, close: string)
    ensures open + ((q + key + q + colon + q) + (p + ((q + (comma + q + size + q + colon + d) + (comma + q + sha + q + colon) + q) + a))) + close
         == open + q + key + q + colon + (q + p + q)
            + (comma + q + size + q + colon + d + (comma + (q + sha + q + colon + (q + a + close))))
  {
    assert (q + key + q + colon + q) == (q + key + q + colon) + q;
    assert open + q + key + q + colon == open + (q + key + q + colon);
  }

  // ---------- the result ----------

  /** A saved record that load refuses.  The first brace of path and digest closes the object too early; or
      there is none and a string is empty; or an object that opens in a string ends behind what looks like the
      key, as in a path that ends with an opening brace, a quote and the key's name. */
  predicate Unreadable(r: ResumeRecord) {
    match FirstBrace(r.relativePath + r.sha256)
    case None => r.relativePath == "" || r.sha256 == ""
    case Some(brace) => brace == '}' || LooksLikeKey(Pending(None, r.relativePath), r.sha256)
  }

  lemma {:induction false} FirstBraceConcat(a: string, b: string)
    ensures FirstBrace(a + b) == if FirstBrace(a).Some? then FirstBrace(a) else FirstBrace(b)
  {
    if a == "" {
      assert a + b == b;
    } else {
      assert (a + b)[1..] == a[1..] + b;
      FirstBraceConcat(a[1..], b);
    }
  }

  lemma {:induction false} BracesShow(s: string)
    ensures FirstBrace(s).None? <==> BraceFree(s)
  {
    if s != "" {
      BracesShow(s[1..]);
      assert forall c <- s :: c == s[0] || c in s[1..];
    }
  }

  /** What load makes of one saved record in front of anything else. */
  function Reading(r: ResumeRecord, rest: Result<seq<ResumeRecord>, ErrorCode>): Result<seq<ResumeRecord>, ErrorCode> {
    if Unreadable(r) then Err(InvalidResumeState) else Then(Ok(if Clean(r) then Some(r) else None), rest)
  }

  lemma BracedPathReads(r: ResumeRecord, more: string)
    requires FirstBrace(r.relativePath).Some?
    ensures LoadText(ObjectText(r) + more) == Reading(r, LoadText(more))
  {
    hide LoadText;
    hide Escape;
    hide PATH_OPEN;
    hide AfterPath;
    hide LooksLikeKey;
    hide Pending;
    hide DecodeObject;
    ObjectIs(r, more);
    hide ObjectText;
    FirstBraceConcat(r.relativePath, r.sha256);
    BracesShow(r.relativePath);
    NothingFound(LoadText(more));
    var brace := FirstBrace(r.relativePath).value;
    var a, b := SplitAtBrace(r.relativePath);
    hide FirstBrace;
    BracedString(r.relativePath, a, brace, b);
    var after := AfterPath(r, more);
    OpenPath(a);
    RegroupPath("{", PATH_OPEN, Escape(a), [brace], Escape(b), after);
    if brace == '{' {
      LoadDrops(PATH_OPEN + Escape(a), Escape(b) + after);
      ReadsString(Some(""), b, after);
      assert Opening(Some("")) + (Escape(b) + after) == "{" + (Escape(b) + after);
      ReadsDigest(Pending(Some(""), b), r, more);
    } else {
      LoadTakes(PATH_OPEN + Escape(a), Escape(b) + after);
      PathClosedEarly(a);
    }
  }

  lemma OpenPath(a: string)
    requires BraceFree(a)
    ensures BraceFree(PATH_OPEN + Escape(a))
  {
    EscapeBraceFree(a);
    hide Escape;
  }

  lemma PathClosedEarly(a: string)
    ensures DecodeObject("{" + (PATH_OPEN + Escape(a)) + "}") == Err(InvalidResumeState)
  {
    hide DecodeObject;
    hide Escape;
    ClosedEarly(a);
    RegroupClosed("{", PATH_KEY, ":", "\"", Escape(a), "}");
  }

  lemma RegroupClosed(open: string, key: string, colon: string, q: string, a: string, close: string)
    ensures open + ((key + colon + q) + a) + close == open + (key + colon + (q + a + close))
  {
  }

  lemma RegroupPath(open: string, key: string, a: string, brace: string, b: string, after: string)
    ensures open + (key + ((a + brace + b) + after)) == open + (key + a) + brace + (b + after)
  {
  }

  lemma BracedDigestReads(r: ResumeRecord, more: string)
    requires FirstBrace(r.relativePath).None? && FirstBrace(r.sha256).Some?
    ensures LoadText(ObjectText(r) + more) == Reading(r, LoadText(more))
  {
    hide LoadText;
    hide Escape;
    hide PATH_OPEN;
    hide Pending;
    hide DecodeObject;
    hide Middle;
    hide EndsLikeKey;
    hide AfterDigest;
    ObjectIs(r, more);
    hide ObjectText;
    FirstBraceConcat(r.relativePath, r.sha256);
    BracesShow(r.sha256);
    NoBrace(r.relativePath);
    NothingFound(LoadText(more));
    var brace := FirstBrace(r.sha256).value;
    var a, b := SplitAtBrace(r.sha256);
    hide FirstBrace;
    BracedString(r.sha256, a, brace, b);
    var end := AfterDigest(r.offset, more);
    var inner := PATH_OPEN + (Escape(r.relativePath) + (Middle(r.size) + Escape(a)));
    OpenDigest(r.relativePath, r.size, a);
    RegroupDigest("{", PATH_OPEN, Escape(r.relativePath), Middle(r.size), Escape(a), [brace], Escape(b), end);
    if brace == '{' {
      LoadDrops(inner, Escape(b) + end);
      ReadsString(Some(""), b, end);
      assert Opening(Some("")) + (Escape(b) + end) == "{" + (Escape(b) + end);
      ReadsEnding(Pending(Some(""), b), r.offset, more);
    } else {
      LoadTakes(inner, Escape(b) + end);
      DigestClosedEarly(r.relativePath, r.size, a);
    }
  }

  lemma OpenDigest(path: string, size: nat, a: string)
    requires BraceFree(path) && BraceFree(a)
    ensures BraceFree(PATH_OPEN + (Escape(path) + (Middle(size) + Escape(a))))
  {
    hide Escape;
    EscapeBraceFree(path);
    EscapeBraceFree(a);
    MiddleIs(size);
    hide Middle;
  }

  lemma RegroupDigest(open: string, key: string, p: string, middle: string, a: string, brace: string, b: string, end: string)
    ensures open + (key + (p + (middle + ((a + brace + b) + end)))) == open + (key + (p + (middle + a))) + brace + (b + end)
  {
  }

  lemma PlainReads(r: ResumeRecord, more: string)
    requires FirstBrace(r.relativePath).None? && FirstBrace(r.sha256).None?
    ensures LoadText(ObjectText(r) + more) == Reading(r, LoadText(more))
  {
    hide LoadText;
    hide Escape;
    hide PATH_OPEN;
    hide DecodeObject;
    hide Middle;
    hide Ending;
    FirstBraceConcat(r.relativePath, r.sha256);
    NoBrace(r.relativePath);
    NoBrace(r.sha256);
    ObjectIs(r, more);
    ObjectIs(r, "");
    hide ObjectText;
    DecodeRendered(r);
    hide FirstBrace;
    var inner := PATH_OPEN + (Escape(r.relativePath) + (Middle(r.size) + Escape(r.sha256))) + Ending(r.offset);
    OpenDigest(r.relativePath, r.size, r.sha256);
    EndingIs(r.offset);
    RegroupWhole("{", PATH_OPEN, Escape(r.relativePath), Middle(r.size), Escape(r.sha256), Ending(r.offset), "}", more);
    RegroupWhole("{", PATH_OPEN, Escape(r.relativePath), Middle(r.size), Escape(r.sha256), Ending(r.offset), "}", "");
    assert ObjectText(r) + "" == ObjectText(r) && "{" + inner + "}" + "" == "{" + inner + "}";
    LoadTakes(inner, more);
  }

  lemma RegroupWhole(open: string, key: string, p: string, middle: string, digest: string, e: string, close: string, more: string)
    ensures open + (key + (p + (middle + (digest + (e + (close + more))))))
         == open + (key + (p + (middle + digest)) + e) + close + more
  {
  }

  lemma RecordReads(r: ResumeRecord, more: string)
    ensures LoadText(ObjectText(r) + more) == Reading(r, LoadText(more))
  {
    hide *;
    if FirstBrace(r.relativePath).Some? {
      BracedPathReads(r, more);
    } else if FirstBrace(r.sha256).Some? {
      BracedDigestReads(r, more);
    } else {
      PlainReads(r, more);
    }
  }

  /** The records that come back. */
  function OnlyClean(records: seq<ResumeRecord>): seq<ResumeRecord> {
    if records == [] then [] else (if Clean(records[0]) then [records[0]] else []) + OnlyClean(records[1..])
  }

  function Outcome(records: seq<ResumeRecord>): Result<seq<ResumeRecord>, ErrorCode> {
    if exists r :: r in records && Unreadable(r) then Err(InvalidResumeState) else Ok(OnlyClean(records))
  }

  lemma {:induction false} LinesRead(records: seq<ResumeRecord>)
    ensures LoadText(RecordLines(records) + FOOTER) == Outcome(records)
  {
    hide LoadText;
    hide ObjectText;
    hide FOOTER;
    hide Clean;
    hide Unreadable;
    hide LineEnd;
    if records == [] {
      FooterReads();
      assert "" + FOOTER == FOOTER;
    } else {
      var r := records[0];
      var more := RecordLines(records[1..]) + FOOTER;
      LinesRead(records[1..]);
      RegroupLead("    ", ObjectText(r), LineEnd(|records| > 1), RecordLines(records[1..]), FOOTER);
      RecordReads(r, LineEnd(|records| > 1) + more);
      LoadSkips("    ", ObjectText(r) + (LineEnd(|records| > 1) + more));
      LineEndBraceFree(|records| > 1);
      LoadSkips(LineEnd(|records| > 1), more);
      OutcomeOf(records);
    }
  }

  lemma OutcomeOf(records: seq<ResumeRecord>)
    requires records != []
    ensures Outcome(records) == Reading(records[0], Outcome(records[1..]))
  {
    hide Clean;
    hide Unreadable;
    assert forall r :: r in records <==> r == records[0] || r in records[1..];
  }

  lemma FooterReads()
    ensures LoadText(FOOTER) == Ok([])
  {
    assert FOOTER + "" == FOOTER;
    LoadSkips(FOOTER, "");
  }

  /** Saving any list of records and loading the file again: refused if and only if some record is
      unreadable, and otherwise the clean records come back and the others are lost without a word. */
  lemma LoadOfSaved(records: seq<ResumeRecord>)
    ensures LoadText(SaveText(records)) == Outcome(records)
  {
    hide FOOTER;
    hide RecordLines;
    if records == [] {
      EmptySaved();
    } else {
      LinesRead(records);
      StartsOpen(records);
      HeaderSkipped(RecordLines(records) + FOOTER);
    }
  }

  lemma EmptySaved()
    ensures LoadText(SaveText([])) == Ok([])
  {
    EmptyFile(|FOOTER|);
    assert FOOTER[..|FOOTER|] == FOOTER && "" + FOOTER == FOOTER;
  }

  lemma RegroupLead(lead: string, obj: string, end: string, lines: string, footer: string)
    ensures lead + obj + end + lines + footer == lead + (obj + (end + (lines + footer)))
  {
  }

  lemma StartsOpen(records: seq<ResumeRecord>)
    requires records != []
    ensures StopsAtOpening(RecordLines(records) + FOOTER)
  {
    hide ObjectText;
    hide FOOTER;
    hide LineEnd;
    var after := LineEnd(|records| > 1) + (RecordLines(records[1..]) + FOOTER);
    RegroupLead("    ", ObjectText(records[0]), LineEnd(|records| > 1), RecordLines(records[1..]), FOOTER);
    hide RecordLines;
    ObjectIs(records[0], after);
    OpensAfter("    ", ObjectText(records[0]) + after);
  }

  lemma OpensAfter(lead: string, rest: string)
    requires BraceFree(lead) && rest != "" && rest[0] == '{'
    ensures StopsAtOpening(lead + rest)
  {
    RunOf(lead, rest);
    assert Run(rest) == "";
  }

  /** A path whose first brace is a closing one, in any position of the list: the whole file is refused. */
  lemma ClosingBracePoisons(records: seq<ResumeRecord>, r: ResumeRecord)
    requires r in records && FirstBrace(r.relativePath) == Some('}')
    ensures LoadText(SaveText(records)) == Err(InvalidResumeState)
  {
    LoadOfSaved(records);
    FirstBraceConcat(r.relativePath, r.sha256);
    assert Unreadable(r);
  }

  /** An opening brace loses the record, or it can do worse: behind it, text that spells the start of the key
      makes the file unreadable without any closing brace. */
  lemma OpeningBraces(r: ResumeRecord)
    requires FirstBrace(r.relativePath) == Some('{') && FirstBrace(r.sha256).None? && !EndsLikeKey("\"" + Escape(r.sha256))
    ensures var p := Pending(None, r.relativePath);
            LoadText(SaveText([r])) == if p.Some? && EndsLikeKey(p.value) then Err(InvalidResumeState) else Ok([])
  {
    hide LoadText;
    hide SaveText;
    hide EndsLikeKey;
    hide Pending;
    LoadOfSaved([r]);
    FirstBraceConcat(r.relativePath, r.sha256);
    BracesShow(r.relativePath);
    NothingPending(r.sha256);
    assert OnlyClean([r]) == [];
    assert r in [r];
  }

  lemma NothingPending(s: string)
    requires FirstBrace(s).None?
    ensures Pending(None, s) == None
  {
    NoBrace(s);
  }
}
