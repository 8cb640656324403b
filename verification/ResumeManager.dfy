/** ResumeManager: an association list from (path, size, sha256) to the received offset, held as text. */
module ResumeManager {
  import opened Results
  import opened TransferTypes
  import opened ResumeText
  import opened ResumeBraces
  import opened JsonText

  // ---------- the list ----------

  datatype Identity = Identity(relativePath: string, size: u64, sha256: string)

  predicate SameIdentity(r: ResumeRecord, id: Identity) {
    r.relativePath == id.relativePath && r.size == id.size && r.sha256 == id.sha256
  }

  function FindOffset(records: seq<ResumeRecord>, id: Identity): Option<u64> {
    if records == [] then None
    else if SameIdentity(records[0], id) then Some(if records[0].offset > id.size then 0 else records[0].offset)
    else FindOffset(records[1..], id)
  }

  /** The offset of the first record of this identity, taken as 0 if it is beyond the size; nothing if there is none. */
  ghost predicate FoundFirst(records: seq<ResumeRecord>, id: Identity, found: Option<u64>) {
    match found
    case None => forall r <- records :: !(r.relativePath == id.relativePath && r.size == id.size && r.sha256 == id.sha256)
    case Some(offset) => exists i ::
      && 0 <= i < |records|
      && records[i].relativePath == id.relativePath && records[i].size == id.size && records[i].sha256 == id.sha256
      && (forall j :: 0 <= j < i ==> !SameIdentity(records[j], id))
      && (if records[i].offset <= id.size then offset == records[i].offset else offset == 0)
  }

  lemma {:induction false} FindIsFirst(records: seq<ResumeRecord>, id: Identity)
    ensures FoundFirst(records, id, FindOffset(records, id))
  {
    if records != [] && !SameIdentity(records[0], id) {
      var rest := records[1..];
      FindIsFirst(rest, id);
      match FindOffset(rest, id)
      case None =>
        forall r | r in records
          ensures !SameIdentity(r, id)
        {
          assert r == records[0] || r in rest;
        }
      case Some(offset) =>
        var i :| 0 <= i < |rest| && SameIdentity(rest[i], id) && (forall j :: 0 <= j < i ==> !SameIdentity(rest[j], id))
                 && (if rest[i].offset <= id.size then offset == rest[i].offset else offset == 0);
        assert records[i + 1] == rest[i];
        assert forall j :: 0 < j < i + 1 ==> records[j] == rest[j - 1];
    }
  }

  function Upsert(records: seq<ResumeRecord>, id: Identity, offset: u64): seq<ResumeRecord> {
    if records == [] then [ResumeRecord(id.relativePath, id.size, id.sha256, offset)]
    else if SameIdentity(records[0], id) then [records[0].(offset := offset)] + records[1..]
    else [records[0]] + Upsert(records[1..], id, offset)
  }

  function Without(records: seq<ResumeRecord>, id: Identity): seq<ResumeRecord> {
    if records == [] then []
    else (if SameIdentity(records[0], id) then [] else [records[0]]) + Without(records[1..], id)
  }

  // ---------- the file ----------

  /** The file does not exist, or holds a text. */
  type StateFile = Option<string>

  function LoadState(state: StateFile): Result<seq<ResumeRecord>, ErrorCode> {
    match state
    case None => Ok([])
    case Some(text) => LoadText(text)
  }

  function FindInState(state: StateFile, id: Identity): Result<Option<u64>, ErrorCode> {
    match LoadState(state)
    case Err(e) => Err(e)
    case Ok(records) => Ok(FindOffset(records, id))
  }

  /** The file after update_offset, or the error it throws, which leaves the file alone. */
  function UpdateState(state: StateFile, id: Identity, offset: u64): Result<StateFile, ErrorCode> {
    if id.relativePath == "" || id.sha256 == "" then Err(InvalidResumeState)
    else if offset > id.size then Err(InvalidResumeOffset)
    else match LoadState(state)
      case Err(e) => Err(e)
      case Ok(records) => Ok(Some(SaveText(Upsert(records, id, offset))))
  }

  function ClearState(state: StateFile, id: Identity): Result<StateFile, ErrorCode> {
    match LoadState(state)
    case Err(e) => Err(e)
    case Ok(records) => Ok(Some(SaveText(Without(records, id))))
  }

  /** The records decoded so far, followed by what the remaining objects decode to. */
  function Joined(records: seq<ResumeRecord>, rest: Result<seq<ResumeRecord>, ErrorCode>): Result<seq<ResumeRecord>, ErrorCode> {
    match rest
    case Ok(more) => Ok(records + more)
    case Err(e) => Err(e)
  }

  lemma JoinedStep(records: seq<ResumeRecord>, objects: seq<string>, i: nat)
    requires i < |objects|
    ensures Joined(records, DecodeObjects(objects[i..])) ==
            match DecodeObject(objects[i])
            case Err(e) => Err(e)
            case Ok(None) => Joined(records, DecodeObjects(objects[i + 1..]))
            case Ok(Some(r)) => Joined(records + [r], DecodeObjects(objects[i + 1..]))
  {
    assert objects[i..][0] == objects[i] && objects[i..][1..] == objects[i + 1..];
    match DecodeObjects(objects[i + 1..])
    case Err(_) =>
    case Ok(more) =>
      assert [] + more == more;
      if DecodeObject(objects[i]).Ok? && DecodeObject(objects[i]).value.Some? {
        var r := DecodeObject(objects[i]).value.value;
        assert records + ([r] + more) == (records + [r]) + more;
      }
  }

  class Manager {
    var stateFile: StateFile

    constructor (stateFile: StateFile)
      ensures this.stateFile == stateFile
    {
      this.stateFile := stateFile;
    }

    method Load() returns (r: Result<seq<ResumeRecord>, ErrorCode>)
      ensures r == LoadState(stateFile)
    {
      if stateFile.None? {
        return Ok([]);
      }
      var objects := Objects(stateFile.value);
      var records := [];
      var i := 0;
      assert objects[0..] == objects;
      assert forall all: seq<ResumeRecord> :: [] + all == all;
      while i < |objects|
        invariant 0 <= i <= |objects|
        invariant Joined(records, DecodeObjects(objects[i..])) == DecodeObjects(objects)
      {
        JoinedStep(records, objects, i);
        var decoded := DecodeObject(objects[i]);
        if decoded.Err? {
          return Err(decoded.error);
        }
        if decoded.value.Some? {
          records := records + [decoded.value.value];
        }
        i := i + 1;
      }
      assert objects[i..] == [] && records + [] == records;
      return Ok(records);
    }

    method Save(records: seq<ResumeRecord>)
      modifies this
      ensures stateFile == Some(SaveText(records))
    {
      hide RecordLines;
      hide SaveText;
      hide ObjectText;
      var output := HEADER;
      SaveStart(records);
      for i := 0 to |records|
        invariant output + (RecordLines(records[i..]) + FOOTER) == SaveText(records)
      {
        SaveLine(output, records, i);
        output := output + ("    " + ObjectText(records[i]));
        if i + 1 != |records| {
          output := output + ",";
        }
        output := output + "\n";
      }
      SaveEnd(records);
      stateFile := Some(output + FOOTER);
    }

    method Find(id: Identity) returns (r: Result<Option<u64>, ErrorCode>)
      ensures r == FindInState(stateFile, id)
      ensures r.Ok? ==> LoadState(stateFile).Ok? && FoundFirst(LoadState(stateFile).value, id, r.value)
    {
      if LoadState(stateFile).Ok? {
        FindIsFirst(LoadState(stateFile).value, id);
      }
      hide FoundFirst;
      var loaded := Load();
      if loaded.Err? {
        return Err(loaded.error);
      }
      var records := loaded.value;
      assert records[0..] == records;
      for i := 0 to |records|
        invariant FindOffset(records[i..], id) == FindOffset(records, id)
      {
        assert records[i..][0] == records[i] && records[i..][1..] == records[i + 1..];
        if SameIdentity(records[i], id) {
          if records[i].offset > id.size {
            return Ok(Some(0));
          }
          return Ok(Some(records[i].offset));
        }
      }
      return Ok(None);
    }

    /** The loop of update_offset changes the loaded vector in place and stops at the first match. */
    method UpdateOffset(id: Identity, offset: u64) returns (error: Option<ErrorCode>)
      modifies this
      ensures match UpdateState(old(stateFile), id, offset)
              case Ok(state) => error == None && stateFile == state
              case Err(e) => error == Some(e) && stateFile == old(stateFile)
      ensures id.relativePath == "" || id.sha256 == "" ==> error == Some(InvalidResumeState)
      ensures id.relativePath != "" && id.sha256 != "" && offset > id.size ==> error == Some(InvalidResumeOffset)
      ensures id.relativePath != "" && id.sha256 != "" && offset <= id.size ==> (error.None? <==> old(LoadState(stateFile)).Ok?)
    {
      hide SaveText;
      hide LoadText;
      if id.relativePath == "" || id.sha256 == "" {
        return Some(InvalidResumeState);
      }
      if offset > id.size {
        return Some(InvalidResumeOffset);
      }
      var loaded := Load();
      if loaded.Err? {
        return Some(loaded.error);
      }
      var records := loaded.value;
      UpsertStart(records, id, offset);
      for i := 0 to |records|
        invariant stateFile == old(stateFile) && records == loaded.value
        invariant records[..i] + Upsert(records[i..], id, offset) == Upsert(records, id, offset)
      {
        UpsertStep(records, id, offset, i);
        if SameIdentity(records[i], id) {
          records := records[i := records[i].(offset := offset)];
          Save(records);
          return None;
        }
      }
      assert records[..|records|] == records && records[|records|..] == [];
      records := records + [ResumeRecord(id.relativePath, id.size, id.sha256, offset)];
      Save(records);
      return None;
    }

    method Clear(id: Identity) returns (error: Option<ErrorCode>)
      modifies this
      ensures match ClearState(old(stateFile), id)
              case Ok(state) => error == None && stateFile == state
              case Err(e) => error == Some(e) && stateFile == old(stateFile)
    {
      hide SaveText;
      hide LoadText;
      var loaded := Load();
      if loaded.Err? {
        return Some(loaded.error);
      }
      var records := loaded.value;
      var kept := [];
      assert records[0..] == records;
      for i := 0 to |records|
        invariant stateFile == old(stateFile)
        invariant kept + Without(records[i..], id) == Without(records, id)
      {
        assert records[i..][0] == records[i] && records[i..][1..] == records[i + 1..];
        if !SameIdentity(records[i], id) {
          assert kept + ([records[i]] + Without(records[i + 1..], id))
              == (kept + [records[i]]) + Without(records[i + 1..], id);
          kept := kept + [records[i]];
        }
      }
      assert records[|records|..] == [] && kept + [] == kept;
      Save(kept);
      return None;
    }
  }

  lemma UpsertStart(records: seq<ResumeRecord>, id: Identity, offset: u64)
    ensures records[..0] + Upsert(records[0..], id, offset) == Upsert(records, id, offset)
  {
    assert records[0..] == records;
  }

  lemma UpsertStep(records: seq<ResumeRecord>, id: Identity, offset: u64, i: nat)
    requires i < |records|
    ensures records[..i] + Upsert(records[i..], id, offset) ==
            if SameIdentity(records[i], id) then records[i := records[i].(offset := offset)]
            else records[..i + 1] + Upsert(records[i + 1..], id, offset)
  {
    assert records[i..][0] == records[i] && records[i..][1..] == records[i + 1..];
    assert records[..i] + [records[i]] == records[..i + 1];
    if !SameIdentity(records[i], id) {
      assert records[..i] + ([records[i]] + Upsert(records[i + 1..], id, offset))
          == records[..i + 1] + Upsert(records[i + 1..], id, offset);
    }
  }

  lemma SaveStart(records: seq<ResumeRecord>)
    ensures HEADER + (RecordLines(records[0..]) + FOOTER) == SaveText(records)
  {
    assert records[0..] == records;
  }

  lemma SaveEnd(records: seq<ResumeRecord>)
    ensures RecordLines(records[|records|..]) + FOOTER == FOOTER
  {
    assert RecordLines(records[|records|..]) == "";
  }

  lemma SaveLine(output: string, records: seq<ResumeRecord>, i: nat)
    requires i < |records|
    ensures var line := output + ("    " + ObjectText(records[i]));
            output + (RecordLines(records[i..]) + FOOTER)
            == (if i + 1 != |records| then line + "," + "\n" else line + "\n") + (RecordLines(records[i + 1..]) + FOOTER)
  {
    hide ObjectText;
    var left := records[i..];
    assert left[0] == records[i] && left[1..] == records[i + 1..];
    var end := LineEnd(|left| > 1);
    assert end == if i + 1 != |records| then "," + "\n" else "\n";
    AppendLine(output, "    " + ObjectText(records[i]), end, RecordLines(records[i + 1..]), FOOTER);
    AddEnd(output + ("    " + ObjectText(records[i])), ",", "\n");
  }

  lemma AddEnd(line: string, comma: string, newline: string)
    ensures line + (comma + newline) == line + comma + newline
  {
  }

  lemma AppendLine(output: string, line: string, end: string, lines: string, footer: string)
    ensures output + ((line + end + lines) + footer) == (output + line + end) + (lines + footer)
  {
  }

  // ---------- laws of the list ----------

  lemma {:induction false} UpsertFind(records: seq<ResumeRecord>, id: Identity, offset: u64, other: Identity)
    requires offset <= id.size
    ensures FindOffset(Upsert(records, id, offset), other)
         == if other == id then Some(offset) else FindOffset(records, other)
  {
    if records == [] {
      assert Upsert(records, id, offset)[1..] == [];
    } else {
      assert Upsert(records, id, offset)[1..] ==
             if SameIdentity(records[0], id) then records[1..] else Upsert(records[1..], id, offset);
      UpsertFind(records[1..], id, offset, other);
    }
  }

  lemma {:induction false} WithoutFind(records: seq<ResumeRecord>, id: Identity, other: Identity)
    ensures FindOffset(Without(records, id), other) == if other == id then None else FindOffset(records, other)
  {
    if records != [] {
      WithoutFind(records[1..], id, other);
      if !SameIdentity(records[0], id) {
        assert Without(records, id)[1..] == Without(records[1..], id);
      } else {
        assert Without(records, id) == Without(records[1..], id);
      }
    }
  }

  lemma {:induction false} PrefixFind(records: seq<ResumeRecord>, j: nat, id: Identity)
    requires j <= |records|
    ensures FindOffset(records[..j], id) == None || FindOffset(records[..j], id) == FindOffset(records, id)
  {
    if j > 0 {
      assert records[..j][1..] == records[1..][..j - 1];
      PrefixFind(records[1..], j - 1, id);
    }
  }

  predicate CleanIdentity(id: Identity) {
    id.relativePath != "" && id.sha256 != "" && BraceFree(id.relativePath) && BraceFree(id.sha256)
  }

  lemma {:induction false} UpsertClean(records: seq<ResumeRecord>, id: Identity, offset: u64)
    requires AllClean(records) && CleanIdentity(id)
    ensures AllClean(Upsert(records, id, offset))
  {
    if records != [] {
      assert records[0] in records;
      UpsertClean(records[1..], id, offset);
    }
  }

  lemma {:induction false} WithoutClean(records: seq<ResumeRecord>, id: Identity)
    requires AllClean(records)
    ensures AllClean(Without(records, id))
  {
    if records != [] {
      assert records[0] in records;
      WithoutClean(records[1..], id);
    }
  }

  // ---------- laws of the file ----------

  /** Files that save can leave behind, cut anywhere by a crash. */
  ghost predicate GoodState(state: StateFile) {
    state.None? ||
    exists records, k: nat :: AllClean(records) && k <= |SaveText(records)| && state.value == SaveText(records)[..k]
  }

  function Records(state: StateFile): seq<ResumeRecord> {
    match LoadState(state)
    case Ok(records) => records
    case Err(_) => []
  }

  lemma SavedIsGood(records: seq<ResumeRecord>)
    requires AllClean(records)
    ensures GoodState(Some(SaveText(records))) && LoadState(Some(SaveText(records))) == Ok(records)
  {
    LoadWhole(records);
    assert SaveText(records) == SaveText(records)[..|SaveText(records)|];
  }

  lemma GoodLoads(state: StateFile)
    requires GoodState(state)
    ensures LoadState(state).Ok? && AllClean(Records(state))
  {
    if state.Some? {
      var records, k: nat :| AllClean(records) && k <= |SaveText(records)| && state.value == SaveText(records)[..k];
      LoadTorn(records, k);
      LoadedAreClean(state.value);
    }
  }

  /** Cutting a good file anywhere leaves a good file whose records are a prefix. */
  lemma TearGood(state: StateFile, m: nat)
    requires state.Some? && GoodState(state) && m <= |state.value|
    ensures GoodState(Some(state.value[..m]))
    ensures Records(Some(state.value[..m])) <= Records(state)
  {
    hide LoadText;
    hide Complete;
    var records, k: nat :| AllClean(records) && k <= |SaveText(records)| && state.value == SaveText(records)[..k];
    hide SaveText;
    assert state.value[..m] == SaveText(records)[..m];
    LoadTorn(records, k);
    LoadTorn(records, m);
    CompleteMonotone(records, m, k);
    assert records[..Complete(records, m)] == records[..Complete(records, k)][..Complete(records, m)];
  }

  lemma UpdateGood(state: StateFile, id: Identity, offset: u64)
    requires GoodState(state) && CleanIdentity(id) && offset <= id.size
    ensures UpdateState(state, id, offset).Ok?
    ensures GoodState(UpdateState(state, id, offset).value)
    ensures Records(UpdateState(state, id, offset).value) == Upsert(Records(state), id, offset)
  {
    GoodLoads(state);
    UpsertClean(Records(state), id, offset);
    SavedIsGood(Upsert(Records(state), id, offset));
  }

  lemma ClearGood(state: StateFile, id: Identity)
    requires GoodState(state)
    ensures ClearState(state, id).Ok?
    ensures GoodState(ClearState(state, id).value)
    ensures Records(ClearState(state, id).value) == Without(Records(state), id)
  {
    GoodLoads(state);
    WithoutClean(Records(state), id);
    SavedIsGood(Without(Records(state), id));
  }

  lemma {:induction false} DecodeErrors(objects: seq<string>)
    ensures DecodeObjects(objects).Err? ==> DecodeObjects(objects).error in {InvalidResumeState, InternalError}
  {
    if objects != [] {
      ObjectErrors(objects[0]);
      hide DecodeObject;
      DecodeErrors(objects[1..]);
    }
  }

  lemma ObjectErrors(obj: string)
    ensures DecodeObject(obj).Err? ==> DecodeObject(obj).error in {InvalidResumeState, InternalError}
  {
    hide Contains;
    hide Search;
    hide Unescape;
    hide Stoull;
  }

  /** The errors of a state file that cannot be read. */
  predicate OfTheFile(e: ErrorCode) { e.InvalidResumeState? || e.InternalError? }

  /** With an offset within the size the only errors are those of the state file. */
  lemma UpdateErrors(state: StateFile, id: Identity, offset: u64)
    requires offset <= id.size
    ensures UpdateState(state, id, offset).Err? ==> OfTheFile(UpdateState(state, id, offset).error)
    ensures FindInState(state, id).Err? ==> OfTheFile(FindInState(state, id).error)
    ensures ClearState(state, id).Err? ==> OfTheFile(ClearState(state, id).error)
  {
    hide DecodeObjects;
    hide Objects;
    hide SaveText;
    if state.Some? {
      DecodeErrors(Objects(state.value));
    }
  }

  // ---------- braces ----------

  function RecordOf(id: Identity, offset: u64): ResumeRecord { ResumeRecord(id.relativePath, id.size, id.sha256, offset) }

  lemma {:induction false} UpsertUnclean(records: seq<ResumeRecord>, id: Identity, offset: u64)
    requires AllClean(records) && !Clean(RecordOf(id, offset))
    ensures Upsert(records, id, offset) == records + [RecordOf(id, offset)]
  {
    if records != [] {
      assert Clean(records[0]);
      assert forall r <- records[1..] :: r in records;
      UpsertUnclean(records[1..], id, offset);
      assert records == [records[0]] + records[1..];
    }
  }

  lemma {:induction false} AllAreKept(records: seq<ResumeRecord>)
    requires AllClean(records)
    ensures OnlyClean(records) == records
  {
    hide Clean;
    if records != [] {
      assert Clean(records[0]);
      assert forall s <- records[1..] :: s in records;
      AllAreKept(records[1..]);
    }
  }

  lemma {:induction false} OnlyCleanSnoc(records: seq<ResumeRecord>, r: ResumeRecord)
    ensures OnlyClean(records + [r]) == OnlyClean(records) + OnlyClean([r])
  {
    hide Clean;
    if records == [] {
      assert records + [r] == [r];
    } else {
      OnlyCleanSnoc(records[1..], r);
      assert (records + [r])[1..] == records[1..] + [r];
    }
  }

  lemma CleanOnes(records: seq<ResumeRecord>, r: ResumeRecord)
    requires AllClean(records)
    ensures OnlyClean(records) == records && OnlyClean(records + [r]) == records + OnlyClean([r])
  {
    AllAreKept(records);
    OnlyCleanSnoc(records, r);
    hide OnlyClean;
  }

  lemma LoadedClean(state: StateFile)
    requires LoadState(state).Ok?
    ensures AllClean(Records(state))
  {
    if state.Some? {
      LoadedAreClean(state.value);
    }
  }

  /** An update that succeeds, on any state file: afterwards every find, update and clear, for every file, is
      refused if and only if the record of this identity is unreadable.  Otherwise the file loads, with this
      offset if the identity is clean, and without a trace of it if not. */
  lemma BracesBreakResumeIff(state: StateFile, id: Identity, offset: u64, other: Identity, n: u64)
    requires UpdateState(state, id, offset).Ok?
    requires other.relativePath != "" && other.sha256 != "" && n <= other.size
    ensures var after := UpdateState(state, id, offset).value;
            if Unreadable(RecordOf(id, offset)) then
              && FindInState(after, other) == Err(InvalidResumeState)
              && UpdateState(after, other, n) == Err(InvalidResumeState)
              && ClearState(after, other) == Err(InvalidResumeState)
            else
              && FindInState(after, other).Ok? && UpdateState(after, other, n).Ok? && ClearState(after, other).Ok?
              && Records(after) == (if CleanIdentity(id) then Upsert(Records(state), id, offset) else Records(state))
  {
    hide LoadText;
    hide SaveText;
    hide Unreadable;
    hide Clean;
    LoadedClean(state);
    UpsertOutcome(Records(state), id, offset);
    LoadOfSaved(Upsert(Records(state), id, offset));
    hide Upsert;
    hide Outcome;
  }

  lemma UpsertOutcome(records: seq<ResumeRecord>, id: Identity, offset: u64)
    requires AllClean(records)
    ensures Outcome(Upsert(records, id, offset))
         == if Unreadable(RecordOf(id, offset)) then Err(InvalidResumeState)
            else Ok(if CleanIdentity(id) then Upsert(records, id, offset) else records)
  {
    hide Unreadable;
    var r := RecordOf(id, offset);
    if Clean(r) {
      UpsertClean(records, id, offset);
      AllReadable(Upsert(records, id, offset));
      CleanIsReadable(r);
      CleanOnes(Upsert(records, id, offset), r);
    } else {
      UpsertUnclean(records, id, offset);
      AllReadable(records);
      CleanOnes(records, r);
      hide Upsert;
      assert forall s :: s in records + [r] <==> s in records || s == r;
      assert OnlyClean([r]) == [] && records + [] == records;
    }
  }

  lemma CleanIsReadable(r: ResumeRecord)
    requires Clean(r)
    ensures !Unreadable(r)
  {
    BracesShow(r.relativePath);
    BracesShow(r.sha256);
    FirstBraceConcat(r.relativePath, r.sha256);
  }

  lemma AllReadable(records: seq<ResumeRecord>)
    requires AllClean(records)
    ensures forall r <- records :: !Unreadable(r)
  {
    forall r | r in records
      ensures !Unreadable(r)
    {
      CleanIsReadable(r);
    }
  }
}
