/** Progress events of a transfer, as both sides emit them. */
module Progress {
  import opened TransferTypes

  datatype Direction = Send | Receive
  datatype Stage = TaskStarted | Transferring | FileCompleted | TaskCompleted

  datatype ProgressEvent = ProgressEvent(direction: Direction, relativePath: string, bytes: nat, total: nat,
                                         fileIndex: nat, fileCount: nat, stage: Stage)

  /** One file of a completed session: its FILE_INFO, the acknowledged offset and the DATA payloads. */
  datatype FileRun = FileRun(info: FileInfo, offset: u64, payloads: seq<seq<byte>>)

  function Concat(payloads: seq<seq<byte>>): seq<byte> {
    if payloads == [] then [] else payloads[0] + Concat(payloads[1..])
  }

  lemma {:induction false} ConcatSnoc(payloads: seq<seq<byte>>, last: seq<byte>)
    ensures Concat(payloads + [last]) == Concat(payloads) + last
  {
    if payloads == [] {
      assert payloads + [last] == [last];
    } else {
      ConcatSnoc(payloads[1..], last);
      assert (payloads + [last])[1..] == payloads[1..] + [last];
    }
  }

  /** After each DATA packet, the bytes so far. */
  function TransferringTrace(d: Direction, f: FileRun, index: nat, count: nat): seq<ProgressEvent>
    decreases |f.payloads|
  {
    if f.payloads == [] then []
    else
      var before := f.(payloads := f.payloads[..|f.payloads| - 1]);
      TransferringTrace(d, before, index, count)
      + [ProgressEvent(d, f.info.relativePath, f.offset + |Concat(f.payloads)|, f.info.size, index, count, Transferring)]
  }

  function FileTrace(d: Direction, f: FileRun, index: nat, count: nat): seq<ProgressEvent> {
    TransferringTrace(d, f, index, count)
    + [ProgressEvent(d, f.info.relativePath, f.info.size, f.info.size, index, count, FileCompleted)]
  }

  /** The events of the first n files. */
  function FilesTrace(d: Direction, files: seq<FileRun>, count: nat): seq<ProgressEvent> {
    if files == [] then []
    else FilesTrace(d, files[..|files| - 1], count) + FileTrace(d, files[|files| - 1], |files|, count)
  }

  function TaskTrace(d: Direction, files: seq<FileRun>): seq<ProgressEvent> {
    [ProgressEvent(d, "", 0, 0, 0, |files|, TaskStarted)]
    + FilesTrace(d, files, |files|)
    + [ProgressEvent(d, "", 0, 0, |files|, |files|, TaskCompleted)]
  }

  /** A file run in which the DATA packets carry exactly the bytes after the offset. */
  predicate Full(f: FileRun) { f.offset + |Concat(f.payloads)| == f.info.size }

  /** Within a file the bytes never go back, never pass the size, and the last event reports the size. */
  lemma FileTraceShape(d: Direction, f: FileRun, index: nat, count: nat)
    requires Full(f)
    ensures var t := FileTrace(d, f, index, count);
            && |t| == |f.payloads| + 1
            && (forall j :: 0 <= j < |t| - 1 ==> t[j].stage == Transferring && f.offset <= t[j].bytes <= t[j + 1].bytes)
            && t[|t| - 1].stage == FileCompleted && t[|t| - 1].bytes == f.info.size
            && (forall j :: 0 <= j < |t| ==>
                  && t[j].direction == d && t[j].fileIndex == index && t[j].fileCount == count
                  && t[j].total == f.info.size && t[j].relativePath == f.info.relativePath)
            && (f.payloads != [] ==> t[|t| - 2].bytes == f.info.size)
  {
    TransferringShape(d, f, index, count);
  }

  lemma {:induction false} TransferringShape(d: Direction, f: FileRun, index: nat, count: nat)
    ensures var t := TransferringTrace(d, f, index, count);
            && |t| == |f.payloads|
            && (forall j :: 0 <= j < |t| ==>
                  && t[j] == ProgressEvent(d, f.info.relativePath, t[j].bytes, f.info.size, index, count, Transferring)
                  && f.offset <= t[j].bytes <= f.offset + |Concat(f.payloads)|)
            && (forall j :: 0 <= j < |t| - 1 ==> t[j].bytes <= t[j + 1].bytes)
            && (t != [] ==> t[|t| - 1].bytes == f.offset + |Concat(f.payloads)|)
    decreases |f.payloads|
  {
    if f.payloads != [] {
      var k := |f.payloads| - 1;
      TransferringShape(d, f.(payloads := f.payloads[..k]), index, count);
      assert f.payloads == f.payloads[..k] + [f.payloads[k]];
      ConcatSnoc(f.payloads[..k], f.payloads[k]);
    }
  }

  /** Where the events of file k begin: after TaskStarted and one event for each DATA packet and each completion. */
  function TraceStart(files: seq<FileRun>, k: nat): nat
    requires k <= |files|
  {
    if k == 0 then 1 else TraceStart(files, k - 1) + |files[k - 1].payloads| + 1
  }

  lemma {:induction false} TransferringLength(d: Direction, f: FileRun, index: nat, count: nat)
    ensures |TransferringTrace(d, f, index, count)| == |f.payloads|
    decreases |f.payloads|
  {
    if f.payloads != [] {
      TransferringLength(d, f.(payloads := f.payloads[..|f.payloads| - 1]), index, count);
    }
  }

  lemma FilesTraceNext(d: Direction, files: seq<FileRun>, n: nat, count: nat)
    requires n < |files|
    ensures FilesTrace(d, files[..n + 1], count) == FilesTrace(d, files[..n], count) + FileTrace(d, files[n], n + 1, count)
  {
    assert files[..n + 1][..n] == files[..n];
  }

  lemma {:induction false} FilesTraceLength(d: Direction, files: seq<FileRun>, n: nat, count: nat)
    requires n <= |files|
    ensures |FilesTrace(d, files[..n], count)| == TraceStart(files, n) - 1
  {
    if n > 0 {
      FilesTraceLength(d, files, n - 1, count);
      FilesTraceNext(d, files, n - 1, count);
      TransferringLength(d, files[n - 1], n, count);
      hide TransferringTrace;
      hide FilesTrace;
    }
  }

  lemma {:induction false} FilesTracePrefix(d: Direction, files: seq<FileRun>, m: nat, n: nat, count: nat)
    requires m <= n <= |files|
    ensures FilesTrace(d, files[..m], count) <= FilesTrace(d, files[..n], count)
    decreases n
  {
    if m < n {
      FilesTracePrefix(d, files, m, n - 1, count);
      FilesTraceNext(d, files, n - 1, count);
      hide FilesTrace;
      hide FileTrace;
    }
  }

  lemma FilesTraceShape(d: Direction, files: seq<FileRun>, k: nat, count: nat)
    requires k < |files|
    ensures |FilesTrace(d, files, count)| == TraceStart(files, |files|) - 1
    ensures 1 <= TraceStart(files, k) <= TraceStart(files, k + 1) <= TraceStart(files, |files|)
    ensures FilesTrace(d, files, count)[TraceStart(files, k) - 1..TraceStart(files, k + 1) - 1] == FileTrace(d, files[k], k + 1, count)
  {
    assert files[..|files|] == files;
    StartsGrow(files, k);
    FilesTraceLength(d, files, k, count);
    FilesTraceLength(d, files, k + 1, count);
    FilesTraceLength(d, files, |files|, count);
    FilesTraceNext(d, files, k, count);
    FilesTracePrefix(d, files, k + 1, |files|, count);
    hide FilesTrace;
    hide FileTrace;
    hide TraceStart;
    Stretch(FilesTrace(d, files[..k], count), FileTrace(d, files[k], k + 1, count), FilesTrace(d, files, count));
  }

  lemma Stretch(before: seq<ProgressEvent>, here: seq<ProgressEvent>, all: seq<ProgressEvent>)
    requires before + here <= all
    ensures all[|before|..|before + here|] == here
  {
    assert all[..|before + here|] == before + here;
  }

  /** A task's trace: TaskStarted comes first and TaskCompleted last, each once and with the number of files, and
      between them are exactly the files' traces one after the other, file k with the index k + 1. */
  lemma TaskTraceShape(d: Direction, files: seq<FileRun>, k: nat)
    requires k < |files|
    ensures var t := TaskTrace(d, files);
            && |t| == TraceStart(files, |files|) + 1
            && t[0] == ProgressEvent(d, "", 0, 0, 0, |files|, TaskStarted)
            && t[|t| - 1] == ProgressEvent(d, "", 0, 0, |files|, |files|, TaskCompleted)
            && 1 <= TraceStart(files, k) <= TraceStart(files, k + 1) <= |t| - 1
            && t[TraceStart(files, k)..TraceStart(files, k + 1)] == FileTrace(d, files[k], k + 1, |files|)
  {
    hide FileTrace;
    hide FilesTrace;
    hide TraceStart;
    FilesTraceShape(d, files, k, |files|);
    var middle := FilesTrace(d, files, |files|);
    var t := TaskTrace(d, files);
    assert t[TraceStart(files, k)..TraceStart(files, k + 1)] == middle[TraceStart(files, k) - 1..TraceStart(files, k + 1) - 1];
  }

  lemma {:induction false} StartsGrow(files: seq<FileRun>, k: nat)
    requires k < |files|
    ensures 1 <= TraceStart(files, k) < TraceStart(files, k + 1)
  {
    if k > 0 {
      StartsGrow(files, k - 1);
    }
  }

  /** Without files there are just the two. */
  lemma EmptyTaskTrace(d: Direction)
    ensures TaskTrace(d, []) == [ProgressEvent(d, "", 0, 0, 0, 0, TaskStarted), ProgressEvent(d, "", 0, 0, 0, 0, TaskCompleted)]
  {
  }
}
