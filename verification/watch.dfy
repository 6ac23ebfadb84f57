/**
 * The directory tailer: a registry of open log files, each with a read
 * cursor, that replays every file once at startup and then reacts to file
 * system notifications by sending the lines appended since the last read.
 * Every batch the tailer sends is appended to `sent`, the channel's contents.
 */
module Watch {
  import opened Wrappers
  import opened FileSystem
  import opened LineReader

  /** An open log file: the path it was opened at and its stream position. */
  datatype FileHandle = FileHandle(path: Path, file: FileId, pos: nat)

  /** The lines read from one file, labelled with a path. */
  datatype RawLogData = RawLogData(path: Path, lines: seq<string>)

  /** What one `read_till_end` returns, and where it leaves the cursor. */
  datatype ReadOutcome = ReadOutcome(lines: Option<seq<string>>, pos: nat)

  /** The paths of the registry, in registry order. */
  function Paths(files: seq<FileHandle>): (ps: seq<Path>)
    ensures |ps| == |files|
    ensures forall i :: 0 <= i < |files| ==> ps[i] == files[i].path
  {
    seq(|files|, i requires 0 <= i < |files| => files[i].path)
  }

  // ---------------------------------------------------------------------
  // Reading a file to its end

  /**
   * Reading the file whose current bytes are `content` from position `pos`:
   * nothing when the file is no longer than the position, otherwise every
   * line up to the end, leaving the cursor at the end.
   */
  function TailRead(content: string, pos: nat): ReadOutcome
  {
    if |content| <= pos then ReadOutcome(None, pos)
    else ReadOutcome(Some(Lines(content[pos..])), |content|)
  }

  method ReadTillEnd(content: string, pos: nat) returns (lines: Option<seq<string>>, newPos: nat)
    ensures lines.None? <==> |content| <= pos
    ensures lines.None? ==> newPos == pos
    ensures lines.Some? ==> newPos == |content| && lines.value == Lines(content[pos..])
    ensures lines.Some? ==> |lines.value| >= 1
    ensures ReadOutcome(lines, newPos) == TailRead(content, pos)
  {
    if |content| <= pos {
      return None, pos;
    }
    // The one-byte seek that precedes the read builds a future nobody
    // awaits, so the read starts at `pos` itself.
    var res := ReadLines(content[pos..]);
    LinesNonEmpty(content[pos..]);
    lines, newPos := Some(res), |content|;
  }

  // ---------------------------------------------------------------------
  // Directory scan and startup replay

  /** The handles the directory scan opens: every entry read before the first error that opens, at position 0. */
  function Scan(listing: seq<DirRead>, disk: Disk): seq<FileHandle>
  {
    if listing == [] then []
    else match listing[0]
      case ReadError => []
      case Entry(p) =>
        (if disk.Opens(p) then [FileHandle(p, disk.at[p], 0)] else []) + Scan(listing[1..], disk)
  }

  method FilesFromDir(listing: seq<DirRead>, disk: Disk) returns (files: seq<FileHandle>)
    ensures files == Scan(listing, disk)
  {
    files := [];
    var i := 0;
    while i < |listing|
      invariant 0 <= i <= |listing|
      invariant files + Scan(listing[i..], disk) == Scan(listing, disk)
    {
      match listing[i] {
        case ReadError =>
          assert Scan(listing[i..], disk) == [];
          return;
        case Entry(p) =>
          assert listing[i..][1..] == listing[i + 1..];
          if disk.Opens(p) {
            files := files + [FileHandle(p, disk.at[p], 0)];
          }
      }
      i := i + 1;
    }
  }

  /** A handle after it was read to the end of the file. */
  function Replayed(h: FileHandle, disk: Disk): FileHandle
  {
    FileHandle(h.path, h.file, TailRead(disk.Content(h.file), h.pos).pos)
  }

  /** The registry after the startup pass read every scanned file. */
  function ReplayFiles(files: seq<FileHandle>, disk: Disk): (r: seq<FileHandle>)
  {
    seq(|files|, i requires 0 <= i < |files| => Replayed(files[i], disk))
  }

  /** The batches the startup pass sends: one per file that had content, labelled with the directory. */
  function ReplayBatches(directory: Path, files: seq<FileHandle>, disk: Disk): seq<seq<RawLogData>>
  {
    if files == [] then []
    else
      var h := files[|files| - 1];
      var r := TailRead(disk.Content(h.file), h.pos);
      ReplayBatches(directory, files[..|files| - 1], disk)
        + (if r.lines.Some? then [[RawLogData(directory, r.lines.value)]] else [])
  }

  /** The startup loop: read every scanned file from its cursor to the end. */
  method Replay(directory: Path, scanned: seq<FileHandle>, disk: Disk)
    returns (fs: seq<FileHandle>, out: seq<seq<RawLogData>>)
    ensures fs == ReplayFiles(scanned, disk)
    ensures out == ReplayBatches(directory, scanned, disk)
  {
    fs := scanned;
    out := [];
    var i := 0;
    while i < |fs|
      invariant 0 <= i <= |fs| == |scanned|
      invariant forall k :: 0 <= k < i ==> fs[k] == Replayed(scanned[k], disk)
      invariant forall k :: i <= k < |fs| ==> fs[k] == scanned[k]
      invariant out == ReplayBatches(directory, scanned[..i], disk)
    {
      var h := fs[i];
      assert h == scanned[i];
      var lines, newPos := ReadTillEnd(disk.Content(h.file), h.pos);
      assert FileHandle(h.path, h.file, newPos) == Replayed(scanned[i], disk);
      fs := fs[i := FileHandle(h.path, h.file, newPos)];
      if lines.Some? {
        out := out + [[RawLogData(directory, lines.value)]];
      }
      ReplayBatchesSnoc(directory, scanned, i, disk);
      i := i + 1;
    }
    assert scanned[..|scanned|] == scanned;
    ReplayFilesIs(scanned, fs, disk);
  }

  lemma ReplayFilesIs(files: seq<FileHandle>, fs: seq<FileHandle>, disk: Disk)
    requires |fs| == |files|
    requires forall k :: 0 <= k < |files| ==> fs[k] == Replayed(files[k], disk)
    ensures fs == ReplayFiles(files, disk)
  {
  }

  // ---------------------------------------------------------------------
  // Matching event paths against the registry

  /** `canonicalize` succeeds on both paths and they name the same file. */
  predicate SameFile(disk: Disk, p: Path, handlePath: Path)
  {
    p in disk.canonical && handlePath in disk.canonical
    && disk.canonical[p] == disk.canonical[handlePath]
  }

  /**
   * The `any` over the event paths never reaches a failing
   * `canonicalize().unwrap()`: it stops at the first path naming the same
   * file as `handlePath`, and every comparison it makes canonicalizes both.
   */
  predicate MatchDefined(disk: Disk, paths: seq<Path>, handlePath: Path)
    decreases |paths|
  {
    paths == []
    || (paths[0] in disk.canonical && handlePath in disk.canonical
        && (disk.canonical[paths[0]] == disk.canonical[handlePath]
            || MatchDefined(disk, paths[1..], handlePath)))
  }

  /** Some event path names the same file as `handlePath`. */
  ghost predicate Refers(disk: Disk, paths: seq<Path>, handlePath: Path)
  {
    exists j :: 0 <= j < |paths| && SameFile(disk, paths[j], handlePath)
  }

  method AnyRefers(disk: Disk, paths: seq<Path>, handlePath: Path) returns (found: bool)
    requires MatchDefined(disk, paths, handlePath)
    ensures found <==> Refers(disk, paths, handlePath)
  {
    found := false;
    var i := 0;
    while i < |paths| && !found
      invariant 0 <= i <= |paths|
      invariant !found ==> MatchDefined(disk, paths[i..], handlePath)
      invariant !found ==> forall j :: 0 <= j < i ==> !SameFile(disk, paths[j], handlePath)
      invariant found ==> Refers(disk, paths, handlePath)
    {
      assert paths[i..][1..] == paths[i + 1..];
      found := disk.canonical[paths[i]] == disk.canonical[handlePath];
      i := i + 1;
    }
  }

  // ---------------------------------------------------------------------
  // The arms of the event loop, as functions of the registry

  /** A handle after a data-modify event: read when an event path names its file. */
  ghost function Advance(disk: Disk, paths: seq<Path>, h: FileHandle): FileHandle
  {
    if Refers(disk, paths, h.path)
    then FileHandle(h.path, h.file, TailRead(disk.Content(h.file), h.pos).pos)
    else h
  }

  /** The registry after a data-modify event. */
  ghost function ModifyFiles(files: seq<FileHandle>, paths: seq<Path>, disk: Disk): (r: seq<FileHandle>)
    ensures |r| == |files|
    ensures forall i :: 0 <= i < |files| ==> r[i].path == files[i].path && r[i].pos >= files[i].pos
    ensures forall i :: 0 <= i < |files| && !Refers(disk, paths, files[i].path) ==> r[i] == files[i]
  {
    seq(|files|, i requires 0 <= i < |files| => Advance(disk, paths, files[i]))
  }

  /**
   * One handle's turn in the data-modify arm: when an event path names its
   * file, read it to the end and report what was read, if anything.
   */
  method ReadIfNamed(h: FileHandle, paths: seq<Path>, disk: Disk) returns (h': FileHandle, entry: seq<RawLogData>)
    requires MatchDefined(disk, paths, h.path)
    ensures h' == Advance(disk, paths, h)
    ensures entry == ModifyEntry(disk, paths, h)
  {
    h', entry := h, [];
    var hit := AnyRefers(disk, paths, h.path);
    if hit {
      var lines, newPos := ReadTillEnd(disk.Content(h.file), h.pos);
      h' := FileHandle(h.path, h.file, newPos);
      if lines.Some? {
        entry := [RawLogData(h.path, lines.value)];
      }
    }
  }

  /** The entry a data-modify event contributes for one handle. */
  ghost function ModifyEntry(disk: Disk, paths: seq<Path>, h: FileHandle): seq<RawLogData>
  {
    var r := TailRead(disk.Content(h.file), h.pos);
    if Refers(disk, paths, h.path) && r.lines.Some? then [RawLogData(h.path, r.lines.value)] else []
  }

  /** The one batch a data-modify event sends. */
  ghost function ModifyBatch(files: seq<FileHandle>, paths: seq<Path>, disk: Disk): seq<RawLogData>
  {
    if files == [] then []
    else ModifyBatch(files[..|files| - 1], paths, disk) + ModifyEntry(disk, paths, files[|files| - 1])
  }

  /** The handles a file-create event adds, in event order. */
  function CreateOpened(paths: seq<Path>, disk: Disk): seq<FileHandle>
  {
    if paths == [] then []
    else
      var p := paths[|paths| - 1];
      CreateOpened(paths[..|paths| - 1], disk)
        + (if disk.Opens(p) then [FileHandle(p, disk.at[p], TailRead(disk.ContentAt(p), 0).pos)] else [])
  }

  /** The batches a file-create event sends: one per opened file that had content. */
  function CreateBatches(paths: seq<Path>, disk: Disk): seq<seq<RawLogData>>
  {
    if paths == [] then []
    else
      var p := paths[|paths| - 1];
      var r := TailRead(disk.ContentAt(p), 0);
      CreateBatches(paths[..|paths| - 1], disk)
        + (if disk.Opens(p) && r.lines.Some? then [[RawLogData(p, r.lines.value)]] else [])
  }

  /** The index of the first handle opened at exactly `p`. */
  function IndexOf(files: seq<FileHandle>, p: Path): (k: Option<nat>)
    ensures k.Some? ==> k.value < |files| && files[k.value].path == p
    ensures k.Some? ==> forall j :: 0 <= j < k.value ==> files[j].path != p
    ensures k.None? ==> forall j :: 0 <= j < |files| ==> files[j].path != p
  {
    if files == [] then None
    else if files[0].path == p then Some(0)
    else match IndexOf(files[1..], p)
      case Some(k) => Some(k + 1)
      case None => None
  }

  /** The registry without the first handle opened at exactly `p`. */
  function RemoveFirst(files: seq<FileHandle>, p: Path): seq<FileHandle>
  {
    match IndexOf(files, p)
    case Some(k) => files[..k] + files[k + 1..]
    case None => files
  }

  /** The registry after a remove event naming `paths`, one path after the other. */
  function RemovePaths(files: seq<FileHandle>, paths: seq<Path>): seq<FileHandle>
  {
    if paths == [] then files
    else RemoveFirst(RemovePaths(files, paths[..|paths| - 1]), paths[|paths| - 1])
  }

  /** Handling `ev` does not panic: a data-modify event canonicalizes successfully for every handle. */
  predicate StepDefined(files: seq<FileHandle>, ev: Event, disk: Disk)
  {
    ev.kind == Modify(DataChange) ==>
      forall i :: 0 <= i < |files| ==> MatchDefined(disk, ev.paths, files[i].path)
  }

  /** The registry after one event. */
  ghost function StepFiles(files: seq<FileHandle>, ev: Event, disk: Disk): seq<FileHandle>
  {
    match ev.kind
    case Modify(DataChange) => ModifyFiles(files, ev.paths, disk)
    case Create(FileCreate) => files + CreateOpened(ev.paths, disk)
    case Remove(AnyRemove) => RemovePaths(files, ev.paths)
    case _ => files
  }

  /** The batches one event sends. */
  ghost function StepSent(files: seq<FileHandle>, ev: Event, disk: Disk): seq<seq<RawLogData>>
  {
    match ev.kind
    case Modify(DataChange) => [ModifyBatch(files, ev.paths, disk)]
    case Create(FileCreate) => CreateBatches(ev.paths, disk)
    case _ => []
  }

  /** Every event of the run is handled without a panic. */
  ghost predicate RunDefined(files: seq<FileHandle>, arrivals: seq<Arrival>)
    decreases |arrivals|
  {
    arrivals == []
    || (StepDefined(files, arrivals[0].event, arrivals[0].disk)
        && RunDefined(StepFiles(files, arrivals[0].event, arrivals[0].disk), arrivals[1..]))
  }

  /** The registry after handling every event of the run. */
  ghost function RunFiles(files: seq<FileHandle>, arrivals: seq<Arrival>): seq<FileHandle>
    decreases |arrivals|
  {
    if arrivals == [] then files
    else RunFiles(StepFiles(files, arrivals[0].event, arrivals[0].disk), arrivals[1..])
  }

  /** Every batch the run sends, in order. */
  ghost function RunSent(files: seq<FileHandle>, arrivals: seq<Arrival>): seq<seq<RawLogData>>
    decreases |arrivals|
  {
    if arrivals == [] then []
    else
      StepSent(files, arrivals[0].event, arrivals[0].disk)
        + RunSent(StepFiles(files, arrivals[0].event, arrivals[0].disk), arrivals[1..])
  }

  // ---------------------------------------------------------------------
  // The tailer

  class Tailer {
    /** The watched directory; the startup replay labels its batches with it. */
    const directory: Path
    /** The registry of open files, in the order they were opened. */
    var files: seq<FileHandle>
    /** Every batch sent to the output channel, in order. */
    var sent: seq<seq<RawLogData>>

    /** Scan the directory, then read every file once from the start. */
    constructor Start(directory: Path, listing: seq<DirRead>, disk: Disk)
      ensures this.directory == directory
      ensures files == ReplayFiles(Scan(listing, disk), disk)
      ensures sent == ReplayBatches(directory, Scan(listing, disk), disk)
    {
      var scanned := FilesFromDir(listing, disk);
      var fs, out := Replay(directory, scanned, disk);
      this.directory := directory;
      files := fs;
      sent := out;
    }

    /** The `Modify(Data)` arm: read every handle an event path names; send the batch, even empty. */
    method OnModify(paths: seq<Path>, disk: Disk)
      requires forall i :: 0 <= i < |files| ==> MatchDefined(disk, paths, files[i].path)
      modifies this
      ensures files == ModifyFiles(old(files), paths, disk)
      ensures sent == old(sent) + [ModifyBatch(old(files), paths, disk)]
    {
      ghost var before := files;
      var fs := files;
      var batch: seq<RawLogData> := [];
      var i := 0;
      while i < |fs|
        invariant 0 <= i <= |fs| == |before|
        invariant forall k :: 0 <= k < i ==> fs[k] == Advance(disk, paths, before[k])
        invariant forall k :: i <= k < |fs| ==> fs[k] == before[k]
        invariant batch == ModifyBatch(before[..i], paths, disk)
        invariant files == before && sent == old(sent)
      {
        var h, entry := ReadIfNamed(fs[i], paths, disk);
        fs := fs[i := h];
        batch := batch + entry;
        ModifyBatchSnoc(before, i, paths, disk);
        i := i + 1;
      }
      assert before[..|before|] == before;
      ModifyFilesIs(before, fs, paths, disk);
      files := fs;
      sent := sent + [batch];
    }

    /** The `Create(File)` arm: open each path, read it from the start, send, then register it. */
    method OnCreate(paths: seq<Path>, disk: Disk)
      modifies this
      ensures files == old(files) + CreateOpened(paths, disk)
      ensures sent == old(sent) + CreateBatches(paths, disk)
    {
      var added: seq<FileHandle> := [];
      var batches: seq<seq<RawLogData>> := [];
      var i := 0;
      while i < |paths|
        invariant 0 <= i <= |paths|
        invariant added == CreateOpened(paths[..i], disk)
        invariant batches == CreateBatches(paths[..i], disk)
        invariant files == old(files) && sent == old(sent)
      {
        var p := paths[i];
        if disk.Opens(p) {
          var lines, newPos := ReadTillEnd(disk.ContentAt(p), 0);
          if lines.Some? {
            batches := batches + [[RawLogData(p, lines.value)]];
          }
          added := added + [FileHandle(p, disk.at[p], newPos)];
        }
        CreateSnoc(paths, i, disk);
        i := i + 1;
      }
      assert paths[..|paths|] == paths;
      files := files + added;
      sent := sent + batches;
    }

    /** The `Remove(Any)` arm: for each path, drop the first handle opened at exactly that path. */
    method OnRemove(paths: seq<Path>)
      modifies this
      ensures files == RemovePaths(old(files), paths)
      ensures sent == old(sent)
    {
      var i := 0;
      while i < |paths|
        invariant 0 <= i <= |paths|
        invariant files == RemovePaths(old(files), paths[..i])
        invariant sent == old(sent)
      {
        var k := Position(files, paths[i]);
        if k.Some? {
          files := files[..k.value] + files[k.value + 1..];
        }
        assert paths[..i + 1][..i] == paths[..i];
        i := i + 1;
      }
      assert paths[..|paths|] == paths;
    }

    /** One turn of the event loop. */
    method OnEvent(ev: Event, disk: Disk)
      requires StepDefined(files, ev, disk)
      modifies this
      ensures files == StepFiles(old(files), ev, disk)
      ensures sent == old(sent) + StepSent(old(files), ev, disk)
    {
      match ev.kind
      case Modify(DataChange) => OnModify(ev.paths, disk);
      case Create(FileCreate) => OnCreate(ev.paths, disk);
      case Remove(AnyRemove) => OnRemove(ev.paths);
      case _ =>
    }

    /** The event loop: handle every event the watcher delivers, in order, until the channel closes. */
    method Run(arrivals: seq<Arrival>)
      requires RunDefined(files, arrivals)
      modifies this
      ensures files == RunFiles(old(files), arrivals)
      ensures sent == old(sent) + RunSent(old(files), arrivals)
    {
      ghost var files0, sent0 := files, sent;
      var i := 0;
      while i < |arrivals|
        invariant 0 <= i <= |arrivals|
        invariant RunDefined(files, arrivals[i..])
        invariant RunFiles(files, arrivals[i..]) == RunFiles(files0, arrivals)
        invariant sent + RunSent(files, arrivals[i..]) == sent0 + RunSent(files0, arrivals)
      {
        ghost var prevFiles, prevSent := files, sent;
        var a := arrivals[i];
        RunUnfold(files, arrivals[i..]);
        assert arrivals[i..][0] == a;
        assert arrivals[i..][1..] == arrivals[i + 1..];
        OnEvent(a.event, a.disk);
        AppendAssoc(prevSent, StepSent(prevFiles, a.event, a.disk), RunSent(files, arrivals[i + 1..]));
        i := i + 1;
      }
    }
  }

  lemma AppendAssoc<T>(a: seq<T>, b: seq<T>, c: seq<T>)
    ensures a + b + c == a + (b + c)
  {
  }

  lemma ModifyFilesIs(files: seq<FileHandle>, fs: seq<FileHandle>, paths: seq<Path>, disk: Disk)
    requires |fs| == |files|
    requires forall k :: 0 <= k < |files| ==> fs[k] == Advance(disk, paths, files[k])
    ensures fs == ModifyFiles(files, paths, disk)
  {
  }

  lemma CreateSnoc(paths: seq<Path>, i: nat, disk: Disk)
    requires i < |paths|
    ensures CreateOpened(paths[..i + 1], disk)
         == CreateOpened(paths[..i], disk)
            + (if disk.Opens(paths[i])
               then [FileHandle(paths[i], disk.at[paths[i]], TailRead(disk.ContentAt(paths[i]), 0).pos)]
               else [])
    ensures CreateBatches(paths[..i + 1], disk)
         == CreateBatches(paths[..i], disk)
            + (var r := TailRead(disk.ContentAt(paths[i]), 0);
               if disk.Opens(paths[i]) && r.lines.Some? then [[RawLogData(paths[i], r.lines.value)]] else [])
  {
    assert paths[..i + 1][..i] == paths[..i];
  }

  lemma ModifyBatchSnoc(files: seq<FileHandle>, i: nat, paths: seq<Path>, disk: Disk)
    requires i < |files|
    ensures ModifyBatch(files[..i + 1], paths, disk)
         == ModifyBatch(files[..i], paths, disk) + ModifyEntry(disk, paths, files[i])
  {
    assert files[..i + 1][..i] == files[..i];
  }

  lemma ReplayBatchesSnoc(directory: Path, files: seq<FileHandle>, i: nat, disk: Disk)
    requires i < |files|
    ensures ReplayBatches(directory, files[..i + 1], disk)
         == ReplayBatches(directory, files[..i], disk)
            + (var r := TailRead(disk.Content(files[i].file), files[i].pos);
               if r.lines.Some? then [[RawLogData(directory, r.lines.value)]] else [])
  {
    assert files[..i + 1][..i] == files[..i];
  }

  lemma RunUnfold(files: seq<FileHandle>, arrivals: seq<Arrival>)
    requires arrivals != []
    ensures RunDefined(files, arrivals)
        == (StepDefined(files, arrivals[0].event, arrivals[0].disk)
            && RunDefined(StepFiles(files, arrivals[0].event, arrivals[0].disk), arrivals[1..]))
    ensures RunFiles(files, arrivals)
        == RunFiles(StepFiles(files, arrivals[0].event, arrivals[0].disk), arrivals[1..])
    ensures RunSent(files, arrivals)
        == StepSent(files, arrivals[0].event, arrivals[0].disk)
           + RunSent(StepFiles(files, arrivals[0].event, arrivals[0].disk), arrivals[1..])
  {
  }

  /** `Iterator::position`: the index of the first handle opened at exactly `p`. */
  method Position(files: seq<FileHandle>, p: Path) returns (k: Option<nat>)
    ensures k == IndexOf(files, p)
  {
    var i := 0;
    while i < |files|
      invariant 0 <= i <= |files|
      invariant forall j :: 0 <= j < i ==> files[j].path != p
    {
      if files[i].path == p {
        IndexOfIs(files, p, i);
        return Some(i);
      }
      i := i + 1;
    }
    IndexOfNone(files, p);
    return None;
  }

  lemma {:induction false} IndexOfIs(files: seq<FileHandle>, p: Path, k: nat)
    requires k < |files| && files[k].path == p
    requires forall j :: 0 <= j < k ==> files[j].path != p
    ensures IndexOf(files, p) == Some(k)
  {
  }

  lemma IndexOfNone(files: seq<FileHandle>, p: Path)
    requires forall j :: 0 <= j < |files| ==> files[j].path != p
    ensures IndexOf(files, p) == None
  {
  }
}
