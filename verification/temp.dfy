/**
 * The earlier variant of the directory tailer. It keeps the same registry of
 * (path, cursor) pairs, but its read returns an empty list instead of
 * nothing, it labels startup batches with each file's own path, it reports
 * every named handle even when nothing was read, it registers files only on
 * `Create(Any)` events, and it never removes a file.
 */
module TempWatch {
  import opened FileSystem
  import opened LineReader
  import Watch

  /** One entry of a batch: a path and the lines read from it, possibly none. */
  datatype Change = Change(path: Path, lines: seq<string>)

  /**
   * Reading from `pos` to the end of `content`: no lines and the cursor left
   * alone when the file did not grow, otherwise every line and the cursor at
   * the end.
   */
  function TailLines(content: string, pos: nat): (r: (seq<string>, nat))
    ensures r.0 == [] <==> |content| <= pos
    ensures r.1 == if |content| <= pos then pos else |content|
  {
    if |content| <= pos then ([], pos)
    else
      LinesNonEmpty(content[pos..]);
      (Lines(content[pos..]), |content|)
  }

  method ReadTillEnd(content: string, pos: nat) returns (lines: seq<string>, newPos: nat)
    ensures (lines, newPos) == TailLines(content, pos)
  {
    if |content| <= pos {
      return [], pos;
    }
    // As in the later variant, the one-byte seek is never awaited.
    lines := ReadLines(content[pos..]);
    newPos := |content|;
  }

  /** `open_dir`: the same loop as `files_from_dir`. */
  method OpenDir(listing: seq<DirRead>, disk: Disk) returns (files: seq<Watch.FileHandle>)
    ensures files == Watch.Scan(listing, disk)
  {
    files := [];
    var i := 0;
    while i < |listing|
      invariant 0 <= i <= |listing|
      invariant files + Watch.Scan(listing[i..], disk) == Watch.Scan(listing, disk)
    {
      match listing[i] {
        case ReadError =>
          assert Watch.Scan(listing[i..], disk) == [];
          return;
        case Entry(p) =>
          assert listing[i..][1..] == listing[i + 1..];
          if disk.Opens(p) {
            files := files + [Watch.FileHandle(p, disk.at[p], 0)];
          }
      }
      i := i + 1;
    }
  }

  /** The batches the startup loop sends: one per scanned file, labelled with its path, even when empty. */
  function StartupBatches(files: seq<Watch.FileHandle>, disk: Disk): seq<seq<Change>>
  {
    if files == [] then []
    else
      var h := files[|files| - 1];
      StartupBatches(files[..|files| - 1], disk)
        + [[Change(h.path, TailLines(disk.Content(h.file), h.pos).0)]]
  }

  /** The entry a data-modify event contributes for one handle: one whenever the event names its file. */
  ghost function ModifyChange(disk: Disk, paths: seq<Path>, h: Watch.FileHandle): seq<Change>
  {
    if Watch.Refers(disk, paths, h.path) then [Change(h.path, TailLines(disk.Content(h.file), h.pos).0)] else []
  }

  /** One handle's turn in the data-modify arm: when an event path names its file, read it and report it. */
  method ReadIfNamed(h: Watch.FileHandle, paths: seq<Path>, disk: Disk) returns (h': Watch.FileHandle, entry: seq<Change>)
    requires Watch.MatchDefined(disk, paths, h.path)
    ensures h' == Watch.Advance(disk, paths, h)
    ensures entry == ModifyChange(disk, paths, h)
  {
    h', entry := h, [];
    var hit := Watch.AnyRefers(disk, paths, h.path);
    if hit {
      var content, newPos := ReadTillEnd(disk.Content(h.file), h.pos);
      h' := Watch.FileHandle(h.path, h.file, newPos);
      entry := [Change(h.path, content)];
    }
  }

  /** The one batch a data-modify event sends. */
  ghost function ModifyChanges(files: seq<Watch.FileHandle>, paths: seq<Path>, disk: Disk): seq<Change>
  {
    if files == [] then []
    else ModifyChanges(files[..|files| - 1], paths, disk) + ModifyChange(disk, paths, files[|files| - 1])
  }

  /** The batches a create event sends: one per path that opens, even when the file is empty. */
  function CreateChanges(paths: seq<Path>, disk: Disk): seq<seq<Change>>
  {
    if paths == [] then []
    else
      var p := paths[|paths| - 1];
      CreateChanges(paths[..|paths| - 1], disk)
        + (if disk.Opens(p) then [[Change(p, TailLines(disk.ContentAt(p), 0).0)]] else [])
  }

  /** The registry after one event: only data-modify and `Create(Any)` have an arm. */
  ghost function StepFiles(files: seq<Watch.FileHandle>, ev: Event, disk: Disk): seq<Watch.FileHandle>
  {
    match ev.kind
    case Modify(DataChange) => Watch.ModifyFiles(files, ev.paths, disk)
    case Create(AnyCreate) => files + Watch.CreateOpened(ev.paths, disk)
    case _ => files
  }

  /** The batches one event sends. */
  ghost function StepSent(files: seq<Watch.FileHandle>, ev: Event, disk: Disk): seq<seq<Change>>
  {
    match ev.kind
    case Modify(DataChange) => [ModifyChanges(files, ev.paths, disk)]
    case Create(AnyCreate) => CreateChanges(ev.paths, disk)
    case _ => []
  }

  /** Every event of the run is handled without a panic. */
  ghost predicate RunDefined(files: seq<Watch.FileHandle>, arrivals: seq<Arrival>)
    decreases |arrivals|
  {
    arrivals == []
    || (Watch.StepDefined(files, arrivals[0].event, arrivals[0].disk)
        && RunDefined(StepFiles(files, arrivals[0].event, arrivals[0].disk), arrivals[1..]))
  }

  /** The registry after handling every event of the run. */
  ghost function RunFiles(files: seq<Watch.FileHandle>, arrivals: seq<Arrival>): seq<Watch.FileHandle>
    decreases |arrivals|
  {
    if arrivals == [] then files
    else RunFiles(StepFiles(files, arrivals[0].event, arrivals[0].disk), arrivals[1..])
  }

  /** Every batch the run sends, in order. */
  ghost function RunSent(files: seq<Watch.FileHandle>, arrivals: seq<Arrival>): seq<seq<Change>>
    decreases |arrivals|
  {
    if arrivals == [] then []
    else
      StepSent(files, arrivals[0].event, arrivals[0].disk)
        + RunSent(StepFiles(files, arrivals[0].event, arrivals[0].disk), arrivals[1..])
  }

  lemma StartupBatchesSnoc(files: seq<Watch.FileHandle>, i: nat, disk: Disk)
    requires i < |files|
    ensures StartupBatches(files[..i + 1], disk)
         == StartupBatches(files[..i], disk)
            + [[Change(files[i].path, TailLines(disk.Content(files[i].file), files[i].pos).0)]]
  {
    assert files[..i + 1][..i] == files[..i];
  }

  lemma ModifyChangesSnoc(files: seq<Watch.FileHandle>, i: nat, paths: seq<Path>, disk: Disk)
    requires i < |files|
    ensures ModifyChanges(files[..i + 1], paths, disk)
         == ModifyChanges(files[..i], paths, disk) + ModifyChange(disk, paths, files[i])
  {
    assert files[..i + 1][..i] == files[..i];
  }

  lemma RunUnfold(files: seq<Watch.FileHandle>, arrivals: seq<Arrival>)
    requires arrivals != []
    ensures RunDefined(files, arrivals)
        == (Watch.StepDefined(files, arrivals[0].event, arrivals[0].disk)
            && RunDefined(StepFiles(files, arrivals[0].event, arrivals[0].disk), arrivals[1..]))
    ensures RunFiles(files, arrivals)
        == RunFiles(StepFiles(files, arrivals[0].event, arrivals[0].disk), arrivals[1..])
    ensures RunSent(files, arrivals)
        == StepSent(files, arrivals[0].event, arrivals[0].disk)
           + RunSent(StepFiles(files, arrivals[0].event, arrivals[0].disk), arrivals[1..])
  {
  }

  /** The startup loop: read every scanned file and send its lines under its own path. */
  method Replay(scanned: seq<Watch.FileHandle>, disk: Disk)
    returns (fs: seq<Watch.FileHandle>, out: seq<seq<Change>>)
    ensures fs == Watch.ReplayFiles(scanned, disk)
    ensures out == StartupBatches(scanned, disk)
  {
    fs := scanned;
    out := [];
    var i := 0;
    while i < |fs|
      invariant 0 <= i <= |fs| == |scanned|
      invariant forall k :: 0 <= k < i ==> fs[k] == Watch.Replayed(scanned[k], disk)
      invariant forall k :: i <= k < |fs| ==> fs[k] == scanned[k]
      invariant out == StartupBatches(scanned[..i], disk)
    {
      var h := fs[i];
      assert h == scanned[i];
      var lines, newPos := ReadTillEnd(disk.Content(h.file), h.pos);
      fs := fs[i := Watch.FileHandle(h.path, h.file, newPos)];
      out := out + [[Change(h.path, lines)]];
      StartupBatchesSnoc(scanned, i, disk);
      i := i + 1;
    }
    assert scanned[..|scanned|] == scanned;
    Watch.ReplayFilesIs(scanned, fs, disk);
  }

  class TempTailer {
    /** The registry of open files, in the order they were opened. */
    var files: seq<Watch.FileHandle>
    /** Every batch sent to the output channel, in order. */
    var sent: seq<seq<Change>>

    /** Open every directory entry, then send each file's lines under its own path. */
    constructor Start(listing: seq<DirRead>, disk: Disk)
      ensures files == Watch.ReplayFiles(Watch.Scan(listing, disk), disk)
      ensures sent == StartupBatches(Watch.Scan(listing, disk), disk)
    {
      var scanned := OpenDir(listing, disk);
      var fs, out := Replay(scanned, disk);
      files := fs;
      sent := out;
    }

    /** The `Modify(Data)` arm: an entry for every handle an event path names, then send. */
    method OnModify(paths: seq<Path>, disk: Disk)
      requires forall i :: 0 <= i < |files| ==> Watch.MatchDefined(disk, paths, files[i].path)
      modifies this
      ensures files == Watch.ModifyFiles(old(files), paths, disk)
      ensures sent == old(sent) + [ModifyChanges(old(files), paths, disk)]
    {
      ghost var before := files;
      var fs := files;
      var batch: seq<Change> := [];
      var i := 0;
      while i < |fs|
        invariant 0 <= i <= |fs| == |before|
        invariant forall k :: 0 <= k < i ==> fs[k] == Watch.Advance(disk, paths, before[k])
        invariant forall k :: i <= k < |fs| ==> fs[k] == before[k]
        invariant batch == ModifyChanges(before[..i], paths, disk)
        invariant files == before && sent == old(sent)
      {
        var h, entry := ReadIfNamed(fs[i], paths, disk);
        fs := fs[i := h];
        batch := batch + entry;
        ModifyChangesSnoc(before, i, paths, disk);
        i := i + 1;
      }
      assert before[..|before|] == before;
      Watch.ModifyFilesIs(before, fs, paths, disk);
      files := fs;
      sent := sent + [batch];
    }

    /** The `Create(Any)` arm: open each path, send its lines even when empty, then register it. */
    method OnCreate(paths: seq<Path>, disk: Disk)
      modifies this
      ensures files == old(files) + Watch.CreateOpened(paths, disk)
      ensures sent == old(sent) + CreateChanges(paths, disk)
    {
      var added: seq<Watch.FileHandle> := [];
      var batches: seq<seq<Change>> := [];
      var i := 0;
      while i < |paths|
        invariant 0 <= i <= |paths|
        invariant added == Watch.CreateOpened(paths[..i], disk)
        invariant batches == CreateChanges(paths[..i], disk)
        invariant files == old(files) && sent == old(sent)
      {
        var p := paths[i];
        if disk.Opens(p) {
          var lines, newPos := ReadTillEnd(disk.ContentAt(p), 0);
          batches := batches + [[Change(p, lines)]];
          added := added + [Watch.FileHandle(p, disk.at[p], newPos)];
        }
        Watch.CreateSnoc(paths, i, disk);
        assert paths[..i + 1][..i] == paths[..i];
        i := i + 1;
      }
      assert paths[..|paths|] == paths;
      files := files + added;
      sent := sent + batches;
    }

    /** One turn of the event loop. */
    method OnEvent(ev: Event, disk: Disk)
      requires Watch.StepDefined(files, ev, disk)
      modifies this
      ensures files == StepFiles(old(files), ev, disk)
      ensures sent == old(sent) + StepSent(old(files), ev, disk)
    {
      match ev.kind
      case Modify(DataChange) => OnModify(ev.paths, disk);
      case Create(AnyCreate) => OnCreate(ev.paths, disk);
      case _ =>
    }

    /** The event loop: handle every event the watcher delivers, in order, until the channel closes. */
    method Run(arrivals: seq<Arrival>)
      requires RunDefined(files, arrivals)
      modifies this
      ensures files == RunFiles(old(files), arrivals)
      ensures sent == old(sent) + RunSent(old(files), arrivals)
    {
      ghost var files0, sent0 := files, sent;
      var i := 0;
      while i < |arrivals|
        invariant 0 <= i <= |arrivals|
        invariant RunDefined(files, arrivals[i..])
        invariant RunFiles(files, arrivals[i..]) == RunFiles(files0, arrivals)
        invariant sent + RunSent(files, arrivals[i..]) == sent0 + RunSent(files0, arrivals)
      {
        ghost var prevFiles, prevSent := files, sent;
        var a := arrivals[i];
        RunUnfold(files, arrivals[i..]);
        assert arrivals[i..][0] == a;
        assert arrivals[i..][1..] == arrivals[i + 1..];
        OnEvent(a.event, a.disk);
        Watch.AppendAssoc(prevSent, StepSent(prevFiles, a.event, a.disk), RunSent(files, arrivals[i + 1..]));
        i := i + 1;
      }
    }
  }
}
