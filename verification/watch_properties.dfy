/**
 * What the directory tailer guarantees, stated over the functions that
 * specify its arms: reads are exact and idempotent, a data-modify event only
 * advances cursors and reports exactly the handles that grew, create events
 * never deduplicate, removal drops one handle per named path, and a removed
 * path appears in no batch until a file-create event names it.
 */
module WatchProperties {
  import opened Wrappers
  import opened FileSystem
  import opened LineReader
  import opened Watch

  // ---------------------------------------------------------------------
  // Reading to the end

  /** A second read with no growth in between finds nothing and keeps the cursor. */
  lemma TailReadIdempotent(content: string, pos: nat)
    ensures TailRead(content, TailRead(content, pos).pos) == ReadOutcome(None, TailRead(content, pos).pos)
    ensures TailRead(content, pos).pos == if pos < |content| then |content| else pos
  {
  }

  /**
   * Bytes appended after a read that ended on a line boundary come out of the
   * next read exactly: the two reads together yield the lines of one read of
   * everything.
   */
  lemma TailReadAppend(before: string, extra: string, pos: nat)
    requires pos < |before| && extra != []
    requires EndsAtLineBoundary(before[pos..])
    ensures TailRead(before, pos).lines.Some?
    ensures TailRead(before + extra, TailRead(before, pos).pos).lines.Some?
    ensures TailRead(before, pos).lines.value
              + TailRead(before + extra, TailRead(before, pos).pos).lines.value
            == Lines((before + extra)[pos..])
  {
    AppendSlices(before, extra, pos);
    AppendSlices(before, extra, |before|);
    assert before[|before|..] == [];
    assert (before + extra)[|before|..] == extra;
    LinesAppend(before[pos..], extra);
  }

  /**
   * A line still being written when the file is read comes out in two
   * pieces: "b" in one batch and "c" in the next, with no "bc" anywhere.
   */
  lemma SplitLineExample()
    ensures TailRead("a\nb", 0) == ReadOutcome(Some(["a", "b"]), 3)
    ensures TailRead("a\nbc\n", 3) == ReadOutcome(Some(["c"]), 5)
  {
    var s := "a\nb";
    assert s[0..] == s;
    NewlineIndexIs(s, 1);
    assert s[..1] == "a" && s[2..] == "b";
    LinesStep(s, 1);
    NewlineIndexIs("b", 1);
    assert Lines("b") == ["b"] + Lines([]);
    assert Lines(s) == ["a", "b"];
    assert |s| == 3;
    var t := "a\nbc\n";
    assert |t| == 5;
    assert t[3..] == "c\n";
    NewlineIndexIs("c\n", 1);
    assert "c\n"[..1] == "c" && "c\n"[2..] == [];
    LinesStep("c\n", 1);
    assert Lines("c\n") == ["c"];
  }

  // ---------------------------------------------------------------------
  // Counting handles and paths

  /** How many handles of the registry were opened at exactly `p`. */
  function Count(files: seq<FileHandle>, p: Path): nat
  {
    if files == [] then 0
    else Count(files[..|files| - 1], p) + (if files[|files| - 1].path == p then 1 else 0)
  }

  /** How many times `p` occurs among `paths`. */
  function Occurrences(paths: seq<Path>, p: Path): nat
  {
    if paths == [] then 0
    else Occurrences(paths[..|paths| - 1], p) + (if paths[|paths| - 1] == p then 1 else 0)
  }

  /** `a - b`, or 0 when `b` is larger. */
  function Monus(a: nat, b: nat): nat
  {
    if a <= b then 0 else a - b
  }

  lemma {:induction false} CountAppend(a: seq<FileHandle>, b: seq<FileHandle>, p: Path)
    ensures Count(a + b, p) == Count(a, p) + Count(b, p)
    decreases |b|
  {
    if b == [] {
      assert a + b == a;
    } else {
      assert (a + b)[..|a + b| - 1] == a + b[..|b| - 1];
      CountAppend(a, b[..|b| - 1], p);
    }
  }

  /** No handle is opened at `p` exactly when `p` is not among the registry's paths. */
  lemma {:induction false} CountZero(files: seq<FileHandle>, p: Path)
    ensures Count(files, p) == 0 <==> p !in Paths(files)
  {
    if files != [] {
      var init := files[..|files| - 1];
      CountZero(init, p);
      PathsSnoc(files);
    }
  }

  lemma PathsSnoc(files: seq<FileHandle>)
    requires files != []
    ensures Paths(files) == Paths(files[..|files| - 1]) + [files[|files| - 1].path]
  {
  }

  lemma PathsAppend(a: seq<FileHandle>, b: seq<FileHandle>)
    ensures Paths(a + b) == Paths(a) + Paths(b)
  {
  }

  // ---------------------------------------------------------------------
  // Data-modify events

  /** The handle is named by the event and its file grew past the cursor. */
  ghost predicate Pending(disk: Disk, paths: seq<Path>, h: FileHandle)
  {
    Refers(disk, paths, h.path) && h.pos < |disk.Content(h.file)|
  }

  /** The entry for one handle: exactly the lines past its cursor, when it is pending. */
  lemma ModifyEntryIs(disk: Disk, paths: seq<Path>, h: FileHandle)
    ensures ModifyEntry(disk, paths, h) == []
            <==> !Pending(disk, paths, h)
    ensures Pending(disk, paths, h) ==>
              ModifyEntry(disk, paths, h)
              == [RawLogData(h.path, Lines(disk.Content(h.file)[h.pos..]))]
    ensures Pending(disk, paths, h) ==> ModifyEntry(disk, paths, h)[0].lines != []
  {
    if Pending(disk, paths, h) {
      LinesNonEmpty(disk.Content(h.file)[h.pos..]);
    }
  }

  /** The batch for two registries side by side is the two batches, in registry order. */
  lemma {:induction false} ModifyBatchAppend(a: seq<FileHandle>, b: seq<FileHandle>, paths: seq<Path>, disk: Disk)
    ensures ModifyBatch(a + b, paths, disk) == ModifyBatch(a, paths, disk) + ModifyBatch(b, paths, disk)
    decreases |b|
  {
    if b == [] {
      assert a + b == a;
    } else {
      var init, last := b[..|b| - 1], b[|b| - 1];
      assert (a + b)[..|a + b| - 1] == a + init;
      assert (a + b)[|a + b| - 1] == last;
      ModifyBatchAppend(a, init, paths, disk);
      AppendAssoc(ModifyBatch(a, paths, disk), ModifyBatch(init, paths, disk), ModifyEntry(disk, paths, last));
    }
  }

  /**
   * Every entry of the batch has lines, comes from a registry handle, and
   * that handle's file is named by the event.
   */
  lemma {:induction false} ModifyBatchSound(files: seq<FileHandle>, paths: seq<Path>, disk: Disk)
    ensures forall e :: e in ModifyBatch(files, paths, disk) ==>
              e.lines != [] && e.path in Paths(files) && Refers(disk, paths, e.path)
    ensures |ModifyBatch(files, paths, disk)| <= |files|
  {
    if files != [] {
      var init, h := files[..|files| - 1], files[|files| - 1];
      ModifyBatchSound(init, paths, disk);
      ModifyEntryIs(disk, paths, h);
      PathsSnoc(files);
    }
  }

  /** The batch is empty exactly when no handle is pending, so an empty batch is still sent. */
  lemma {:induction false} ModifyBatchEmpty(files: seq<FileHandle>, paths: seq<Path>, disk: Disk)
    ensures ModifyBatch(files, paths, disk) == []
            <==> forall i :: 0 <= i < |files| ==> !Pending(disk, paths, files[i])
  {
    if files != [] {
      var init, h := files[..|files| - 1], files[|files| - 1];
      ModifyBatchEmpty(init, paths, disk);
      ModifyEntryIs(disk, paths, h);
      assert forall i :: 0 <= i < |init| ==> init[i] == files[i];
    }
  }

  /** The registry keeps its paths, in the same order. */
  lemma ModifyKeepsPaths(files: seq<FileHandle>, paths: seq<Path>, disk: Disk)
    ensures Paths(ModifyFiles(files, paths, disk)) == Paths(files)
  {
  }

  /** A pending handle's cursor moves to the end of its file; every other handle is unchanged. */
  lemma ModifyMovesCursors(files: seq<FileHandle>, paths: seq<Path>, disk: Disk)
    ensures forall i :: 0 <= i < |files| ==>
              ModifyFiles(files, paths, disk)[i]
              == if Pending(disk, paths, files[i])
                 then FileHandle(files[i].path, files[i].file, |disk.Content(files[i].file)|)
                 else files[i]
  {
    var r := ModifyFiles(files, paths, disk);
    forall i | 0 <= i < |files|
      ensures r[i] == if Pending(disk, paths, files[i])
                      then FileHandle(files[i].path, files[i].file, |disk.Content(files[i].file)|)
                      else files[i]
    {
      assert r[i] == Advance(disk, paths, files[i]);
    }
  }

  /** Delivering the same event twice: the second delivery reports nothing and moves nothing. */
  lemma ModifyIdempotent(files: seq<FileHandle>, paths: seq<Path>, disk: Disk)
    ensures ModifyBatch(ModifyFiles(files, paths, disk), paths, disk) == []
    ensures ModifyFiles(ModifyFiles(files, paths, disk), paths, disk) == ModifyFiles(files, paths, disk)
  {
    var r := ModifyFiles(files, paths, disk);
    ModifyMovesCursors(files, paths, disk);
    ModifyMovesCursors(r, paths, disk);
    assert forall i :: 0 <= i < |r| ==> !Pending(disk, paths, r[i]);
    ModifyBatchEmpty(r, paths, disk);
  }

  /**
   * A data-modify event reads each handle's own file: two snapshots that
   * resolve paths alike and agree on the registry's files give the same batch
   * and the same registry, whatever file now sits at each handle's path.
   */
  lemma {:induction false} ModifyReadsOwnFiles(files: seq<FileHandle>, paths: seq<Path>, d1: Disk, d2: Disk)
    requires d1.canonical == d2.canonical
    requires forall i :: 0 <= i < |files| ==> d1.Content(files[i].file) == d2.Content(files[i].file)
    ensures ModifyBatch(files, paths, d1) == ModifyBatch(files, paths, d2)
    ensures ModifyFiles(files, paths, d1) == ModifyFiles(files, paths, d2)
  {
    if files != [] {
      var init, h := files[..|files| - 1], files[|files| - 1];
      assert forall i :: 0 <= i < |init| ==> init[i] == files[i];
      ModifyReadsOwnFiles(init, paths, d1, d2);
      assert Refers(d1, paths, h.path) == Refers(d2, paths, h.path) by {
        assert forall j :: 0 <= j < |paths| ==> SameFile(d1, paths[j], h.path) == SameFile(d2, paths[j], h.path);
      }
      assert Advance(d1, paths, h) == Advance(d2, paths, h);
    }
  }

  /**
   * A file deleted and created anew at the same path: the handle still holds
   * the old file, which has not grown, so the event reports nothing for it,
   * while a handle on the new file reads the new file's lines.
   */
  lemma ReplacedFileExample()
    ensures var disk := Disk(map["a" := "a"], map["a" := 2], map[1 := "hello", 2 := "new\n"]);
            ModifyEntry(disk, ["a"], FileHandle("a", 1, 5)) == []
            && ModifyEntry(disk, ["a"], FileHandle("a", 2, 0)) == [RawLogData("a", ["new"])]
  {
    var disk := Disk(map["a" := "a"], map["a" := 2], map[1 := "hello", 2 := "new\n"]);
    assert SameFile(disk, ["a"][0], "a");
    var s := disk.Content(2);
    assert s[0..] == s;
    NewlineIndexIs(s, 3);
    assert s[..3] == "new" && s[4..] == [];
    LinesStep(s, 3);
    assert StripCr("new") == "new";
    assert Lines(s) == ["new"];
  }

  // ---------------------------------------------------------------------
  // File-create events

  /**
   * Each opened handle names an event path that opened, holds the file that
   * path named, and has its cursor at the end of it; when every path opens, the handles follow the event
   * paths one for one.
   */
  lemma {:induction false} CreateOpenedSound(paths: seq<Path>, disk: Disk)
    ensures forall h :: h in CreateOpened(paths, disk) ==>
              h.path in paths && disk.Opens(h.path) && h.file == disk.at[h.path]
              && h.pos == |disk.Content(h.file)|
    ensures (forall p :: p in paths ==> disk.Opens(p)) ==> Paths(CreateOpened(paths, disk)) == paths
  {
    if paths != [] {
      var init := paths[..|paths| - 1];
      CreateOpenedSound(init, disk);
      assert paths == init + [paths[|paths| - 1]];
      PathsAppend(CreateOpened(init, disk), CreateOpened([paths[|paths| - 1]], disk));
    }
  }

  /** Each batch a create event sends is one entry of non-empty lines for an opened event path. */
  lemma {:induction false} CreateBatchesSound(paths: seq<Path>, disk: Disk)
    ensures forall b: seq<RawLogData> :: b in CreateBatches(paths, disk) ==>
              |b| == 1 && b[0].path in paths && disk.Opens(b[0].path)
              && b[0].lines == Lines(disk.ContentAt(b[0].path)) && b[0].lines != []
    ensures |CreateBatches(paths, disk)| <= |CreateOpened(paths, disk)|
  {
    if paths != [] {
      var init, p := paths[..|paths| - 1], paths[|paths| - 1];
      CreateBatchesSound(init, disk);
      if disk.Opens(p) && disk.ContentAt(p) != [] {
        assert disk.ContentAt(p)[0..] == disk.ContentAt(p);
        LinesNonEmpty(disk.ContentAt(p));
      }
    }
  }

  /** Create batches follow the event's paths: the paths of two events side by side send their two sequences of batches, in order. */
  lemma {:induction false} CreateBatchesAppend(a: seq<Path>, b: seq<Path>, disk: Disk)
    ensures CreateBatches(a + b, disk) == CreateBatches(a, disk) + CreateBatches(b, disk)
    decreases |b|
  {
    if b == [] {
      assert a + b == a;
    } else {
      var init, p := b[..|b| - 1], b[|b| - 1];
      assert (a + b)[..|a + b| - 1] == a + init && (a + b)[|a + b| - 1] == p;
      CreateBatchesAppend(a, init, disk);
      var last := if disk.Opens(p) && TailRead(disk.ContentAt(p), 0).lines.Some?
                  then [[RawLogData(p, TailRead(disk.ContentAt(p), 0).lines.value)]] else [];
      assert CreateBatches(a + b, disk) == CreateBatches(a + init, disk) + last;
      assert CreateBatches(b, disk) == CreateBatches(init, disk) + last;
      AppendAssoc(CreateBatches(a, disk), CreateBatches(init, disk), last);
    }
  }

  /** A path that opens onto a file with content sends one batch of all its lines; any other path sends nothing. */
  lemma CreateBatchesSingle(p: Path, disk: Disk)
    ensures CreateBatches([p], disk)
            == if disk.Opens(p) && disk.ContentAt(p) != []
               then [[RawLogData(p, Lines(disk.ContentAt(p)))]] else []
  {
    assert [p][..0] == [];
    assert disk.ContentAt(p)[0..] == disk.ContentAt(p);
  }

  /** Creating `foo.log` holding `"A\nB\n"` sends its two lines as one batch. */
  lemma CreateExample()
    ensures CreateBatches(["foo.log"], Disk(map["foo.log" := "foo.log"], map["foo.log" := 0], map[0 := "A\nB\n"]))
            == [[RawLogData("foo.log", ["A", "B"])]]
  {
    var disk := Disk(map["foo.log" := "foo.log"], map["foo.log" := 0], map[0 := "A\nB\n"]);
    CreateBatchesSingle("foo.log", disk);
    var s := disk.ContentAt("foo.log");
    assert s == "A\nB\n";
    NewlineIndexIs(s, 1);
    assert s[..1] == "A" && s[2..] == "B\n";
    LinesStep(s, 1);
    NewlineIndexIs("B\n", 1);
    assert "B\n"[..1] == "B" && "B\n"[2..] == [];
    LinesStep("B\n", 1);
    assert StripCr("A") == "A" && StripCr("B") == "B";
    assert Lines(s) == ["A", "B"];
  }

  /** A create event keeps the registry as it was and appends after it. */
  lemma CreateKeepsRegistry(files: seq<FileHandle>, paths: seq<Path>, disk: Disk)
    ensures StepFiles(files, Event(Create(FileCreate), paths), disk)[..|files|] == files
  {
  }

  /** Creating a path that is already registered opens it a second time. */
  lemma CreateDuplicates(files: seq<FileHandle>, p: Path, disk: Disk)
    requires disk.Opens(p)
    ensures Count(StepFiles(files, Event(Create(FileCreate), [p]), disk), p) == Count(files, p) + 1
  {
    assert [p][..0] == [];
    var added := CreateOpened([p], disk);
    assert added == CreateOpened([], disk) + [FileHandle(p, disk.at[p], TailRead(disk.ContentAt(p), 0).pos)];
    CountAppend(files, added, p);
    assert added[..0] == [];
  }

  // ---------------------------------------------------------------------
  // Remove events

  /** Removing a path no handle was opened at changes nothing. */
  lemma RemoveFirstAbsent(files: seq<FileHandle>, p: Path)
    requires p !in Paths(files)
    ensures RemoveFirst(files, p) == files
  {
    forall j | 0 <= j < |files| ensures files[j].path != p {
      assert Paths(files)[j] == files[j].path;
    }
    IndexOfNone(files, p);
  }

  /**
   * Removing a registered path drops exactly the first handle opened at it;
   * the handles before and after it keep their order.
   */
  lemma RemoveFirstPresent(files: seq<FileHandle>, p: Path)
    requires p in Paths(files)
    ensures exists k :: 0 <= k < |files| && files[k].path == p
              && (forall j :: 0 <= j < k ==> files[j].path != p)
              && RemoveFirst(files, p) == files[..k] + files[k + 1..]
  {
    var i :| 0 <= i < |files| && Paths(files)[i] == p;
    assert files[i].path == p;
    var k := IndexOf(files, p).value;
    assert RemoveFirst(files, p) == files[..k] + files[k + 1..];
  }

  /** One removal lowers the count of its own path by one, if any, and no other count. */
  lemma RemoveFirstCount(files: seq<FileHandle>, p: Path, q: Path)
    ensures Count(RemoveFirst(files, p), q)
            == Count(files, q) - (if q == p && Count(files, p) > 0 then 1 else 0)
  {
    match IndexOf(files, p)
    case None =>
      assert p !in Paths(files);
      CountZero(files, p);
    case Some(k) =>
      assert files == files[..k] + [files[k]] + files[k + 1..];
      CountAppend(files[..k] + [files[k]], files[k + 1..], q);
      CountAppend(files[..k], [files[k]], q);
      CountAppend(files[..k], files[k + 1..], q);
      assert [files[k]][..0] == [];
      assert Count(files, p) > 0 by {
        assert p in Paths(files);
        CountZero(files, p);
      }
  }

  /** After a remove event, each path has lost one handle per time the event named it. */
  lemma {:induction false} RemovePathsCount(files: seq<FileHandle>, paths: seq<Path>, q: Path)
    ensures Count(RemovePaths(files, paths), q) == Monus(Count(files, q), Occurrences(paths, q))
  {
    if paths != [] {
      var init, p := paths[..|paths| - 1], paths[|paths| - 1];
      RemovePathsCount(files, init, q);
      RemoveFirstCount(RemovePaths(files, init), p, q);
      if q == p {
        RemovePathsCount(files, init, p);
      }
    }
  }

  /**
   * A path removed as many times as it was opened has no entry in the batch
   * of the next data-modify event.
   */
  lemma NoResurrection(files: seq<FileHandle>, removed: seq<Path>, p: Path, paths: seq<Path>, disk: Disk)
    requires Count(files, p) <= Occurrences(removed, p)
    ensures forall e :: e in ModifyBatch(RemovePaths(files, removed), paths, disk) ==> e.path != p
  {
    var rest := RemovePaths(files, removed);
    RemovePathsCount(files, removed, p);
    CountZero(rest, p);
    ModifyBatchSound(rest, paths, disk);
  }

  /** No file-create event of the run names `p`. */
  ghost predicate NeverCreated(arrivals: seq<Arrival>, p: Path)
  {
    forall k :: 0 <= k < |arrivals| && arrivals[k].event.kind == Create(FileCreate) ==> p !in arrivals[k].event.paths
  }

  /** An event that does not create `p` keeps it out of the registry and sends nothing for it. */
  lemma StepKeepsAbsent(files: seq<FileHandle>, ev: Event, disk: Disk, p: Path)
    requires p !in Paths(files)
    requires ev.kind == Create(FileCreate) ==> p !in ev.paths
    ensures p !in Paths(StepFiles(files, ev, disk))
    ensures forall b, e :: b in StepSent(files, ev, disk) && e in b ==> e.path != p
  {
    if ev.kind == Modify(DataChange) {
      ModifyKeepsAbsent(files, ev.paths, disk, p);
    } else if ev.kind == Create(FileCreate) {
      CreateKeepsAbsent(files, ev.paths, disk, p);
    } else if ev.kind == Remove(AnyRemove) {
      RemoveKeepsAbsent(files, ev.paths, p);
    }
  }

  lemma ModifyKeepsAbsent(files: seq<FileHandle>, paths: seq<Path>, disk: Disk, p: Path)
    requires p !in Paths(files)
    ensures p !in Paths(ModifyFiles(files, paths, disk))
    ensures forall e :: e in ModifyBatch(files, paths, disk) ==> e.path != p
  {
    ModifyKeepsPaths(files, paths, disk);
    ModifyBatchSound(files, paths, disk);
  }

  lemma CreateKeepsAbsent(files: seq<FileHandle>, paths: seq<Path>, disk: Disk, p: Path)
    requires p !in Paths(files) && p !in paths
    ensures p !in Paths(files + CreateOpened(paths, disk))
    ensures forall b, e :: b in CreateBatches(paths, disk) && e in b ==> e.path != p
  {
    var added := CreateOpened(paths, disk);
    CreateOpenedSound(paths, disk);
    assert p !in Paths(added) by {
      forall i | 0 <= i < |added| ensures added[i].path != p {
        assert added[i] in added;
      }
    }
    PathsAppend(files, added);
    CreateBatchesSound(paths, disk);
  }

  lemma RemoveKeepsAbsent(files: seq<FileHandle>, paths: seq<Path>, p: Path)
    requires p !in Paths(files)
    ensures p !in Paths(RemovePaths(files, paths))
  {
    CountZero(files, p);
    RemovePathsCount(files, paths, p);
    CountZero(RemovePaths(files, paths), p);
  }

  /**
   * A path absent from the registry stays absent for a whole run in which no
   * file-create event names it, and no batch of the run carries it.
   */
  lemma {:induction false} AbsentStaysAbsent(files: seq<FileHandle>, arrivals: seq<Arrival>, p: Path)
    requires p !in Paths(files)
    requires NeverCreated(arrivals, p)
    ensures p !in Paths(RunFiles(files, arrivals))
    ensures forall b, e :: b in RunSent(files, arrivals) && e in b ==> e.path != p
    decreases |arrivals|
  {
    if arrivals != [] {
      var ev, disk := arrivals[0].event, arrivals[0].disk;
      assert ev.kind == Create(FileCreate) ==> p !in ev.paths;
      StepKeepsAbsent(files, ev, disk, p);
      var rest := arrivals[1..];
      assert NeverCreated(rest, p) by {
        forall k | 0 <= k < |rest| && rest[k].event.kind == Create(FileCreate)
          ensures p !in rest[k].event.paths
        {
          assert rest[k] == arrivals[k + 1];
        }
      }
      AbsentStaysAbsent(StepFiles(files, ev, disk), rest, p);
    }
  }

  /**
   * A path removed as many times as it was opened appears in no batch of a
   * run in which no file-create event names it.
   */
  lemma NoResurrectionInRun(files: seq<FileHandle>, removed: seq<Path>, p: Path, arrivals: seq<Arrival>)
    requires Count(files, p) <= Occurrences(removed, p)
    requires NeverCreated(arrivals, p)
    ensures forall b, e :: b in RunSent(RemovePaths(files, removed), arrivals) && e in b ==> e.path != p
  {
    var rest := RemovePaths(files, removed);
    RemovePathsCount(files, removed, p);
    CountZero(rest, p);
    AbsentStaysAbsent(rest, arrivals, p);
  }

  // ---------------------------------------------------------------------
  // Events the tailer ignores

  /** The event kinds the loop has an arm for. */
  predicate Handled(kind: EventKind)
  {
    kind == Modify(DataChange) || kind == Create(FileCreate) || kind == Remove(AnyRemove)
  }

  /** Every other kind leaves the registry alone and sends nothing. */
  lemma OtherEventIgnored(files: seq<FileHandle>, ev: Event, disk: Disk)
    requires !Handled(ev.kind)
    ensures StepFiles(files, ev, disk) == files && StepSent(files, ev, disk) == []
  {
  }

  // ---------------------------------------------------------------------
  // Directory scan and startup replay

  /** Every scanned handle is at position 0 of the file a listed entry names. */
  lemma {:induction false} ScanSound(listing: seq<DirRead>, disk: Disk)
    ensures forall h :: h in Scan(listing, disk) ==>
              h.pos == 0 && disk.Opens(h.path) && h.file == disk.at[h.path] && Entry(h.path) in listing
    ensures |Scan(listing, disk)| <= |listing|
  {
    if listing != [] {
      ScanSound(listing[1..], disk);
    }
  }

  /** Listings without a read error scan piecewise, in directory order. */
  lemma {:induction false} ScanAppend(a: seq<DirRead>, b: seq<DirRead>, disk: Disk)
    requires ReadError !in a
    ensures Scan(a + b, disk) == Scan(a, disk) + Scan(b, disk)
  {
    if a == [] {
      assert a + b == b;
    } else {
      assert (a + b)[0] == a[0];
      assert (a + b)[1..] == a[1..] + b;
      ScanAppend(a[1..], b, disk);
    }
  }

  /** Nothing after the first failing directory read is opened. */
  lemma ScanStopsAtError(a: seq<DirRead>, b: seq<DirRead>, disk: Disk)
    requires ReadError !in a
    ensures Scan(a + [ReadError] + b, disk) == Scan(a, disk)
  {
    ScanAppend(a, [ReadError] + b, disk);
    assert a + [ReadError] + b == a + ([ReadError] + b);
  }

  /** A listing whose entries all open and that reads without error is opened in full. */
  lemma {:induction false} ScanComplete(listing: seq<DirRead>, disk: Disk)
    requires forall i :: 0 <= i < |listing| ==> listing[i].Entry? && disk.Opens(listing[i].path)
    ensures |Scan(listing, disk)| == |listing|
  {
    if listing != [] {
      ScanComplete(listing[1..], disk);
    }
  }

  /**
   * Each startup batch is a single entry of non-empty lines labelled with the
   * directory rather than the file; after startup every scanned handle sits
   * at the end of its file.
   */
  lemma {:induction false} ReplayBatchesShape(directory: Path, files: seq<FileHandle>, disk: Disk)
    ensures forall b: seq<RawLogData> :: b in ReplayBatches(directory, files, disk) ==>
              |b| == 1 && b[0].path == directory && b[0].lines != []
    ensures |ReplayBatches(directory, files, disk)| <= |files|
  {
    if files != [] {
      var h := files[|files| - 1];
      ReplayBatchesShape(directory, files[..|files| - 1], disk);
      if h.pos < |disk.Content(h.file)| {
        LinesNonEmpty(disk.Content(h.file)[h.pos..]);
      }
    }
  }

  /** Startup batches follow registry order: two registries side by side send their two sequences of batches, in order. */
  lemma {:induction false} ReplayBatchesAppend(directory: Path, a: seq<FileHandle>, b: seq<FileHandle>, disk: Disk)
    ensures ReplayBatches(directory, a + b, disk) == ReplayBatches(directory, a, disk) + ReplayBatches(directory, b, disk)
    decreases |b|
  {
    if b == [] {
      assert a + b == a;
    } else {
      var init, h := b[..|b| - 1], b[|b| - 1];
      assert (a + b)[..|a + b| - 1] == a + init && (a + b)[|a + b| - 1] == h;
      ReplayBatchesAppend(directory, a, init, disk);
      var r := TailRead(disk.Content(h.file), h.pos);
      var last := if r.lines.Some? then [[RawLogData(directory, r.lines.value)]] else [];
      assert ReplayBatches(directory, a + b, disk) == ReplayBatches(directory, a + init, disk) + last;
      assert ReplayBatches(directory, b, disk) == ReplayBatches(directory, init, disk) + last;
      AppendAssoc(ReplayBatches(directory, a, disk), ReplayBatches(directory, init, disk), last);
    }
  }

  /**
   * A handle whose file extends past its cursor sends one batch, labelled with
   * the directory, of the lines from the cursor on; any other handle sends nothing.
   */
  lemma ReplayBatchesSingle(directory: Path, h: FileHandle, disk: Disk)
    ensures ReplayBatches(directory, [h], disk)
            == if h.pos < |disk.Content(h.file)|
               then [[RawLogData(directory, Lines(disk.Content(h.file)[h.pos..]))]] else []
  {
    assert [h][..0] == [];
  }

  /** After startup every scanned handle sits at the end of its file. */
  lemma ReplayAtEnd(listing: seq<DirRead>, disk: Disk)
    ensures Paths(ReplayFiles(Scan(listing, disk), disk)) == Paths(Scan(listing, disk))
    ensures forall h :: h in ReplayFiles(Scan(listing, disk), disk) ==> h.pos == |disk.Content(h.file)|
  {
    var s := Scan(listing, disk);
    ScanSound(listing, disk);
    var r := ReplayFiles(s, disk);
    forall h | h in r ensures h.pos == |disk.Content(h.file)| {
      var i :| 0 <= i < |r| && r[i] == h;
      assert s[i] in s;
    }
  }

  /** A data-modify event on an unchanged disk right after startup sends an empty batch. */
  lemma QuietAfterReplay(listing: seq<DirRead>, paths: seq<Path>, disk: Disk)
    ensures ModifyBatch(ReplayFiles(Scan(listing, disk), disk), paths, disk) == []
  {
    var r := ReplayFiles(Scan(listing, disk), disk);
    ReplayAtEnd(listing, disk);
    assert forall i :: 0 <= i < |r| ==> r[i] in r;
    ModifyBatchEmpty(r, paths, disk);
  }
}
