/**
 * What the earlier tailer variant guarantees, and how it differs from the
 * later one: the same cursors, but empty entries are reported, startup
 * batches carry each file's own path, and the registry never shrinks.
 */
module TempProperties {
  import opened Wrappers
  import opened FileSystem
  import Watch
  import opened TempWatch

  /** Both variants read the same lines and leave the cursor in the same place; "nothing" becomes an empty list. */
  lemma ReadAgrees(content: string, pos: nat)
    ensures TailLines(content, pos).0 == Watch.TailRead(content, pos).lines.GetOr([])
    ensures TailLines(content, pos).1 == Watch.TailRead(content, pos).pos
  {
  }

  /**
   * The startup pass sends exactly one single-entry batch per scanned file,
   * in directory order, labelled with that file's path, even when it read
   * nothing.
   */
  lemma {:induction false} StartupBatchesShape(files: seq<Watch.FileHandle>, disk: Disk)
    ensures |StartupBatches(files, disk)| == |files|
    ensures forall i :: 0 <= i < |files| ==>
              StartupBatches(files, disk)[i]
              == [Change(files[i].path, TailLines(disk.Content(files[i].file), files[i].pos).0)]
  {
    if files != [] {
      var init := files[..|files| - 1];
      StartupBatchesShape(init, disk);
      assert forall i :: 0 <= i < |init| ==> init[i] == files[i];
    }
  }

  /** The entries with lines, in order. */
  function NonEmpty(cs: seq<Change>): (r: seq<Change>)
    ensures |r| <= |cs|
  {
    if cs == [] then []
    else NonEmpty(cs[..|cs| - 1]) + (if cs[|cs| - 1].lines != [] then [cs[|cs| - 1]] else [])
  }

  /** The later variant's entries, as entries of this variant. */
  function AsChanges(ds: seq<Watch.RawLogData>): (r: seq<Change>)
    ensures |r| == |ds|
    ensures forall i :: 0 <= i < |ds| ==> r[i] == Change(ds[i].path, ds[i].lines)
  {
    seq(|ds|, i requires 0 <= i < |ds| => Change(ds[i].path, ds[i].lines))
  }

  lemma AsChangesSnoc(ds: seq<Watch.RawLogData>, e: seq<Watch.RawLogData>)
    ensures AsChanges(ds + e) == AsChanges(ds) + AsChanges(e)
  {
  }

  /**
   * A data-modify batch of this variant, with its empty entries dropped, is
   * exactly the batch the later variant sends for the same registry and disk.
   */
  lemma {:induction false} ModifyVariantsAgree(files: seq<Watch.FileHandle>, paths: seq<Path>, disk: Disk)
    ensures NonEmpty(ModifyChanges(files, paths, disk)) == AsChanges(Watch.ModifyBatch(files, paths, disk))
  {
    if files != [] {
      var init, h := files[..|files| - 1], files[|files| - 1];
      ModifyVariantsAgree(init, paths, disk);
      var cs, c := ModifyChanges(init, paths, disk), ModifyChange(disk, paths, h);
      assert ModifyChanges(files, paths, disk) == cs + c;
      NonEmptySnoc(cs, c);
      ChangeAgrees(disk, paths, h);
      AsChangesSnoc(Watch.ModifyBatch(init, paths, disk), Watch.ModifyEntry(disk, paths, h));
    }
  }

  /** One handle's entry, with an empty entry dropped, is the later variant's entry. */
  lemma ChangeAgrees(disk: Disk, paths: seq<Path>, h: Watch.FileHandle)
    ensures NonEmpty(ModifyChange(disk, paths, h)) == AsChanges(Watch.ModifyEntry(disk, paths, h))
  {
    ReadAgrees(disk.Content(h.file), h.pos);
    var c := ModifyChange(disk, paths, h);
    if c != [] {
      assert c[..0] == [];
    }
  }

  /** Dropping empty entries works entry by entry. */
  lemma NonEmptySnoc(cs: seq<Change>, c: seq<Change>)
    requires |c| <= 1
    ensures NonEmpty(cs + c) == NonEmpty(cs) + NonEmpty(c)
  {
    if c == [] {
      assert cs + c == cs;
    } else {
      assert (cs + c)[..|cs + c| - 1] == cs;
      assert c[..0] == [];
    }
  }

  /**
   * Every entry names a registry file the event refers to, and the batch is
   * empty only when the event names none of them: a named file that did not
   * grow still gets an entry.
   */
  lemma {:induction false} ModifyChangesSound(files: seq<Watch.FileHandle>, paths: seq<Path>, disk: Disk)
    ensures forall c :: c in ModifyChanges(files, paths, disk) ==>
              c.path in Watch.Paths(files) && Watch.Refers(disk, paths, c.path)
    ensures ModifyChanges(files, paths, disk) == []
            <==> forall i :: 0 <= i < |files| ==> !Watch.Refers(disk, paths, files[i].path)
  {
    if files != [] {
      var init := files[..|files| - 1];
      ModifyChangesSound(init, paths, disk);
      assert Watch.Paths(files) == Watch.Paths(init) + [files[|files| - 1].path];
      assert forall i :: 0 <= i < |init| ==> init[i] == files[i];
    }
  }

  /**
   * A create event sends one single-entry batch per file it registers, in
   * the same order, even for an empty file: its path and the lines read
   * from its start.
   */
  lemma {:induction false} CreateChangesShape(paths: seq<Path>, disk: Disk)
    ensures |CreateChanges(paths, disk)| == |Watch.CreateOpened(paths, disk)|
    ensures forall i :: 0 <= i < |CreateChanges(paths, disk)| ==>
              |CreateChanges(paths, disk)[i]| == 1
              && CreateChanges(paths, disk)[i][0].path == Watch.CreateOpened(paths, disk)[i].path
              && CreateChanges(paths, disk)[i][0].lines
                 == TailLines(disk.ContentAt(Watch.CreateOpened(paths, disk)[i].path), 0).0
  {
    if paths != [] {
      CreateChangesShape(paths[..|paths| - 1], disk);
    }
  }

  /** Remove events, and create events of any kind but `Any`, change nothing and send nothing. */
  lemma OnlyTwoArms(files: seq<Watch.FileHandle>, ev: Event, disk: Disk)
    requires ev.kind != Modify(DataChange) && ev.kind != Create(AnyCreate)
    ensures StepFiles(files, ev, disk) == files && StepSent(files, ev, disk) == []
  {
  }

  /** `a` is `b` with possibly more handles after it, each old handle keeping its path. */
  ghost predicate Extends(b: seq<Watch.FileHandle>, a: seq<Watch.FileHandle>)
  {
    |a| >= |b| && forall i :: 0 <= i < |b| ==> a[i].path == b[i].path
  }

  /** No event shrinks the registry or reorders it. */
  lemma StepExtends(files: seq<Watch.FileHandle>, ev: Event, disk: Disk)
    ensures Extends(files, StepFiles(files, ev, disk))
  {
  }

  /** Over a whole run the registry only grows: every file opened once stays, in place. */
  lemma {:induction false} RegistryNeverShrinks(files: seq<Watch.FileHandle>, arrivals: seq<Arrival>)
    ensures Extends(files, RunFiles(files, arrivals))
    decreases |arrivals|
  {
    if arrivals != [] {
      var next := StepFiles(files, arrivals[0].event, arrivals[0].disk);
      StepExtends(files, arrivals[0].event, arrivals[0].disk);
      RegistryNeverShrinks(next, arrivals[1..]);
    }
  }
}
