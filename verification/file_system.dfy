/**
 * The environment the tailer runs against: paths, what the file system
 * holds at the moment an event is handled, the entries a directory read
 * yields, and the notification kinds the `notify` crate delivers.
 */
module FileSystem {

  type Path = string

  /** The identity of a file, independent of the paths that name it. */
  type FileId = nat

  /**
   * A snapshot of the file system as the tailer observes it while it handles
   * one event. `canonical` maps every path that `canonicalize` resolves to
   * its canonical form (a path absent from it makes `canonicalize` fail);
   * `at` maps every path `File::open` succeeds on to the file it names; and
   * `data` holds the current content of files by identity, one character per
   * byte, including files that were unlinked or renamed while still open.
   */
  datatype Disk = Disk(canonical: map<Path, Path>, at: map<Path, FileId>, data: map<FileId, string>)
  {
    /** `File::open(p)` succeeds. */
    predicate Opens(p: Path)
    {
      p in at
    }

    /** What reading the open file `f` yields now. */
    function Content(f: FileId): string
    {
      if f in data then data[f] else []
    }

    /** What reading the file that `p` names now yields. */
    function ContentAt(p: Path): string
    {
      if p in at then Content(at[p]) else []
    }
  }

  /** One call of `ReadDir::next_entry`: an entry, or an I/O error. */
  datatype DirRead = Entry(path: Path) | ReadError

  /** The kinds of `notify::EventKind` the tailers tell apart. */
  datatype CreateKind = AnyCreate | FileCreate | FolderCreate | OtherCreate
  datatype ModifyKind = AnyModify | DataChange | MetadataChange | NameChange | OtherModify
  datatype RemoveKind = AnyRemove | FileRemove | FolderRemove | OtherRemove
  datatype EventKind =
    | AnyKind
    | Access
    | Create(createKind: CreateKind)
    | Modify(modifyKind: ModifyKind)
    | Remove(removeKind: RemoveKind)
    | OtherKind

  /** A `notify::Event`: what happened, and to which paths. */
  datatype Event = Event(kind: EventKind, paths: seq<Path>)

  /** An event as the tailer receives it, with the file system as it stands then. */
  datatype Arrival = Arrival(event: Event, disk: Disk)
}
