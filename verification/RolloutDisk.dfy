/**
 The directory entries and inodes the rollout works on, file pins, and the
 journal. Every rename is one atomic, durable step; a hash stands for the bytes.
 */
module RolloutDisk {
  import opened Basics

  type Path = string
  type Content = string
  type Inode = nat

  datatype File = File(mode: nat, owner: nat, content: Content)

  /** `file_pin`: the identity and the bytes a path names. */
  datatype Pin = Pin(ino: Inode, file: File)

  datatype Disk = Disk(names: map<Path, Inode>, files: map<Inode, File>, next: Inode)
  {
    predicate Shaped() {
      && (forall p :: p in names ==> names[p] in files)
      && (forall i :: i in files ==> i < next)
    }
  }

  function PinOf(d: Disk, p: Path): Option<Pin> {
    if p in d.names && d.names[p] in d.files then Some(Pin(d.names[p], d.files[d.names[p]])) else None
  }

  /** `st_nlink`: how many names an inode has. */
  function Links(d: Disk, i: Inode): nat {
    |set p | p in d.names && d.names[p] == i|
  }

  /** A new inode under a name that was free. */
  function Created(d: Disk, p: Path, f: File): Disk {
    Disk(d.names[p := d.next], d.files[d.next := f], d.next + 1)
  }

  /** `rename(src, dst)`; between two names of one inode it does nothing. */
  function Renamed(d: Disk, src: Path, dst: Path): Disk
    requires src in d.names
  {
    if dst in d.names && d.names[dst] == d.names[src] then d
    else d.(names := (d.names - {src})[dst := d.names[src]])
  }

  /** One target: its path, what preflight recorded of it, and the names this run uses beside it. */
  datatype Target = Target(path: Path, original: Pin, links: nat, backup: Path, stage: Path)

  /** A journal entry: backup custody and the exact install identity. */
  datatype Entry = Entry(target: Target, backup: Pin, install: Pin, state: EntryState)

  datatype EntryState = Intended | Committed | Installed | RollbackIntended | RolledBack

  /** `entry_installed_matches`. */
  predicate InstalledMatches(d: Disk, e: Entry, candidate: Content) {
    PinOf(d, e.target.path) == Some(e.install) && e.install.file.content == candidate
  }

  /** `backup_pin_ok`. */
  predicate BackupOk(d: Disk, e: Entry) {
    && PinOf(d, e.target.backup) == Some(e.backup)
    && e.backup.file.content == e.target.original.file.content
    && e.backup.file.mode == e.target.original.file.mode
    && e.backup.file.owner == e.target.original.file.owner
  }

  /** Every name the run uses is used once. */
  ghost predicate DistinctNames(targets: seq<Target>) {
    forall i, j :: 0 <= i < |targets| && 0 <= j < |targets| ==>
      && targets[i].path != targets[j].backup && targets[i].path != targets[j].stage
      && targets[i].backup != targets[j].stage
      && (i != j ==>
            && targets[i].path != targets[j].path
            && targets[i].backup != targets[j].backup && targets[i].stage != targets[j].stage)
  }

  /** The names of one target that nobody else may touch for the run to answer for it. */
  function Custody(t: Target): set<Path> {
    {t.path, t.backup, t.stage}
  }
}
