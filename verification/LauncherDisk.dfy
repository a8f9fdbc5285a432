/**
 What one launch does to the installation's disk (desktop/launcher/postgres.go,
 layout.go): the bootstrap password, the configuration and the database cluster.

 Every call to the system ends one of three ways: done, failed with an error, or
 cut short by the launcher being stopped. How each ends comes from outside.
 */
module LauncherDisk {
  datatype Ending = Done | Failed | Stopped

  /** A file and whether its bytes have reached the disk. */
  datatype File = Absent | File(text: string, durable: bool)

  /** A directory, the names in it, and which launch's build filled it. */
  datatype Dir = Gone | Dir(files: set<string>, built: nat)

  const PG_VERSION := "PG_VERSION"

  datatype Disk = Disk(staging: Dir, data: Dir, password: File, configStaging: File, config: File)

  /** Creating the password file: how the open, the write and the close end, and how much a bad write leaves. */
  datatype PasswordFate = PasswordFate(open: Ending, write: Ending, written: nat, close: Ending)

  /** Writing through a staging file. */
  datatype WriteFate =
    WriteFate(open: Ending, write: Ending, written: nat, sync: Ending, close: Ending, remove: Ending, rename: Ending)

  /** Building a cluster: what a cut-short clearing leaves, and what a cut-short build has made. */
  datatype ClusterFate =
    ClusterFate(stat: Ending, clear: Ending, left: set<string>, build: Ending, made: Dir, rename: Ending)

  /** One launch: its number, the texts it would write, the cluster its initdb makes, and how each call ends. */
  datatype Launch =
    Launch(n: nat, secret: string, text: string, cluster: set<string>,
           password: PasswordFate, stat: Ending, write: WriteFate, database: ClusterFate)

  function Part(text: string, written: nat): string {
    if written < |text| then text[..written] else text
  }

  // ------------------------------------------------------------------
  // The calls
  // ------------------------------------------------------------------

  /** The password is created once: an existing file is left as it is. */
  function EnsurePasswordOn(disk: Disk, secret: string, f: PasswordFate): (Disk, Ending) {
    if disk.password.File? then (disk, Done)
    else if !f.open.Done? then (disk, f.open)
    else if !f.write.Done? then (disk.(password := File(Part(secret, f.written), false)), f.write)
    else (disk.(password := File(secret, false)), f.close)
  }

  /** Write and flush: bytes count as written once they are durable. */
  function WriteAndFlushOn(staged: File, text: string, f: WriteFate): (File, Ending) {
    if !f.open.Done? then (staged, f.open)
    else if !f.write.Done? then
      (File(Part(text, f.written), false), if f.write.Failed? && f.close.Stopped? then Stopped else f.write)
    else if !f.sync.Done? then
      (File(text, false), if f.sync.Failed? && f.close.Stopped? then Stopped else f.sync)
    else (File(text, true), f.close)
  }

  /** Write beside the destination, then rename into place. */
  function WriteFileAtomicOn(disk: Disk, text: string, f: WriteFate): (Disk, Ending) {
    var (staged, flushed) := WriteAndFlushOn(disk.configStaging, text, f);
    var written := disk.(configStaging := staged);
    if flushed.Stopped? then (written, Stopped)
    else if flushed.Failed? then RemoveStagingOn(written, f.remove)
    else if f.rename.Stopped? then (written, Stopped)
    else if f.rename.Failed? then RemoveStagingOn(written, f.remove)
    else (written.(config := staged, configStaging := Absent), Done)
  }

  /** After a failure the staging file is removed, if that works. The failure stands either way. */
  function RemoveStagingOn(disk: Disk, remove: Ending): (Disk, Ending) {
    if remove.Done? then (disk.(configStaging := Absent), Failed) else (disk, remove)
  }

  function EnsureConfigOn(disk: Disk, l: Launch): (Disk, Ending) {
    var (secured, ending) := EnsurePasswordOn(disk, l.secret, l.password);
    if !ending.Done? then (secured, ending)
    else if !l.stat.Done? then (secured, l.stat)
    else if secured.config.File? then (secured, Done)
    else WriteFileAtomicOn(secured, l.text, l.write)
  }

  /** Whether the data directory still has to be created. */
  predicate NeedsInitdbOn(disk: Disk) {
    disk.data.Gone? || PG_VERSION !in disk.data.files
  }

  /** A rename puts a directory in the place of none, or of an empty one. */
  predicate CanRename(disk: Disk) {
    disk.data.Gone? || disk.data.files == {}
  }

  /** What a directory holds when its removal is cut short. */
  function ClearedOn(d: Dir, f: ClusterFate): Dir {
    if f.clear.Done? || d.Gone? then Gone else d.(files := d.files * f.left)
  }

  function FilesIn(d: Dir): set<string> {
    if d.Gone? then {} else d.files
  }

  /** What a cut-short build leaves: some of the cluster's files, in any number and any order, beside what was there. */
  function Unfinished(d: Dir, n: nat, cluster: set<string>, made: Dir): Dir {
    if made.Gone? then d else Dir(FilesIn(d) + made.files * cluster, n)
  }

  /** What a finished build leaves: the cluster's files beside what was there. */
  function Built(d: Dir, n: nat, cluster: set<string>): Dir {
    Dir(FilesIn(d) + cluster, n)
  }

  function InitClusterOn(disk: Disk, n: nat, cluster: set<string>, f: ClusterFate): (Disk, Ending) {
    var cleared := disk.(staging := ClearedOn(disk.staging, f));
    if !f.clear.Done? then (cleared, f.clear)
    else if !f.build.Done? then (cleared.(staging := Unfinished(cleared.staging, n, cluster, f.made)), f.build)
    else
      var built := cleared.(staging := Built(cleared.staging, n, cluster));
      if !f.rename.Done? then (built, f.rename)
      else if !CanRename(built) then (built, Failed)
      else (built.(data := built.staging, staging := Gone), Done)
  }

  function EnsureClusterOn(disk: Disk, l: Launch): (Disk, Ending) {
    if !l.database.stat.Done? then (disk, l.database.stat)
    else if !NeedsInitdbOn(disk) then (disk, Done)
    else InitClusterOn(disk, l.n, l.cluster, l.database)
  }

  /** One whole launch, as far as it got. */
  function LaunchOn(disk: Disk, l: Launch): (Disk, Ending) {
    var (configured, ending) := EnsureConfigOn(disk, l);
    if !ending.Done? then (configured, ending) else EnsureClusterOn(configured, l)
  }

  /** The password a launch shows once it is up: the one it generated, where there was no file yet, and otherwise none. */
  function AnnouncedOn(disk: Disk, l: Launch): string {
    if disk.password.Absent? && LaunchOn(disk, l).1.Done? then l.secret else ""
  }

  // ------------------------------------------------------------------
  // The launcher
  // ------------------------------------------------------------------

  /** One installation's disk, changed call by call. */
  class Installation {
    var staging: Dir
    var data: Dir
    var password: File
    var configStaging: File
    var config: File

    constructor (disk: Disk)
      ensures Now() == disk
    {
      staging, data, password := disk.staging, disk.data, disk.password;
      configStaging, config := disk.configStaging, disk.config;
    }

    function Now(): Disk
      reads this
    {
      Disk(staging, data, password, configStaging, config)
    }

    /** The secret comes back only where it was stored. */
    method EnsureAdminPassword(secret: string, f: PasswordFate) returns (ending: Ending, shown: string)
      modifies this`password
      ensures (Now(), ending) == EnsurePasswordOn(old(Now()), secret, f)
      ensures shown == if ending.Done? && old(password).Absent? then secret else ""
    {
      if password.File? {
        return Done, "";
      }
      if !f.open.Done? {
        return f.open, "";
      }
      password := File("", false);
      if !f.write.Done? {
        password := File(Part(secret, f.written), false);
        return f.write, "";
      }
      password := File(secret, false);
      ending := f.close;
      shown := if ending.Done? then secret else "";
    }

    /** The first thing that went wrong, the file always closed unless the launcher is stopped. */
    method WriteAndFlush(text: string, f: WriteFate) returns (ending: Ending)
      modifies this`configStaging
      ensures (configStaging, ending) == WriteAndFlushOn(old(configStaging), text, f)
    {
      if !f.open.Done? {
        return f.open;
      }
      configStaging := File("", false);
      var write := f.write;
      configStaging := File(if write.Done? then text else Part(text, f.written), false);
      if write.Done? {
        write := f.sync;
        if write.Done? {
          configStaging := File(text, true);
        }
      }
      if write.Stopped? {
        return Stopped;
      }
      ending := if write.Failed? && !f.close.Stopped? then Failed else f.close;
    }

    method RemoveStaging(remove: Ending) returns (ending: Ending)
      modifies this`configStaging
      ensures (Now(), ending) == RemoveStagingOn(old(Now()), remove)
    {
      if remove.Done? {
        configStaging := Absent;
      }
      ending := if remove.Stopped? then Stopped else Failed;
    }

    method WriteFileAtomic(text: string, f: WriteFate) returns (ending: Ending)
      modifies this`configStaging, this`config
      ensures (Now(), ending) == WriteFileAtomicOn(old(Now()), text, f)
    {
      var flushed := WriteAndFlush(text, f);
      if flushed.Stopped? {
        return Stopped;
      }
      if flushed.Failed? {
        ending := RemoveStaging(f.remove);
        return;
      }
      if f.rename.Stopped? {
        return Stopped;
      }
      if f.rename.Failed? {
        ending := RemoveStaging(f.remove);
        return;
      }
      config, configStaging := configStaging, Absent;
      ending := Done;
    }

    method EnsureConfig(l: Launch) returns (ending: Ending, shown: string)
      modifies this`password, this`configStaging, this`config
      ensures (Now(), ending) == EnsureConfigOn(old(Now()), l)
      ensures shown == if ending.Done? && old(password).Absent? then l.secret else ""
    {
      ending, shown := EnsureAdminPassword(l.secret, l.password);
      if !ending.Done? {
        return;
      }
      if !l.stat.Done? {
        return l.stat, "";
      }
      if config.File? {
        return Done, shown;
      }
      ending := WriteFileAtomic(l.text, l.write);
      if !ending.Done? {
        shown := "";
      }
    }

    method NeedsInitdb() returns (needed: bool)
      ensures needed == NeedsInitdbOn(Now())
    {
      needed := data.Gone? || PG_VERSION !in data.files;
    }

    method InitCluster(n: nat, cluster: set<string>, f: ClusterFate) returns (ending: Ending)
      modifies this`staging, this`data
      ensures (Now(), ending) == InitClusterOn(old(Now()), n, cluster, f)
    {
      staging := ClearedOn(staging, f);
      if !f.clear.Done? {
        return f.clear;
      }
      if !f.build.Done? {
        staging := Unfinished(staging, n, cluster, f.made);
        return f.build;
      }
      staging := Built(staging, n, cluster);
      if !f.rename.Done? {
        return f.rename;
      }
      if !data.Gone? && data.files != {} {
        return Failed;
      }
      data, staging := staging, Gone;
      ending := Done;
    }

    method Start(l: Launch) returns (ending: Ending, announced: string)
      modifies this
      ensures (Now(), ending) == LaunchOn(old(Now()), l)
      ensures announced == AnnouncedOn(old(Now()), l)
    {
      var shown;
      ending, shown := EnsureConfig(l);
      if !ending.Done? {
        return ending, "";
      }
      if !l.database.stat.Done? {
        return l.database.stat, "";
      }
      var needed := NeedsInitdb();
      if needed {
        ending := InitCluster(l.n, l.cluster, l.database);
      }
      announced := if ending.Done? then shown else "";
    }
  }
}
