/**
 What any sequence of launches leaves on the disk, each of them stopped or failing
 anywhere, with power cuts, the user's edits and the running database in between.
 */
module LauncherSafety {
  import opened LauncherDisk

  datatype Event =
    | Launched(l: Launch)
    | PowerCut(kept: nat)           // what was not flushed may be lost
    | Edited(text: string)          // the user saves a configuration of their own
    | Served(files: set<string>)    // the database runs and adds files of its own

  /** What a power cut leaves of a file. */
  function Cut(f: File, kept: nat): File {
    if f.File? && !f.durable then File(Part(f.text, kept), true) else f
  }

  /** The database runs only where a cluster is found. */
  function Step(disk: Disk, e: Event): Disk {
    match e
    case Launched(l) => LaunchOn(disk, l).0
    case PowerCut(kept) =>
      disk.(password := Cut(disk.password, kept), configStaging := Cut(disk.configStaging, kept),
            config := Cut(disk.config, kept))
    case Edited(text) => disk.(config := File(text, true))
    case Served(files) =>
      if NeedsInitdbOn(disk) then disk else disk.(data := disk.data.(files := disk.data.files + files))
  }

  const FRESH := Disk(Gone, Gone, Absent, Absent, Absent)

  /** Every launch builds the same kind of cluster, which holds the marker among its files. */
  ghost predicate Run(disks: seq<Disk>, events: seq<Event>, cluster: set<string>) {
    && PG_VERSION in cluster
    && |disks| == |events| + 1
    && disks[0] == FRESH
    && (forall i :: 0 <= i < |events| ==> disks[i + 1] == Step(disks[i], events[i]))
    && forall i :: 0 <= i < |events| && events[i].Launched? ==> events[i].l.cluster == cluster
  }

  /** The data directory is not there, or holds a whole cluster. */
  predicate ClusterSound(disk: Disk, cluster: set<string>) {
    disk.data.Gone? || cluster <= disk.data.files
  }

  // ------------------------------------------------------------------
  // The cluster
  // ------------------------------------------------------------------

  lemma LaunchMovesData(disk: Disk, l: Launch)
    ensures var after := LaunchOn(disk, l).0;
            after.data == disk.data || (NeedsInitdbOn(disk) && after.data == Dir(l.cluster, l.n))
  {
  }

  /**
   A launch that puts a cluster or a configuration in place leaves nothing of how it
   got there; the cluster takes the place of no file, and is what initdb made and
   nothing an earlier one left. A
   launch that fails leaves a staging file only where it was stopped or could not
   remove it.
   */
  lemma NothingLeftBehind(disk: Disk, l: Launch)
    ensures var (after, ending) := LaunchOn(disk, l);
      && (after.data != disk.data ==>
            FilesIn(disk.data) == {} && after.data == Dir(l.cluster, l.n) && after.staging.Gone?)
      && (after.config != disk.config ==> after.configStaging.Absent?)
      && (after.configStaging != disk.configStaging ==>
            after.configStaging.Absent? || ending.Stopped? || (ending.Failed? && !l.write.remove.Done?))
  {
  }

  lemma {:induction false} ClusterStaysSound(disks: seq<Disk>, events: seq<Event>, cluster: set<string>, i: nat)
    requires Run(disks, events, cluster) && i < |disks|
    ensures ClusterSound(disks[i], cluster)
  {
    if i > 0 {
      ClusterStaysSound(disks, events, cluster, i - 1);
      if events[i - 1].Launched? {
        LaunchMovesData(disks[i - 1], events[i - 1].l);
      }
    }
  }

  /** The marker answers truly: no cluster is needed exactly when the data directory holds a finished one. */
  lemma MarkerMeansFinished(disks: seq<Disk>, events: seq<Event>, cluster: set<string>, i: nat)
    requires Run(disks, events, cluster) && i < |disks|
    ensures !NeedsInitdbOn(disks[i]) <==> disks[i].data.Dir? && cluster <= disks[i].data.files
  {
    ClusterStaysSound(disks, events, cluster, i);
  }

  /** A finished cluster is never rebuilt and never loses a file, whatever comes after. */
  lemma {:induction false} NeverRebuilt(disks: seq<Disk>, events: seq<Event>, cluster: set<string>, i: nat, j: nat)
    requires Run(disks, events, cluster) && i <= j < |disks|
    requires !NeedsInitdbOn(disks[i])
    ensures !NeedsInitdbOn(disks[j])
    ensures disks[j].data.built == disks[i].data.built && disks[i].data.files <= disks[j].data.files
  {
    if i < j {
      NeverRebuilt(disks, events, cluster, i, j - 1);
      if events[j - 1].Launched? {
        LaunchMovesData(disks[j - 1], events[j - 1].l);
      }
    }
  }

  // ------------------------------------------------------------------
  // The configuration
  // ------------------------------------------------------------------

  /** A whole text some launch or the user wrote, before step `i`. */
  ghost predicate Written(events: seq<Event>, i: nat, text: string) {
    exists k :: 0 <= k < i && k < |events|
      && ((events[k].Launched? && events[k].l.text == text) || events[k] == Edited(text))
  }

  lemma LaunchMovesConfig(disk: Disk, l: Launch)
    ensures var after := LaunchOn(disk, l).0;
            after.config == disk.config || (disk.config.Absent? && after.config == File(l.text, true))
  {
  }

  /** The configuration is absent, or a whole text safely on the disk; never a torn one. */
  lemma {:induction false} ConfigAbsentOrComplete(disks: seq<Disk>, events: seq<Event>, cluster: set<string>, i: nat)
    requires Run(disks, events, cluster) && i < |disks|
    ensures disks[i].config.File? ==> disks[i].config.durable && Written(events, i, disks[i].config.text)
  {
    if i > 0 {
      ConfigAbsentOrComplete(disks, events, cluster, i - 1);
      var before, after, e := disks[i - 1].config, disks[i].config, events[i - 1];
      if e.Launched? {
        LaunchMovesConfig(disks[i - 1], e.l);
      }
      if after == before {
        if before.File? {
          var k :| 0 <= k < i - 1 && k < |events|
            && ((events[k].Launched? && events[k].l.text == before.text) || events[k] == Edited(before.text));
          assert Written(events, i, before.text);
        }
      } else {
        assert (e.Launched? && e.l.text == after.text) || e == Edited(after.text);
      }
    }
  }

  /** A configuration once there is changed by the user alone. */
  lemma {:induction false} ConfigIsTheUsers(disks: seq<Disk>, events: seq<Event>, cluster: set<string>, i: nat, j: nat)
    requires Run(disks, events, cluster) && i <= j < |disks| && disks[i].config.File?
    requires forall k :: i <= k < j ==> !events[k].Edited?
    ensures disks[j].config == disks[i].config
  {
    if i < j {
      ConfigIsTheUsers(disks, events, cluster, i, j - 1);
      ConfigAbsentOrComplete(disks, events, cluster, j - 1);
      if events[j - 1].Launched? {
        LaunchMovesConfig(disks[j - 1], events[j - 1].l);
      }
    }
  }

  // ------------------------------------------------------------------
  // Recovery
  // ------------------------------------------------------------------

  /** A launch in which nothing fails. */
  predicate Clean(l: Launch) {
    && l.password.open.Done? && l.password.write.Done? && l.password.close.Done?
    && l.stat.Done?
    && l.write.open.Done? && l.write.write.Done? && l.write.sync.Done? && l.write.close.Done? && l.write.rename.Done?
    && l.database.stat.Done? && l.database.clear.Done? && l.database.build.Done? && l.database.rename.Done?
  }

  /**
   What a launch in which nothing fails leaves after any history: a finished
   cluster, a configuration that is whole (the one there was, or its own), and
   its own password whole where there was none. A password file already there is
   kept as it is, whole or not.
   */
  lemma CleanLaunchRecovers(disks: seq<Disk>, events: seq<Event>, cluster: set<string>, i: nat, l: Launch)
    requires Run(disks, events, cluster) && i < |disks|
    requires Clean(l) && l.cluster == cluster
    ensures var (after, ending) := LaunchOn(disks[i], l);
      ending.Done?
      && after.password == (if disks[i].password.File? then disks[i].password else File(l.secret, false))
      && after.config == (if disks[i].config.File? then disks[i].config else File(l.text, true))
      && (after.config.text == l.text || Written(events, i, after.config.text))
      && !NeedsInitdbOn(after) && cluster <= after.data.files
  {
    ClusterStaysSound(disks, events, cluster, i);
    ConfigAbsentOrComplete(disks, events, cluster, i);
  }

  /** No call the system was asked for was cut short. */
  predicate Unstopped(l: Launch) {
    && !l.password.open.Stopped? && !l.password.write.Stopped? && !l.password.close.Stopped? && !l.stat.Stopped?
    && !l.write.open.Stopped? && !l.write.write.Stopped? && !l.write.sync.Stopped? && !l.write.close.Stopped?
    && !l.write.remove.Stopped? && !l.write.rename.Stopped?
    && !l.database.stat.Stopped? && !l.database.clear.Stopped? && !l.database.build.Stopped? && !l.database.rename.Stopped?
  }

  /**
   A launch reports no failure exactly when every call it had to make was done: those
   of the password where there was no file, of the configuration where there was
   none, and of the cluster where none was found. It is stopped only where a call was.
   */
  lemma DoneExactly(disk: Disk, l: Launch)
    ensures LaunchOn(disk, l).1.Done?
       <==> && (disk.password.Absent? ==> l.password.open.Done? && l.password.write.Done? && l.password.close.Done?)
            && l.stat.Done?
            && (disk.config.Absent? ==>
                  l.write.open.Done? && l.write.write.Done? && l.write.sync.Done? && l.write.close.Done? && l.write.rename.Done?)
            && l.database.stat.Done?
            && (NeedsInitdbOn(disk) ==>
                  FilesIn(disk.data) == {} && l.database.clear.Done? && l.database.build.Done? && l.database.rename.Done?)
    ensures Unstopped(l) ==> !LaunchOn(disk, l).1.Stopped?
  {
  }

  /** A launch that reports no failure left what the next steps read: a password file, a whole configuration, a cluster. */
  lemma ReadyMeansReady(disks: seq<Disk>, events: seq<Event>, cluster: set<string>, i: nat)
    requires Run(disks, events, cluster) && i < |events| && events[i].Launched?
    requires LaunchOn(disks[i], events[i].l).1.Done?
    ensures disks[i + 1].password.File? && disks[i + 1].config.File? && disks[i + 1].config.durable
    ensures disks[i + 1].data.Dir? && cluster <= disks[i + 1].data.files
  {
    ClusterStaysSound(disks, events, cluster, i);
    ConfigAbsentOrComplete(disks, events, cluster, i + 1);
  }

  // ------------------------------------------------------------------
  // The password, which has no staging file
  // ------------------------------------------------------------------

  predicate IsPrefix(a: string, b: string) {
    |a| <= |b| && a == b[..|a|]
  }

  lemma LaunchKeepsPassword(disk: Disk, l: Launch)
    requires disk.password.File?
    ensures LaunchOn(disk, l).0.password == disk.password
  {
  }

  /** A password file is never removed, rewritten or made longer; only a power cut can shorten it. */
  lemma {:induction false} PasswordOnlyShrinks(disks: seq<Disk>, events: seq<Event>, cluster: set<string>, i: nat, j: nat)
    requires Run(disks, events, cluster) && i <= j < |disks| && disks[i].password.File?
    ensures disks[j].password.File? && IsPrefix(disks[j].password.text, disks[i].password.text)
    ensures (forall k :: i <= k < j ==> !events[k].PowerCut?) ==> disks[j].password == disks[i].password
    ensures disks[i].password.durable ==> disks[j].password == disks[i].password
  {
    if i < j {
      PasswordOnlyShrinks(disks, events, cluster, i, j - 1);
      if events[j - 1].Launched? {
        LaunchKeepsPassword(disks[j - 1], events[j - 1].l);
      }
    }
  }

  /** The launch at step `i` makes the password file. */
  ghost predicate MakesPassword(disks: seq<Disk>, events: seq<Event>, i: nat) {
    i + 1 < |disks| && i < |events| && events[i].Launched? && disks[i].password.Absent? && disks[i + 1].password.File?
  }

  /** Step `k` is the first power cut after step `i`. */
  ghost predicate FirstCut(events: seq<Event>, i: nat, k: nat) {
    i < k < |events| && events[k].PowerCut? && forall h :: i < h < k ==> !events[h].PowerCut?
  }

  /** What the launch that makes the file leaves of its secret. */
  lemma MadeAs(disk: Disk, l: Launch)
    requires disk.password.Absent? && LaunchOn(disk, l).0.password.File?
    ensures LaunchOn(disk, l).0.password
         == File(if l.password.write.Done? then l.secret else Part(l.secret, l.password.written), false)
  {
  }

  /** What is left of the file at any later step: what was written, less what the first power cut lost. */
  lemma PasswordAt(disks: seq<Disk>, events: seq<Event>, cluster: set<string>, i: nat, j: nat)
    requires Run(disks, events, cluster) && MakesPassword(disks, events, i) && i < j < |disks|
    ensures (forall k: nat :: k < j ==> !FirstCut(events, i, k)) ==> disks[j].password == disks[i + 1].password
    ensures forall k: nat :: k < j && FirstCut(events, i, k) ==>
              disks[j].password == File(Part(disks[i + 1].password.text, events[k].kept), true)
  {
    MadeAs(disks[i], events[i].l);
    if k: nat :| k < j && FirstCut(events, i, k) {
      PasswordOnlyShrinks(disks, events, cluster, i + 1, k);
      PasswordOnlyShrinks(disks, events, cluster, k + 1, j);
    } else {
      NoCut(events, i, j);
      PasswordOnlyShrinks(disks, events, cluster, i + 1, j);
    }
  }

  lemma {:induction false} NoCut(events: seq<Event>, i: nat, j: nat)
    requires i < j <= |events| && forall k: nat :: k < j ==> !FirstCut(events, i, k)
    ensures forall h :: i < h < j ==> !events[h].PowerCut?
  {
    if i + 1 < j {
      NoCut(events, i, j - 1);
      assert !FirstCut(events, i, j - 1);
    }
  }

  /**
   When the password on the disk is the one that was generated: exactly when the
   launch that made the file got every byte of it written, and no power cut since
   lost any. Nothing ever flushes it, and no later launch mends it.
   */
  lemma PasswordWholeExactly(disks: seq<Disk>, events: seq<Event>, cluster: set<string>, i: nat, j: nat)
    requires Run(disks, events, cluster) && MakesPassword(disks, events, i) && i < j < |disks|
    ensures disks[j].password.File?
    ensures var l := events[i].l;
      disks[j].password.text == l.secret
      <==> (l.password.write.Done? || l.password.written >= |l.secret|)
           && forall k: nat :: k < j && FirstCut(events, i, k) ==> events[k].kept >= |l.secret|
  {
    var l := events[i].l;
    MadeAs(disks[i], l);
    PasswordAt(disks, events, cluster, i, j);
    if k: nat :| k < j && FirstCut(events, i, k) {
      forall h: nat | FirstCut(events, i, h) ensures h == k {
      }
    }
  }

  /** A password written whole and then lost to a power cut leaves an empty file for good. */
  lemma PasswordCanBeLost(disk: Disk, l: Launch)
    requires Clean(l)
    requires disk.password.Absent?
    ensures Step(Step(disk, Launched(l)), PowerCut(0)).password == File("", true)
  {
  }

  // ------------------------------------------------------------------
  // Showing it
  // ------------------------------------------------------------------

  /** What is announced is what the file then holds. */
  lemma AnnouncedIsStored(disk: Disk, l: Launch)
    requires AnnouncedOn(disk, l) != ""
    ensures LaunchOn(disk, l).0.password == File(AnnouncedOn(disk, l), false)
  {
  }

  /**
   A password is announced exactly by the launch that makes its file, and only if
   that launch comes up; after it no launch ever announces one. So a first launch
   that stores the password and then fails leaves one nobody is ever shown.
   */
  lemma AnnouncedExactly(disks: seq<Disk>, events: seq<Event>, cluster: set<string>, i: nat)
    requires Run(disks, events, cluster) && i < |events| && events[i].Launched? && events[i].l.secret != ""
    ensures AnnouncedOn(disks[i], events[i].l) != "" <==> MakesPassword(disks, events, i) && LaunchOn(disks[i], events[i].l).1.Done?
    ensures MakesPassword(disks, events, i) ==>
              forall j :: i < j < |events| && events[j].Launched? ==> AnnouncedOn(disks[j], events[j].l) == ""
  {
    if MakesPassword(disks, events, i) {
      forall j | i < j < |events| && events[j].Launched? ensures AnnouncedOn(disks[j], events[j].l) == "" {
        PasswordOnlyShrinks(disks, events, cluster, i + 1, j);
      }
    }
  }
}
