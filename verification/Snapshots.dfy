/** The files behind the SQL store: snapshots, their rotation, quarantine and recovery. */
module Snapshots {
  import opened Common
  import opened SqlStore

  /**
   * A file either passes `PRAGMA integrity_check` and holds rows, or it does not. Failing the check
   * does not mean that it cannot be opened: see `Reopened`.
   */
  datatype File = Healthy(rows: seq<Row>) | Damaged(bytes: string)

  datatype Name =
    | Db | Wal | Shm
    | Snapshot | SnapshotPrev | SnapshotTmp
    | CorruptDb(stamp: string) | CorruptWal(stamp: string) | CorruptShm(stamp: string)

  type Files = map<Name, File>

  predicate HealthyAt(files: Files, name: Name) {
    name in files && files[name].Healthy?
  }

  /** One of the two generations could be restored. */
  predicate Restorable(files: Files) {
    HealthyAt(files, Snapshot) || HealthyAt(files, SnapshotPrev)
  }

  predicate DamagedAt(files: Files, name: Name) {
    name in files && files[name].Damaged?
  }

  predicate SameAt(a: Files, b: Files, name: Name) {
    if name in a then name in b && b[name] == a[name] else name !in b
  }

  // Writing a snapshot

  /**
   * What VACUUM INTO does to its target: a copy that passes its check, rubbish, or a failure. The copy
   * of a healthy database holds its rows; that of a damaged one, what could be salvaged.
   */
  datatype Vacuum = Copied(salvaged: seq<Row>) | Garbled(bytes: string) | Failed(leftover: Option<string>)

  /** Which steps of a snapshot write fail. */
  datatype WriteFaults = WriteFaults(
    clearFails: bool, vacuum: Vacuum, discardFails: bool, rotateFails: bool, installFails: bool)

  /** What a copy of the database that passes its check holds. */
  function CopyOf(files: Files, f: WriteFaults): seq<Row> {
    if HealthyAt(files, Db) then files[Db].rows
    else if f.vacuum.Copied? then f.vacuum.salvaged else []
  }

  /** How far the two generations have been moved on. */
  datatype Point = Untouched | Rotated | Installed

  /** What the files look like at a point of a write that began with `before`. */
  ghost predicate At(before: Files, now: Files, point: Point, f: WriteFaults) {
    && (forall name :: name !in {SnapshotTmp, Snapshot, SnapshotPrev} ==> SameAt(before, now, name))
    && match point
       case Untouched => SameAt(before, now, Snapshot) && SameAt(before, now, SnapshotPrev)
       case Rotated =>
         && Snapshot in before && Snapshot !in now
         && SnapshotPrev in now && now[SnapshotPrev] == before[Snapshot]
       case Installed =>
         && Snapshot in now && now[Snapshot] == Healthy(CopyOf(before, f))
         && if Snapshot in before
            then SnapshotPrev in now && now[SnapshotPrev] == before[Snapshot]
            else SameAt(before, now, SnapshotPrev)
  }

  /** A verified copy of the database exists and is about to displace the generations. */
  predicate CopyVerified(before: Files, f: WriteFaults) {
    !(f.clearFails && SnapshotTmp in before) && f.vacuum.Copied?
  }

  predicate NoFaults(f: WriteFaults) {
    !f.clearFails && f.vacuum.Copied? && !f.rotateFails && !f.installFails
  }

  /** Where a write ends up, by the first step that fails. */
  function EndPoint(before: Files, f: WriteFaults): Point {
    if CopyVerified(before, f) then RotateEnd(before, f) else Untouched
  }

  function RotateEnd(before: Files, f: WriteFaults): Point {
    if Snapshot in before && f.rotateFails then Untouched
    else if !f.installFails then Installed
    else if Snapshot in before then Rotated else Untouched
  }

  predicate RotateVia(before: Files, f: WriteFaults, point: Point) {
    || point == RotateEnd(before, f)
    || (point == Rotated && Snapshot in before && RotateEnd(before, f) == Installed)
  }

  /** The points a write can be stopped at on its way to where it ends. */
  predicate OnTheWay(before: Files, f: WriteFaults, point: Point) {
    point == Untouched || (CopyVerified(before, f) && RotateVia(before, f, point))
  }

  /** What the files may look like at some point of a write that began with `before`. */
  ghost predicate WritePoint(before: Files, f: WriteFaults, now: Files) {
    exists point :: OnTheWay(before, f, point) && At(before, now, point, f)
  }

  /** A write that ran to its end. */
  ghost predicate Written(before: Files, now: Files, f: WriteFaults) {
    At(before, now, EndPoint(before, f), f)
  }

  /** A point reached from where the copy was made is one reached from where the write began. */
  lemma AtComposes(before: Files, between: Files, now: Files, point: Point, f: WriteFaults)
    requires At(before, between, Untouched, f) && At(between, now, point, f)
    ensures At(before, now, point, f)
  {
    forall name | name !in {SnapshotTmp, Snapshot, SnapshotPrev} ensures SameAt(before, now, name) {
      assert SameAt(before, between, name) && SameAt(between, now, name);
    }
    assert SameAt(before, between, Db);
  }

  lemma RotateIsWrite(before: Files, between: Files, f: WriteFaults, now: Files)
    requires At(before, between, Untouched, f) && CopyVerified(before, f)
    requires exists point :: RotateVia(between, f, point) && At(between, now, point, f)
    ensures WritePoint(before, f, now)
  {
    var point :| RotateVia(between, f, point) && At(between, now, point, f);
    AtComposes(before, between, now, point, f);
    assert OnTheWay(before, f, point);
  }

  /**
   * When both generations can be lost: exactly when the current one is present but damaged and a
   * verified copy has pushed it over the healthy previous one without taking its place.
   */
  lemma WhenGenerationsSurvive(before: Files, now: Files, f: WriteFaults, point: Point)
    requires Restorable(before) && OnTheWay(before, f, point) && At(before, now, point, f)
    ensures Restorable(now) <==> !(point == Rotated && !HealthyAt(before, Snapshot))
    ensures HealthyAt(before, Snapshot) ==> Restorable(now)
    ensures forall name :: name in {Snapshot, SnapshotPrev} && name in now && now[name].Damaged? ==>
              exists was :: was in {Snapshot, SnapshotPrev} && was in before && before[was] == now[name]
  {
  }

  /** A write that begins with a healthy current snapshot never leaves the directory without one. */
  lemma WritePointRestorable(before: Files, f: WriteFaults, now: Files)
    requires HealthyAt(before, Snapshot) && WritePoint(before, f, now)
    ensures Restorable(now)
  {
    var point :| OnTheWay(before, f, point) && At(before, now, point, f);
    WhenGenerationsSurvive(before, now, f, point);
  }

  /** Every fault plan and stopping point is safe exactly when no damaged current snapshot is present. */
  lemma SafeToWriteIff(before: Files)
    requires Restorable(before)
    ensures (Snapshot in before ==> HealthyAt(before, Snapshot))
       <==> (forall now, f, point :: OnTheWay(before, f, point) && At(before, now, point, f) ==> Restorable(now))
  {
    if Snapshot in before && !HealthyAt(before, Snapshot) {
      var f := WriteFaults(false, Copied([]), false, false, true);
      var now := (before - {Snapshot, SnapshotTmp})[SnapshotPrev := before[Snapshot]];
      assert OnTheWay(before, f, Rotated) && At(before, now, Rotated, f) && !Restorable(now);
    } else {
      forall now, f, point | OnTheWay(before, f, point) && At(before, now, point, f)
        ensures Restorable(now)
      {
        WhenGenerationsSurvive(before, now, f, point);
      }
    }
  }

  // Recovering

  /**
   * Which moves and copies of a recovery fail, by the file they start from, and what a copy under way
   * looks like: a file without a byte is an empty database to SQLite, one cut short is damaged.
   */
  datatype RecoverFaults = RecoverFaults(moveFails: set<Name>, copyFails: set<Name>, partial: Option<string>)

  function UnderWay(f: RecoverFaults): File {
    match f.partial case None => Healthy([]) case Some(bytes) => Damaged(bytes)
  }

  /** Where a damaged file is set aside. */
  function Quarantine(name: Name, stamp: string): Name {
    match name
    case Db => CorruptDb(stamp)
    case Wal => CorruptWal(stamp)
    case _ => CorruptShm(stamp)
  }

  /** The database and the two companions that must follow it can all be moved. */
  predicate MovesSucceed(files: Files, f: RecoverFaults) {
    forall name :: name in {Db, Wal, Shm} && name in files ==> name !in f.moveFails
  }

  /** A generation that can be put in the place of the database. */
  predicate Usable(files: Files, name: Name, f: RecoverFaults) {
    name in files && files[name].Healthy? && name !in f.copyFails
  }

  /** The current snapshot comes before the previous one, and that one before none. */
  ghost predicate NewestFirst(before: Files, now: Files, f: RecoverFaults) {
    && (Usable(before, Snapshot, f) ==> Db in now && now[Db] == before[Snapshot])
    && (!Usable(before, Snapshot, f) && Usable(before, SnapshotPrev, f) ==>
          Db in now && now[Db] == before[SnapshotPrev])
    && (!Usable(before, Snapshot, f) && !Usable(before, SnapshotPrev, f) ==> Db !in now)
  }

  /** What that leaves once a database has been connected to: with no generation, an empty one. */
  predicate Restored(before: Files, db: File, f: RecoverFaults) {
    && (Usable(before, Snapshot, f) ==> db == before[Snapshot])
    && (!Usable(before, Snapshot, f) && Usable(before, SnapshotPrev, f) ==> db == before[SnapshotPrev])
    && (!Usable(before, Snapshot, f) && !Usable(before, SnapshotPrev, f) ==> db == Healthy([]))
  }

  /** The newest generation that is healthy and can be copied. */
  function Newest(files: Files, f: RecoverFaults): Option<Name> {
    if HealthyAt(files, Snapshot) && Snapshot !in f.copyFails then Some(Snapshot)
    else if HealthyAt(files, SnapshotPrev) && SnapshotPrev !in f.copyFails then Some(SnapshotPrev)
    else None
  }

  /** What the history is after a recovery whose moves succeed. */
  function RecoveredRows(files: Files, f: RecoverFaults): seq<Row> {
    match Newest(files, f)
    case Some(name) => files[name].rows
    case None => []
  }

  /** The first thing a recovery does. */
  function MovedAside(files: Files, stamp: string): Files
    requires Db in files
  {
    (files - {Db})[CorruptDb(stamp) := files[Db]]
  }

  predicate SameGenerations(before: Files, now: Files) {
    SameAt(before, now, Snapshot) && SameAt(before, now, SnapshotPrev)
  }

  /** What stands where the database was: the damaged file, nothing, or the chosen generation, whole or under way. */
  predicate AtDb(before: Files, now: Files, stamp: string, f: RecoverFaults)
    requires Db in before
  {
    || SameAt(before, now, Db)
    || (CorruptDb(stamp) in now && now[CorruptDb(stamp)] == before[Db]
        && (Db in now ==>
              && Wal !in now && Shm !in now && Newest(before, f).Some?
              && now[Db] in {UnderWay(f), Healthy(RecoveredRows(before, f))}))
  }

  /** True of every state a recovery passes through: nothing is lost, nothing restored too early. */
  ghost predicate RecoveryPoint(before: Files, now: Files, stamp: string, f: RecoverFaults)
    requires Db in before
  {
    && SameGenerations(before, now) && AtDb(before, now, stamp, f)
    && (Wal in now ==> Wal in before) && (Shm in now ==> Shm in before)
    && (forall other :: other != stamp ==>
          SameAt(before, now, CorruptDb(other)) && SameAt(before, now, CorruptWal(other))
          && SameAt(before, now, CorruptShm(other)))
  }

  /** The rows the next open finds or makes, if it can move what it has to. */
  function OpenedRows(files: Files, f: RecoverFaults, replayed: seq<Row>): seq<Row> {
    if HealthyAt(files, Db) then files[Db].rows
    else if Db in files then RecoveredRows(files, f)
    else if Wal in files then replayed else []
  }

  /** Nothing is damaged at the database's place, or what is can be set aside whole. */
  predicate CanOpen(files: Files, f: RecoverFaults) {
    DamagedAt(files, Db) ==> MovesSucceed(files, f)
  }

  /**
   * A recovery interrupted at `now` costs nothing exactly when it left a database that is not empty, or
   * what the next open makes of what it left is what there was to recover.
   */
  lemma InterruptedRecoveryIff(before: Files, now: Files, stamp: string, f: RecoverFaults, replayed: seq<Row>)
    requires DamagedAt(before, Db) && MovesSucceed(before, f) && RecoveryPoint(before, now, stamp, f)
    ensures CanOpen(now, f)
    ensures OpenedRows(now, f, replayed) == RecoveredRows(before, f) <==>
            || (Db in now && now[Db] != Healthy([]))
            || RecoveredRows(before, f) == (if Db !in now && Wal in now then replayed else [])
  {
    assert Newest(now, f) == Newest(before, f);
  }

  /** A recovery whose moves succeed is crash-atomic if and only if it has no row to recover and no log to leave behind. */
  lemma RecoveryAtomicIff(before: Files, stamp: string, f: RecoverFaults)
    requires DamagedAt(before, Db) && MovesSucceed(before, f)
    ensures (forall now, replayed :: RecoveryPoint(before, now, stamp, f) ==>
               OpenedRows(now, f, replayed) == RecoveredRows(before, f))
       <==> RecoveredRows(before, f) == [] && Wal !in before
  {
    var first := MovedAside(before, stamp);
    assert RecoveryPoint(before, first, stamp, f);
    var row := Row(0, "", StoredMessage(User, ""));
    InterruptedRecoveryIff(before, first, stamp, f, []);
    InterruptedRecoveryIff(before, first, stamp, f, [row]);
    if RecoveredRows(before, f) == [] && Wal !in before {
      forall now, replayed | RecoveryPoint(before, now, stamp, f)
        ensures OpenedRows(now, f, replayed) == RecoveredRows(before, f)
      {
        InterruptedRecoveryIff(before, now, stamp, f, replayed);
      }
    }
  }

  /** What connecting to a file that fails its check comes to, and what the attempt leaves of it. */
  datatype Reopened = Refuses(bytes: string) | Opens(bytes: string)

  /** A damaged database that cannot be moved out of the way. */
  predicate Stuck(files: Files, f: RecoverFaults) {
    DamagedAt(files, Db) && Db in f.moveFails
  }

  /** The database file once a connection to it has been attempted. */
  function Connected(files: Files, replayed: seq<Row>, reopened: Reopened): File {
    if HealthyAt(files, Db) then files[Db]
    else if Db in files then Damaged(reopened.bytes)
    else Healthy(if Wal in files then replayed else [])
  }

  /** The healthy generations hold contents that were captured. */
  ghost predicate Held(files: Files, captured: set<seq<Row>>) {
    && (HealthyAt(files, Snapshot) ==> files[Snapshot].rows in captured)
    && (HealthyAt(files, SnapshotPrev) ==> files[SnapshotPrev].rows in captured)
  }

  /** A write leaves captured contents wherever it is stopped, the copy it installs among them. */
  lemma WriteHeld(before: Files, f: WriteFaults, now: Files, captured: set<seq<Row>>)
    requires Held(before, captured) && WritePoint(before, f, now)
    ensures Held(now, if EndPoint(before, f) == Installed then captured + {CopyOf(before, f)} else captured)
  {
  }

  datatype OpenResult = Ready | NoDirectory | NotADatabase | CleanupFailed

  class DatabaseFiles {
    var files: Files
    var connected: bool
    /** Every state of the directory so far: what a crash could leave behind. */
    ghost var trace: seq<Files>
    /** Where in it the last operation began. */
    ghost var began: nat
    /** What every verified copy held that became the current snapshot, or was to when a crash came first. */
    ghost var captured: set<seq<Row>>

    /** A healthy generation holds what some verified copy held when it was installed. */
    ghost predicate Valid()
      reads this
    {
      (connected ==> Db in files) && Held(files, captured)
    }

    /** ... and so it does wherever the last operation could have been stopped. */
    ghost predicate Stoppable()
      reads this`trace, this`began, this`captured
    {
      forall i :: began <= i < |trace| ==> Held(trace[i], captured)
    }

    constructor ()
      ensures Valid() && Stoppable() && files == map[] && !connected && captured == {} && trace == []
    {
      files, connected, trace, began, captured := map[], false, [], 0, {};
    }

    // What the file system offers

    method Put(name: Name, file: File)
      modifies this`files, this`trace
      ensures files == old(files)[name := file] && trace == old(trace) + [files]
    {
      files := files[name := file];
      trace := trace + [files];
    }

    method Unlink(name: Name, fails: bool) returns (ok: bool)
      modifies this`files, this`trace
      ensures ok <==> !(fails && name in old(files))
      ensures files == if ok then old(files) - {name} else old(files)
      ensures trace == old(trace) + [files]
    {
      ok := !(fails && name in files);
      if ok {
        files := files - {name};
      }
      trace := trace + [files];
    }

    /** A rename replaces its target, as `Path.rename` and `Path.replace` do on POSIX. */
    method Rename(source: Name, target: Name, fails: bool) returns (ok: bool)
      requires source in files && source != target
      modifies this`files, this`trace
      ensures ok <==> !fails
      ensures files == if ok then (old(files) - {source})[target := old(files)[source]] else old(files)
      ensures trace == old(trace) + [files]
    {
      ok := !fails;
      if ok {
        files := (files - {source})[target := files[source]];
      }
      trace := trace + [files];
    }

    method VacuumInto(target: Name, outcome: Vacuum) returns (ok: bool)
      requires Db in files && target !in files
      modifies this`files, this`trace
      ensures ok <==> !outcome.Failed?
      ensures outcome.Copied? ==>
                files == old(files)[target := if old(files)[Db].Healthy? then old(files)[Db] else Healthy(outcome.salvaged)]
      ensures outcome.Garbled? ==> files == old(files)[target := Damaged(outcome.bytes)]
      ensures outcome.Failed? ==> files == match outcome.leftover
                                           case None => old(files)
                                           case Some(bytes) => old(files)[target := Damaged(bytes)]
      ensures trace == old(trace) + [files]
    {
      match outcome {
        case Copied(salvaged) => files := files[target := if files[Db].Healthy? then files[Db] else Healthy(salvaged)];
        case Garbled(bytes) => files := files[target := Damaged(bytes)];
        case Failed(leftover) =>
          if leftover.Some? {
            files := files[target := Damaged(leftover.value)];
          }
      }
      trace := trace + [files];
      ok := !outcome.Failed?;
    }

    // What the store does with it

    /** Vacuum the live database into the temporary file, and check the copy. */
    method MakeCopy(f: WriteFaults) returns (ok: bool, raised: bool)
      requires Db in files
      modifies this`files, this`trace
      ensures ok <==> CopyVerified(old(files), f)
      ensures At(old(files), files, Untouched, f)
      ensures ok ==> !raised && SnapshotTmp in files && files[SnapshotTmp] == Healthy(CopyOf(old(files), f))
      ensures raised ==> f.discardFails
      ensures !ok && !raised ==> SnapshotTmp !in files
      ensures |old(trace)| <= |trace| && trace[..|old(trace)|] == old(trace)
      ensures forall i :: |old(trace)| <= i < |trace| ==> At(old(files), trace[i], Untouched, f)
    {
      raised := false;
      ok := Unlink(SnapshotTmp, f.clearFails);
      if ok {
        ok := VacuumInto(SnapshotTmp, f.vacuum);
      }
      if !ok || !HealthyAt(files, SnapshotTmp) {
        var removed := Unlink(SnapshotTmp, f.discardFails);
        ok, raised := false, !removed;
      }
    }

    /** Let a checked copy displace the generations. */
    method Rotate(f: WriteFaults) returns (ok: bool, raised: bool)
      requires SnapshotTmp in files && files[SnapshotTmp] == Healthy(CopyOf(files, f))
      modifies this`files, this`trace
      ensures ok <==> !f.installFails && !(Snapshot in old(files) && f.rotateFails)
      ensures At(old(files), files, RotateEnd(old(files), f), f)
      ensures raised ==> !ok && f.discardFails
      ensures !raised ==> SnapshotTmp !in files
      ensures |old(trace)| <= |trace| && trace[..|old(trace)|] == old(trace)
      ensures forall i :: |old(trace)| <= i < |trace| ==>
                exists point :: RotateVia(old(files), f, point) && At(old(files), trace[i], point, f)
    {
      ghost var before := files;
      ok, raised := true, false;
      if Snapshot in files {
        ok := Rename(Snapshot, SnapshotPrev, f.rotateFails);
        ghost var point := if ok then Rotated else Untouched;
        assert RotateVia(before, f, point) && At(before, files, point, f);
      }
      if ok {
        ok := Rename(SnapshotTmp, Snapshot, f.installFails);
        assert RotateVia(before, f, RotateEnd(before, f)) && At(before, files, RotateEnd(before, f), f);
      }
      if !ok {
        var removed := Unlink(SnapshotTmp, f.discardFails);
        raised := !removed;
        assert RotateVia(before, f, RotateEnd(before, f)) && At(before, files, RotateEnd(before, f), f);
      }
    }

    /** Record a verified snapshot; `raised` when even the clean-up of the temporary file fails. */
    method WriteSnapshot(f: WriteFaults) returns (raised: bool)
      requires Valid() && Db in files
      modifies this`files, this`trace, this`captured
      ensures Valid()
      ensures Written(old(files), files, f)
      ensures |old(trace)| <= |trace| && trace[..|old(trace)|] == old(trace)
      ensures forall i :: |old(trace)| <= i < |trace| ==> WritePoint(old(files), f, trace[i])
      ensures HealthyAt(old(files), Snapshot) ==>
                forall i :: |old(trace)| <= i < |trace| ==> Restorable(trace[i])
      ensures captured == if EndPoint(old(files), f) == Installed
                          then old(captured) + {CopyOf(old(files), f)} else old(captured)
      ensures raised ==> f.discardFails && EndPoint(old(files), f) != Installed
      ensures !raised ==> SnapshotTmp !in files
    {
      ghost var before, start := files, trace;
      var ok;
      ok, raised := MakeCopy(f);
      ghost var between, copied := files, trace;
      assert forall now :: At(before, now, Untouched, f) ==> OnTheWay(before, f, Untouched) && WritePoint(before, f, now);
      assert SameAt(before, between, Db);
      if ok {
        ok, raised := Rotate(f);
        AtComposes(before, between, files, RotateEnd(before, f), f);
        forall i | |copied| <= i < |trace| ensures WritePoint(before, f, trace[i]) {
          RotateIsWrite(before, between, f, trace[i]);
        }
        assert SameAt(before, files, Db);
        if ok { captured := captured + {CopyOf(before, f)}; }
      }
      if HealthyAt(before, Snapshot) {
        forall i | |start| <= i < |trace| ensures Restorable(trace[i]) {
          WritePointRestorable(before, f, trace[i]);
        }
      }
    }

    /** A companion follows the damaged database, so that what is restored starts without one. */
    method MoveSidecar(name: Name, stamp: string, fails: bool, ghost before: Files, ghost f: RecoverFaults) returns (ok: bool)
      requires name == Wal || name == Shm
      requires Db in before && RecoveryPoint(before, files, stamp, f) && Db !in files && SameAt(before, files, name)
      modifies this`files, this`trace
      ensures ok <==> !(fails && name in before)
      ensures files == if ok && name in before
                       then (old(files) - {name})[Quarantine(name, stamp) := before[name]] else old(files)
      ensures RecoveryPoint(before, files, stamp, f) && Db !in files
      ensures trace == old(trace) || trace == old(trace) + [files]
    {
      ok := true;
      if name in files {
        ok := Rename(name, Quarantine(name, stamp), fails);
      }
    }

    /** Move the damaged database aside, and its companions after it. */
    method SetAside(stamp: string, f: RecoverFaults) returns (ok: bool)
      requires Db in files && files[Db].Damaged?
      modifies this`files, this`trace
      ensures ok <==> MovesSucceed(old(files), f)
      ensures RecoveryPoint(old(files), files, stamp, f) && (Db in files <==> Db in f.moveFails)
      ensures ok ==> SetAsideAs(old(files), files, stamp)
      ensures |old(trace)| <= |trace| && trace[..|old(trace)|] == old(trace)
      ensures forall i :: |old(trace)| <= i < |trace| ==> RecoveryPoint(old(files), trace[i], stamp, f)
      ensures Db in f.moveFails ==> files == old(files)
      ensures Db !in f.moveFails ==>
                |trace| > |old(trace)| && trace[|old(trace)|] == MovedAside(old(files), stamp)
    {
      ghost var before := files;
      ok := Rename(Db, CorruptDb(stamp), Db in f.moveFails);
      assert RecoveryPoint(before, files, stamp, f);
      if ok {
        ok := MoveSidecar(Wal, stamp, Wal in f.moveFails, before, f);
        if ok {
          ok := MoveSidecar(Shm, stamp, Shm in f.moveFails, before, f);
        }
      }
    }

    /** Copy the newest usable generation to where the database was. */
    method RestoreNewest(f: RecoverFaults) returns (restored: Option<Name>)
      requires Db !in files
      modifies this`files, this`trace
      ensures restored == Newest(old(files), f) && NewestFirst(old(files), files, f)
      ensures files == if restored.Some? then old(files)[Db := old(files)[restored.value]] else old(files)
      // first the copy under way, then the copy
      ensures trace == if restored.Some? then old(trace) + [old(files)[Db := UnderWay(f)], files] else old(trace)
    {
      var candidates := [Snapshot, SnapshotPrev];
      for i := 0 to |candidates|
        invariant files == old(files) && trace == old(trace)
        invariant i > 0 ==> !(HealthyAt(files, Snapshot) && Snapshot !in f.copyFails)
        invariant i > 1 ==> !(HealthyAt(files, SnapshotPrev) && SnapshotPrev !in f.copyFails)
      {
        var candidate := candidates[i];
        if candidate !in files { continue; }
        if !HealthyAt(files, candidate) { continue; }
        if candidate in f.copyFails { continue; }
        Put(Db, UnderWay(f));
        Put(Db, files[candidate]);
        return Some(candidate);
      }
      return None;
    }

    /** Set a damaged database aside and put the newest healthy snapshot in its place. */
    method Recover(stamp: string, f: RecoverFaults) returns (restored: Option<Name>)
      requires Valid() && Db in files && files[Db].Damaged? && !connected
      modifies this`files, this`trace
      ensures Valid()
      ensures RecoveryPoint(old(files), files, stamp, f)
      ensures |old(trace)| <= |trace| && trace[..|old(trace)|] == old(trace)
      ensures forall i :: |old(trace)| <= i < |trace| ==> RecoveryPoint(old(files), trace[i], stamp, f)
      ensures MovesSucceed(old(files), f) ==>
                && restored == Newest(old(files), f) && NewestFirst(old(files), files, f)
                && Replaced(old(files), files, stamp, restored)
      ensures !MovesSucceed(old(files), f) ==> restored.None? && (Db in files <==> Db in f.moveFails)
      ensures Db in f.moveFails ==> files == old(files)
      ensures Db !in f.moveFails ==>
                |trace| > |old(trace)| && trace[|old(trace)|] == MovedAside(old(files), stamp)
    {
      ghost var before := files;
      var ok := SetAside(stamp, f);
      if !ok { return None; }
      ghost var between := files;
      assert Newest(between, f) == Newest(before, f);
      restored := RestoreNewest(f);
      assert RecoveryPoint(before, files, stamp, f);
    }

    /**
     * Connecting creates a missing file, where `replayed` is what a stray write-ahead log adds, and
     * takes a healthy one as it is. A damaged one may open or not, and may be written to either way.
     * The connection object exists from then on, usable or not.
     */
    method Connect(replayed: seq<Row>, reopened: Reopened) returns (ok: bool)
      requires Valid()
      modifies this`files, this`trace, this`connected
      ensures Valid() && connected
      ensures ok <==> DamagedAt(old(files), Db) ==> reopened.Opens?
      ensures files == old(files)[Db := Connected(old(files), replayed, reopened)]
      ensures trace == old(trace) + [files]
    {
      ok := DamagedAt(files, Db) ==> reopened.Opens?;
      connected := true;
      Put(Db, Connected(files, replayed, reopened));
    }

    /** Check what is there, set it right if need be, and connect to it. */
    method Attach(stamp: string, f: RecoverFaults, replayed: seq<Row>, reopened: Reopened) returns (ok: bool)
      requires Valid() && !connected
      modifies this`files, this`trace, this`connected
      ensures Valid() && connected
      ensures HealthyAt(files, Db) <==> !Stuck(old(files), f)
      ensures ok <==> Stuck(old(files), f) ==> reopened.Opens?
      ensures Stuck(old(files), f) ==> files == old(files)[Db := Damaged(reopened.bytes)]
      ensures CanOpen(old(files), f) ==> files[Db] == Healthy(OpenedRows(old(files), f, replayed))
      ensures !DamagedAt(old(files), Db) ==> files == old(files)[Db := files[Db]]
      ensures DamagedAt(old(files), Db) && MovesSucceed(old(files), f) ==>
                && CorruptDb(stamp) in files && files[CorruptDb(stamp)] == old(files)[Db]
                && Restored(old(files), files[Db], f)
      ensures HealthyAt(old(files), Db) ==> files[Db] == old(files)[Db]
      ensures Db !in old(files) && Wal !in old(files) ==> files[Db] == Healthy([])
      ensures |old(trace)| <= |trace| && trace[..|old(trace)|] == old(trace)
      ensures forall i :: |old(trace)| <= i < |trace| ==> SameGenerations(old(files), trace[i])
      ensures DamagedAt(old(files), Db) && Db !in f.moveFails ==>
                |trace| > |old(trace)| && trace[|old(trace)|] == MovedAside(old(files), stamp)
    {
      if Db in files && !HealthyAt(files, Db) {
        var _ := Recover(stamp, f);
      }
      ok := Connect(replayed, reopened);
    }

    /** Attach, and take a first snapshot. */
    method Open(noDirectory: bool, stamp: string, f: RecoverFaults, replayed: seq<Row>, reopened: Reopened,
                w: WriteFaults)
      returns (result: OpenResult)
      requires Valid() && !connected
      modifies this
      ensures Valid() && Stoppable()
      ensures result.NoDirectory? <==> noDirectory
      ensures noDirectory ==> files == old(files) && captured == old(captured) && !connected
      // the connection is to a healthy database unless a damaged one could not be moved
      ensures !noDirectory ==> connected && (HealthyAt(files, Db) <==> !Stuck(old(files), f))
      // that one is opened all the same if it can be, and may become the current snapshot
      ensures result.NotADatabase? <==> !noDirectory && Stuck(old(files), f) && reopened.Refuses?
      ensures result.NotADatabase? ==>
                files == old(files)[Db := Damaged(reopened.bytes)] && captured == old(captured)
      ensures !noDirectory && Stuck(old(files), f) && reopened.Opens? ==>
                Written(old(files)[Db := Damaged(reopened.bytes)], files, w)
      // a healthy database is opened as it is, a missing one created, whatever snapshots there are
      ensures !noDirectory && CanOpen(old(files), f) ==> files[Db] == Healthy(OpenedRows(old(files), f, replayed))
      ensures !noDirectory && !DamagedAt(old(files), Db) ==>
                Written(old(files)[Db := Healthy(OpenedRows(old(files), f, replayed))], files, w)
      ensures !noDirectory && HealthyAt(old(files), Db) ==> files[Db] == old(files)[Db]
      ensures !noDirectory && Db !in old(files) && Wal !in old(files) ==> files[Db] == Healthy([])
      // a damaged one that can be moved is kept, and replaced by the newest healthy generation or by nothing
      ensures !noDirectory && DamagedAt(old(files), Db) && MovesSucceed(old(files), f) ==>
                && Restored(old(files), files[Db], f)
                && files[Db].rows in old(captured) + {[]}
                && CorruptDb(stamp) in files && files[CorruptDb(stamp)] == old(files)[Db]
      // a crash may leave it moved and not yet replaced
      ensures !noDirectory && DamagedAt(old(files), Db) && Db !in f.moveFails ==>
                LeftBy(MovedAside(old(files), stamp))
      ensures result.CleanupFailed? ==> w.discardFails
      ensures result.Ready? ==> SnapshotTmp !in files
      // with no fault in the write, the resulting state is on record as the current snapshot
      ensures (result.Ready? || result.CleanupFailed?) && NoFaults(w) ==>
                && Snapshot in files && files[Snapshot] == Healthy(CopyOf(files, w)) && CopyOf(files, w) in captured
                && (HealthyAt(files, Db) ==> files[Snapshot] == files[Db])
      ensures captured <= old(captured) + {CopyOf(files, w)}
    {
      began := |trace|;
      if noDirectory { return NoDirectory; }
      var ok := Attach(stamp, f, replayed, reopened);
      if !ok { return NotADatabase; }
      ghost var settled, point, held := files, |trace|, captured;
      var raised := WriteSnapshot(w);
      assert SameAt(settled, files, Db) && SameAt(settled, files, CorruptDb(stamp));
      forall i | point <= i < |trace| ensures Held(trace[i], captured) {
        WriteHeld(settled, w, trace[i], held);
      }
      return if raised then CleanupFailed else Ready;
    }

    /** The live database changes only while it is open, and writing to a damaged one does not repair it. */
    method Write(rows: seq<Row>, bytes: string)
      requires Valid() && connected
      modifies this`files, this`trace, this`began
      ensures Valid() && Stoppable()
      ensures files == old(files)[Db := if old(files)[Db].Healthy? then Healthy(rows) else Damaged(bytes)]
    {
      began := |trace|;
      Put(Db, if files[Db].Healthy? then Healthy(rows) else Damaged(bytes));
    }

    /** A clean close takes a last snapshot; if that raises, the connection stays. */
    method Close(w: WriteFaults) returns (raised: bool)
      requires Valid()
      modifies this
      ensures Valid() && Stoppable()
      ensures !old(connected) ==> !raised && files == old(files) && captured == old(captured)
      ensures old(connected) ==>
                && Written(old(files), files, w)
                && captured <= old(captured) + {CopyOf(old(files), w)}
      // with no fault in the write, a healthy database is the current snapshot now, and that one the previous
      ensures old(connected) && NoFaults(w) ==> !raised
      ensures old(connected) && NoFaults(w) && HealthyAt(old(files), Db) ==>
                && HealthyAt(files, Db) && files[Db] == old(files)[Db]
                && Snapshot in files && files[Snapshot] == old(files)[Db]
                && (Snapshot in old(files) ==>
                      SnapshotPrev in files && files[SnapshotPrev] == old(files)[Snapshot])
      ensures connected <==> old(connected) && raised
      ensures raised ==> w.discardFails
      ensures old(connected) && !raised ==> SnapshotTmp !in files
    {
      began := |trace|;
      raised := false;
      if connected {
        ghost var before, held := files, captured;
        raised := WriteSnapshot(w);
        assert SameAt(before, files, Db);
        connected := raised;
        forall i | began <= i < |trace| ensures Held(trace[i], captured) {
          WriteHeld(before, w, trace[i], held);
        }
      }
    }

    /** What the process may leave if it dies now, or died at any point of the last operation. */
    ghost predicate LeftBy(left: Files)
      reads this`files, this`trace, this`began
    {
      left == files || exists i :: began <= i < |trace| && trace[i] == left
    }

    /** The process dies, and what the last operation had done by then stays. */
    method Crash(left: Files)
      requires Valid() && Stoppable() && LeftBy(left)
      modifies this`files, this`connected, this`began
      ensures Valid() && Stoppable() && !connected && files == left
    {
      files, connected, began := left, false, |trace|;
    }

    /** Any file may rot, at any time, into anything that is not a healthy database. */
    method Rot(name: Name, bytes: string)
      requires Valid()
      modifies this`files, this`trace, this`began
      ensures Valid() && Stoppable()
      ensures files == if name in old(files) then old(files)[name := Damaged(bytes)] else old(files)
    {
      began := |trace|;
      if name in files {
        Put(name, Damaged(bytes));
      }
    }

    /** A file may disappear while nothing is connected. */
    method Vanish(name: Name)
      requires Valid() && !connected
      modifies this`files, this`trace, this`began
      ensures Valid() && Stoppable() && files == old(files) - {name}
    {
      began := |trace|;
      var _ := Unlink(name, false);
    }
  }

  /** The directory holds a database and these generations, and nothing else but damaged files. */
  predicate Only(files: Files, db: File, snapshot: Option<File>, prev: Option<File>) {
    && SnapshotTmp !in files
    && (forall name :: name in files && name !in {Db, Snapshot, SnapshotPrev} ==> files[name].Damaged?)
    && Db in files && files[Db] == db
    && snapshot == (if Snapshot in files then Some(files[Snapshot]) else None)
    && prev == (if SnapshotPrev in files then Some(files[SnapshotPrev]) else None)
  }

  /** What a write that ran to its end makes of such a directory, unless its rename onto the previous fails. */
  lemma OnlyWritten(before: Files, now: Files, f: WriteFaults, db: File, snapshot: Option<File>, prev: Option<File>)
    requires Only(before, db, snapshot, prev) && Written(before, now, f) && SnapshotTmp !in now
    requires f.vacuum.Copied? && !f.rotateFails
    ensures Only(now, db, if f.installFails then None else Some(Healthy(CopyOf(before, f))),
                 if snapshot.Some? then snapshot else prev)
  {
    forall name | name in now && name !in {Db, Snapshot, SnapshotPrev} ensures now[name].Damaged? {
      assert name != SnapshotTmp ==> SameAt(before, now, name);
    }
    assert SameAt(before, now, Db);
  }

  /** Opened, written to and closed without a fault, and then the given file rots. */
  method OpenedAndRotten(row: Row, rotten: Name) returns (d: DatabaseFiles)
    requires rotten == Db || rotten == Snapshot
    ensures fresh(d) && d.Valid() && !d.connected
    ensures rotten == Db ==> Only(d.files, Damaged(""), Some(Healthy([row])), Some(Healthy([])))
    ensures rotten == Snapshot ==> Only(d.files, Healthy([row]), Some(Damaged("")), Some(Healthy([])))
  {
    var fault := WriteFaults(false, Copied([]), false, false, false);
    d := new DatabaseFiles();
    var _ := d.Open(false, "", RecoverFaults({}, {}, None), [], Refuses(""), fault);
    OnlyWritten(map[Db := Healthy([])], d.files, fault, Healthy([]), None, None);
    d.Write([row], "");
    ghost var held := d.files;
    var _ := d.Close(fault);
    OnlyWritten(held, d.files, fault, Healthy([row]), Some(Healthy([])), None);
    d.Rot(rotten, "");
  }

  /**
   * A clean stop is worth this: whatever then becomes of the database, the next start has what it
   * held, as long as the file can be moved and the snapshot copied.
   */
  method SurvivesDamage(d: DatabaseFiles, bytes: string, stamp: string, f: RecoverFaults,
                        stop: WriteFaults, start: WriteFaults)
    requires d.Valid() && d.connected && HealthyAt(d.files, Db)
    requires NoFaults(stop) && f.moveFails == {} && Snapshot !in f.copyFails
    modifies d
    ensures d.Valid() && d.connected && HealthyAt(d.files, Db) && d.files[Db] == old(d.files[Db])
  {
    var _ := d.Close(stop);
    d.Rot(Db, bytes);
    var _ := d.Open(false, stamp, f, [], Refuses(bytes), start);
  }

  /** ... and if the snapshot is lost too, the next start has what the one before it held. */
  method FallsBack(d: DatabaseFiles, bytes: string, stamp: string, f: RecoverFaults,
                   stop: WriteFaults, start: WriteFaults)
    requires d.Valid() && d.connected && HealthyAt(d.files, Db) && HealthyAt(d.files, Snapshot)
    requires NoFaults(stop) && f.moveFails == {} && SnapshotPrev !in f.copyFails
    modifies d
    ensures d.Valid() && d.connected && HealthyAt(d.files, Db) && d.files[Db] == old(d.files[Snapshot])
  {
    var _ := d.Close(stop);
    d.Rot(Db, bytes);
    d.Rot(Snapshot, bytes);
    var _ := d.Open(false, stamp, f, [], Refuses(bytes), start);
  }

  /**
   * A run that loses every healthy copy of a row although each snapshot written passes its check: the
   * damaged database cannot be moved, opens all the same, and is copied over both generations.
   */
  method SalvagedOverGood(row: Row) returns (d: DatabaseFiles)
    ensures d.Valid() && Only(d.files, Damaged(""), Some(Healthy([])), Some(Healthy([])))
  {
    var poor := WriteFaults(false, Copied([]), false, false, false);
    d := OpenedAndRotten(row, Db);
    ghost var rotten := d.files;
    var _ := d.Open(false, "", RecoverFaults({Db}, {}, None), [], Opens(""), poor);
    OnlyWritten(rotten[Db := Damaged("")], d.files, poor, Damaged(""), Some(Healthy([row])), Some(Healthy([])));
    rotten := d.files;
    var _ := d.Close(poor);
    OnlyWritten(rotten, d.files, poor, Damaged(""), Some(Healthy([])), Some(Healthy([row])));
  }

  /**
   * A run that loses every healthy copy of a row to a crash: it comes when the damaged database has
   * been moved and nothing has been put in its place. The next start finds no database and creates an
   * empty one, which that start and the next clean stop copy over both generations.
   */
  method RecoveryInterrupted(row: Row) returns (d: DatabaseFiles)
    ensures d.Valid() && !d.connected
    ensures Only(d.files, Healthy([]), Some(Healthy([])), Some(Healthy([])))
  {
    var none, fault := RecoverFaults({}, {}, None), WriteFaults(false, Copied([]), false, false, false);
    d := OpenedAndRotten(row, Db);
    var left := MovedAside(d.files, "");
    var _ := d.Open(false, "", none, [], Refuses(""), fault);
    d.Crash(left);
    ghost var found := left[Db := Healthy([])];
    var _ := d.Open(false, "", none, [], Refuses(""), fault);
    assert Only(found, Healthy([]), Some(Healthy([row])), Some(Healthy([])));
    OnlyWritten(found, d.files, fault, Healthy([]), Some(Healthy([row])), Some(Healthy([])));
    found := d.files;
    var _ := d.Close(fault);
    OnlyWritten(found, d.files, fault, Healthy([]), Some(Healthy([])), Some(Healthy([row])));
  }

  /** A run that loses both generations: the damaged one is rotated over the healthy one, and the install fails. */
  method DamagedOverGood(row: Row) returns (d: DatabaseFiles)
    ensures d.Valid() && d.connected && Only(d.files, Healthy([row]), None, Some(Damaged("")))
    ensures !Restorable(d.files)
  {
    var failing := WriteFaults(false, Copied([]), false, false, true);
    d := OpenedAndRotten(row, Snapshot);
    ghost var rotten := d.files;
    assert rotten[Db := Healthy([row])] == rotten;
    var _ := d.Open(false, "", RecoverFaults({}, {}, None), [], Refuses(""), failing);
    OnlyWritten(rotten, d.files, failing, Healthy([row]), Some(Damaged("")), Some(Healthy([])));
  }

  /** One file has gone from its place to its quarantine name, if it was there at all. */
  predicate Moved(before: Files, now: Files, name: Name, stamp: string) {
    && name !in now
    && (name in before ==> Quarantine(name, stamp) in now && now[Quarantine(name, stamp)] == before[name])
  }

  /** The database and its companions are under their quarantine names and nowhere else. */
  predicate SetAsideAs(before: Files, now: Files, stamp: string) {
    Moved(before, now, Db, stamp) && Moved(before, now, Wal, stamp) && Moved(before, now, Shm, stamp)
  }

  /** ... and the chosen generation, if any, stands where the database was. */
  predicate Replaced(before: Files, now: Files, stamp: string, restored: Option<Name>) {
    && SetAsideAs(before, now - {Db}, stamp)
    && match restored
       case Some(name) => name in before && SameAt(map[Db := before[name]], now, Db)
       case None => Db !in now
  }
}
