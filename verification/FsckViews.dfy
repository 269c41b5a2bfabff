/** What every write operation does to the columns that the `fsck` checks read, without its row loops. */
module FsckViews {
  import opened Prelude
  import opened Ordering
  import opened SegmentFormat
  import opened Schema
  import opened WriteOps
  import opened Reconcile
  import opened Convergence
  import opened Pipeline

  // ------------------------------------------- what an operation does to a wheel

  /** The wheel columns the checks read, and whether the wheel has a repodata row. */
  datatype View = View(
    state: WheelState,
    blob: Option<Digest>,
    conda: Option<string>,
    inRepodata: bool,
    deleted: bool,
    sidecar: Option<Digest>)

  function ViewOf(db: DB, id: int): View
    requires id in db.wheels
  {
    var w := db.wheels[id];
    View(w.state, w.blob, w.condaName, id in db.repodata, w.deletedAt.Some?, w.metadataSha256)
  }

  /** Sent back for metadata, with everything converted from the old bytes forgotten. */
  function ResetView(v: View): View { v.(state := NEED_METADATA, blob := None, conda := None, inRepodata := false) }

  /** A wheel on the page: revived, sent back for other bytes, given its sidecar, or left alone. */
  function CommonView(v: View, w: Wheel, file: ProjectFile): View {
    var v' := v.(sidecar := file.metadataSha256);
    if w.deletedAt.Some? then v'.(state := InitialState(file.hasMetadata), blob := None, deleted := false)
    else if BlobMismatch(w, file) then ResetView(v')
    else if w.state == NO_METADATA && file.hasMetadata then v'.(state := NEED_METADATA)
    else v'
  }

  predicate OnPage(w: Wheel, project: string, remote: Remote) { w.project == project && w.filename in remote }

  predicate OffPage(w: Wheel, project: string, remote: Remote) {
    w.project == project && w.filename !in remote && w.deletedAt.None?
  }

  /** The retry that goes past the last attempt. */
  predicate Quarantines(db: DB, stage: Stage, item: Item, maxAttempts: nat) {
    QUARANTINED in AllowedTransitions(item.state) && Attempts(db, StageKey(item.id, stage)) + 1 > maxAttempts
  }

  /** The view after an operation, without its row loops. */
  function ViewAfter(op: Op, db: DB, id: int): View
    requires id in db.wheels
  {
    var v, w := ViewOf(db, id), db.wheels[id];
    match op
    case FetchOk(item, sha, _) =>
      if id == item.id && NEED_CONVERT in AllowedTransitions(item.state)
      then v.(state := NEED_CONVERT, blob := Some(sha)) else v
    case ConvertOk(item, condaName, _, _) =>
      if id == item.id && READY in AllowedTransitions(item.state)
      then v.(state := READY, conda := Some(condaName), inRepodata := true) else v
    case SkipOutcome(_, item, _, _, _, _) =>
      if id == item.id && SKIPPED in AllowedTransitions(item.state) then v.(state := SKIPPED) else v
    case RetryOutcome(stage, item, maxAttempts, _, _) =>
      if id == item.id && Quarantines(db, stage, item, maxAttempts) then v.(state := QUARANTINED) else v
    case Reprocess(ids, _, _) => if id in ids then v.(state := NEED_CONVERT, inRepodata := false) else v
    case Unquarantine(ids, _) => if id in ids && v.state == QUARANTINED then v.(state := NEED_METADATA) else v
    case Sync(project, _, files, _) =>
      var remote := RemoteFiles(files);
      if OnPage(w, project, remote) then CommonView(v, w, remote[w.filename])
      else if OffPage(w, project, remote) then v.(state := DELETED, deleted := true) else v
    case Gone(project, _) =>
      if w.project == project && w.deletedAt.None? then v.(state := DELETED, deleted := true) else v
    case Recover(shas) => if LinkedTo(w, shas) then ResetView(v) else v
  }

  lemma FetchView(db: DB, ctr: nat, item: Item, sha: Digest, now: Time, id: int)
    requires id in db.wheels
    ensures var db' := Committed(db, OkFetch(db, ctr, item, sha, now));
            id in db'.wheels && ViewOf(db', id) == ViewAfter(FetchOk(item, sha, now), db, id)
  {
  }

  lemma ConvertView(db: DB, ctr: nat, item: Item, condaName: string, version: string, now: Time, id: int)
    requires id in db.wheels
    ensures var db' := Committed(db, OkConvert(db, ctr, item, condaName, version, now));
            id in db'.wheels && ViewOf(db', id) == ViewAfter(ConvertOk(item, condaName, version, now), db, id)
  {
  }

  lemma SkipView(db: DB, ctr: nat, stage: Stage, item: Item, reason: string, permanent: bool,
                 version: Option<string>, now: Time, id: int)
    requires id in db.wheels
    ensures var db' := Committed(db, SkipWheel(db, ctr, stage, item, reason, permanent, version, now));
            var op := SkipOutcome(stage, item, reason, permanent, version, now);
            id in db'.wheels && ViewOf(db', id) == ViewAfter(op, db, id)
  {
  }

  lemma RetryView(db: DB, ctr: nat, stage: Stage, item: Item, maxAttempts: nat, now: Time, due: Time, id: int)
    requires id in db.wheels
    ensures var db' := Committed(db, RetryWheel(db, ctr, stage, item, maxAttempts, now, due));
            id in db'.wheels && ViewOf(db', id) == ViewAfter(RetryOutcome(stage, item, maxAttempts, now, due), db, id)
  {
    if RetryWheel(db, ctr, stage, item, maxAttempts, now, due).Applied? {
      RetryShape(db, ctr, stage, item, maxAttempts, now, due);
    }
  }

  lemma ReprocessView(db: DB, ctr: nat, ids: seq<int>, below: Option<string>, now: Time, id: int)
    requires id in db.wheels
    ensures var db' := ReprocessChunk(db, ctr, ids, below, now).db;
            id in db'.wheels && ViewOf(db', id) == ViewAfter(Reprocess(ids, below, now), db, id)
  {
    RequeueRowsEffect(db.wheels, ids, ctr, now, id);
  }

  lemma UnquarantineView(db: DB, ctr: nat, ids: seq<int>, now: Time, id: int)
    requires id in db.wheels
    ensures var db' := UnquarantineChunk(db, ctr, ids, now).db;
            id in db'.wheels && ViewOf(db', id) == ViewAfter(Unquarantine(ids, now), db, id)
  {
    RefetchRowsEffect(db.wheels, ids, ctr, now, id);
  }

  lemma RecoverView(db: DB, shas: set<Digest>, id: int)
    requires id in db.wheels
    ensures var db' := RecoverChunk(db, shas); id in db'.wheels && ViewOf(db', id) == ViewAfter(Recover(shas), db, id)
  {
  }

  lemma GoneIds(wheels: Wheels, project: string, id: int)
    requires id in wheels
    ensures id in Ids(Sorted(LiveIds(wheels, project))) <==> wheels[id].project == project && wheels[id].deletedAt.None?
  {
    var keys := LiveIds(wheels, project);
    SortedIsTable(keys);
    IdsMember(Sorted(keys), id);
    if wheels[id].project == project && wheels[id].deletedAt.None? {
      assert ById(id) in keys;
    }
  }

  lemma GoneView(db: DB, ctr: nat, project: string, now: Time, id: int)
    requires id in db.wheels
    ensures var db' := ApplyGone(db, ctr, project, now).db;
            id in db'.wheels && ViewOf(db', id) == ViewAfter(Gone(project, now), db, id)
  {
    GoneIds(db.wheels, project, id);
    TombstoneEffect(db.wheels, ctr, Ids(Sorted(LiveIds(db.wheels, project))), now, id);
  }

  // ------------------------------------------------------------------ sync's view

  /** The update loop deletes the repodata of this wheel. */
  ghost predicate Drops(keys: seq<Key>, base: Wheels, remote: Remote, id: int) {
    exists k :: k in Elements(keys) && k.id == id && DropsAt(base, remote, k)
  }

  predicate DropsAt(base: Wheels, remote: Remote, k: Key) {
    && k.id in base && k.project in remote && DiffCommon(k.id, base[k.id], remote[k.project]).Some?
    && DiffCommon(k.id, base[k.id], remote[k.project]).value.deleteRepodata
  }

  /** Blobs and work are untouched, skips and repodata only lose rows. */
  ghost predicate SideRows(before: DB, after: DB) {
    && after.blobs == before.blobs && after.work == before.work
    && (forall k :: k in after.skips ==> k in before.skips && after.skips[k] == before.skips[k])
    && (forall id :: id in after.repodata ==> id in before.repodata && after.repodata[id] == before.repodata[id])
  }

  lemma SideTrans(a: DB, b: DB, c: DB)
    requires SideRows(a, b) && SideRows(b, c)
    ensures SideRows(a, c)
  {
  }

  lemma ChangeOneSide(db: DB, c: Changed, ctr: nat, now: Time, id: int)
    ensures var next := ChangeRow(db, c, ctr, now);
            SideRows(db, next) && (id in next.repodata <==> id in db.repodata && !(c.id == id && c.deleteRepodata))
  {
  }

  lemma DropsStep(keys: seq<Key>, base: Wheels, remote: Remote, id: int)
    requires keys != []
    ensures Drops(keys, base, remote, id) <==>
            (keys[0].id == id && DropsAt(base, remote, keys[0])) || Drops(keys[1..], base, remote, id)
  {
    assert keys == [keys[0]] + keys[1..];
    assert keys[0] in Elements(keys);
  }

  lemma {:induction false} ChangeSideRows(db: DB, ctr: nat, keys: seq<Key>, base: Wheels, remote: Remote, now: Time,
                                          id: int)
    ensures var db' := ChangeRows(db, ctr, PlanChanged(keys, base, remote), now);
            SideRows(db, db') && (id in db'.repodata <==> id in db.repodata && !Drops(keys, base, remote, id))
    decreases |keys|
  {
    if keys != [] {
      var k := keys[0];
      DropsStep(keys, base, remote, id);
      if k.id in base && k.project in remote && DiffCommon(k.id, base[k.id], remote[k.project]).Some? {
        var c := DiffCommon(k.id, base[k.id], remote[k.project]).value;
        var plan, next := PlanChanged(keys, base, remote), ChangeRow(db, c, ctr + 1, now);
        assert plan[0] == c && plan[1..] == PlanChanged(keys[1..], base, remote);
        ChangeSideRows(next, ctr + 1, keys[1..], base, remote, now, id);
        ChangeOneSide(db, c, ctr + 1, now, id);
        SideTrans(db, next, ChangeRows(next, ctr + 1, plan[1..], now));
      } else {
        ChangeSideRows(db, ctr, keys[1..], base, remote, now, id);
      }
    }
  }

  lemma SweepSideRows(db: DB, ctr: nat, j: Job)
    ensures var mid, after := Mid(db, ctr, j), AfterJob(db, ctr, j);
            && after.repodata == mid.repodata && after.skips == mid.skips
            && after.blobs == mid.blobs && after.work == mid.work
  {
  }

  lemma InsertSideRows(db: DB, ctr: nat, j: Job)
    requires Planned(db.wheels, j)
    ensures var d1 := Inserts(db, ctr, j);
            SideRows(db, d1) && d1.repodata == db.repodata && d1.skips == db.skips
  {
    InsertEffect(db, ctr, j.newKeys, j.remote, db.unlinked, j.project, j.serial, j.now);
  }

  lemma SyncSideRows(db: DB, ctr: nat, j: Job, id: int)
    requires Planned(db.wheels, j)
    ensures var db' := AfterJob(db, ctr, j);
            && SideRows(db, db')
            && (id in db'.repodata <==> id in db.repodata && !Drops(j.common, db.wheels, j.remote, id))
  {
    InsertSideRows(db, ctr, j);
    ChangeSideRows(Inserts(db, ctr, j), ctr + |PlanNew(j.newKeys, j.remote, db.unlinked)|,
                   j.common, db.wheels, j.remote, j.now, id);
    SideTrans(db, Inserts(db, ctr, j), Mid(db, ctr, j));
    SweepSideRows(db, ctr, j);
  }

  lemma DropsIff(wheels: Wheels, j: Job, id: int)
    requires Planned(wheels, j) && id in wheels
    ensures Drops(j.common, wheels, j.remote, id) <==>
            IsCommon(wheels, j, id) && wheels[id].deletedAt.None?
            && BlobMismatch(wheels[id], j.remote[wheels[id].filename])
  {
    var k := Key(0, wheels[id].filename, id);
    LocalKey(wheels, j.project, k);
    forall x | x in Elements(j.common) && x.id == id ensures x == k && IsCommon(wheels, j, id) {
      LocalKey(wheels, j.project, x);
    }
    if IsCommon(wheels, j, id) {
      assert k in Elements(j.common);
    }
  }

  function JobView(db: DB, j: Job, id: int): View
    requires id in db.wheels
  {
    var v, w := ViewOf(db, id), db.wheels[id];
    if IsCommon(db.wheels, j, id) then CommonView(v, w, j.remote[w.filename])
    else if IsVanished(db.wheels, j, id) then v.(state := DELETED, deleted := true) else v
  }

  lemma JobViewFrom(db: DB, db': DB, j: Job, id: int)
    requires id in db.wheels && ReconciledAt(db, db'.wheels, j, id)
    requires id in db'.repodata <==>
               id in db.repodata &&
               !(IsCommon(db.wheels, j, id) && db.wheels[id].deletedAt.None? &&
                 BlobMismatch(db.wheels[id], j.remote[db.wheels[id].filename]))
    ensures id in db'.wheels && ViewOf(db', id) == JobView(db, j, id)
  {
  }

  lemma SyncViewAt(db: DB, ctr: nat, j: Job, id: int)
    requires Planned(db.wheels, j) && id in db.wheels
    ensures var db' := AfterJob(db, ctr, j);
            && id in db'.wheels
            && ViewOf(db', id) == JobView(db, j, id)
  {
    ReconciledRow(db, ctr, j, id);
    SyncSideRows(db, ctr, j, id);
    DropsIff(db.wheels, j, id);
    JobViewFrom(db, AfterJob(db, ctr, j), j, id);
  }

  lemma JobViewIs(db: DB, j: Job, project: string, serial: int, files: seq<ProjectFile>, now: Time, id: int)
    requires id in db.wheels && j.project == project && j.remote == RemoteFiles(files)
    ensures JobView(db, j, id) == ViewAfter(Sync(project, serial, files, now), db, id)
  {
  }

  lemma SyncView(db: DB, ctr: nat, project: string, serial: int, files: seq<ProjectFile>, now: Time, id: int)
    requires id in db.wheels
    ensures var db' := Synced(db, ctr, project, serial, files, now);
            id in db'.wheels && ViewOf(db', id) == ViewAfter(Sync(project, serial, files, now), db, id)
  {
    var j := JobOf(db, project, serial, files, now);
    SyncedIsAfterJob(db, ctr, project, serial, files, now);
    SyncViewAt(db, ctr, j, id);
    JobViewIs(db, j, project, serial, files, now, id);
  }

  /** What every operation does to every stored wheel, as far as these checks can see. */
  lemma OpView(op: Op, db: DB, ctr: nat, id: int)
    requires id in db.wheels
    ensures var db' := Committed(db, Run(op, db, ctr)); id in db'.wheels && ViewOf(db', id) == ViewAfter(op, db, id)
  {
    match op
    case FetchOk(item, sha, now) => FetchView(db, ctr, item, sha, now, id);
    case ConvertOk(item, condaName, version, now) => ConvertView(db, ctr, item, condaName, version, now, id);
    case SkipOutcome(stage, item, reason, permanent, version, now) =>
      SkipView(db, ctr, stage, item, reason, permanent, version, now, id);
    case RetryOutcome(stage, item, maxAttempts, now, due) => RetryView(db, ctr, stage, item, maxAttempts, now, due, id);
    case Reprocess(ids, below, now) => ReprocessView(db, ctr, ids, below, now, id);
    case Unquarantine(ids, now) => UnquarantineView(db, ctr, ids, now, id);
    case Sync(project, serial, files, now) => SyncView(db, ctr, project, serial, files, now, id);
    case Gone(project, now) => GoneView(db, ctr, project, now, id);
    case Recover(shas) => RecoverView(db, shas, id);
  }

  // --------------------------------------------------------------- fresh wheels

  /** The page file becomes a new row: no stored row of any project has its name. */
  ghost predicate IsFresh(db: DB, remote: Remote, name: string) { name in remote && !HasFilename(db.wheels, name) }

  function FreshView(db: DB, file: ProjectFile): View {
    if file.filename in db.unlinked
    then View(NEED_CONVERT, Some(db.unlinked[file.filename]), None, false, false, file.metadataSha256)
    else View(InitialState(file.hasMetadata), None, None, false, false, file.metadataSha256)
  }

  /** A wheel that was not there came from sync, for a fresh name. */
  lemma FreshAfter(op: Op, db: DB, ctr: nat, id: int)
    requires KeysOk(db) && id !in db.wheels && id in Committed(db, Run(op, db, ctr)).wheels
    ensures op.Sync?
    ensures var db', remote := Committed(db, Run(op, db, ctr)), RemoteFiles(op.files);
            && IsFresh(db, remote, db'.wheels[id].filename)
            && ViewOf(db', id) == FreshView(db, remote[db'.wheels[id].filename])
  {
    if op.Sync? {
      var j := JobOf(db, op.project, op.serial, op.files, op.now);
      SyncedIsAfterJob(db, ctr, op.project, op.serial, op.files, op.now);
      FreshAtJob(db, ctr, j, id);
    } else {
      SameKeys(op, db, ctr, id);
    }
  }

  lemma FreshAtJob(db: DB, ctr: nat, j: Job, id: int)
    requires KeysOk(db) && Planned(db.wheels, j) && id !in db.wheels && id in AfterJob(db, ctr, j).wheels
    ensures var db' := AfterJob(db, ctr, j);
            var name := db'.wheels[id].filename;
            && IsFresh(db, j.remote, name) && j.remote[name].filename == name
            && ViewOf(db', id) == FreshView(db, j.remote[name])
  {
    ReconciledRow(db, ctr, j, id);
    SyncSideRows(db, ctr, j, id);
    assert Key(0, AfterJob(db, ctr, j).wheels[id].filename, 0) in Elements(j.newKeys);
  }

  /** Every other operation keeps the set of rows. */
  lemma SameKeys(op: Op, db: DB, ctr: nat, id: int)
    requires !op.Sync?
    ensures id in Committed(db, Run(op, db, ctr)).wheels <==> id in db.wheels
  {
    match op
    case Reprocess(ids, below, now) => RequeueRowsEffect(db.wheels, ids, ctr, now, id);
    case Unquarantine(ids, now) => RefetchRowsEffect(db.wheels, ids, ctr, now, id);
    case Gone(project, now) => TombstoneEffect(db.wheels, ctr, Ids(Sorted(LiveIds(db.wheels, project))), now, id);
    case RetryOutcome(stage, item, maxAttempts, now, due) => RetryTables(db, ctr, stage, item, maxAttempts, now, due);
    case _ =>
  }

  /** Every fresh name gets its row. */
  lemma FreshInserted(db: DB, ctr: nat, project: string, serial: int, files: seq<ProjectFile>, now: Time,
                      name: string) returns (id: int)
    requires IsFresh(db, RemoteFiles(files), name)
    ensures var after := Synced(db, ctr, project, serial, files, now).wheels;
            id !in db.wheels && id in after && after[id].filename == name
  {
    var j := JobOf(db, project, serial, files, now);
    SyncedIsAfterJob(db, ctr, project, serial, files, now);
    NewKey(db.wheels, project, j.remote, Key(0, name, 0));
    NamesPresent(db, ctr, j, name);
    var after := AfterJob(db, ctr, j).wheels;
    id :| id in after && after[id].filename == name;
    ReconciledRow(db, ctr, j, id);
    NameKept(db, after, j, id);
  }

  lemma NameKept(db: DB, after: Wheels, j: Job, id: int)
    requires id in after && ReconciledAt(db, after, j, id)
    ensures id in db.wheels ==> HasFilename(db.wheels, after[id].filename)
  {
    if IsCommon(db.wheels, j, id) {
      ExpectedMirrors(db.wheels[id], j.remote[db.wheels[id].filename], id, after[id].changeSeq, j.now);
    }
    if id in db.wheels {
      assert after[id].filename == db.wheels[id].filename;
    }
  }

  // ------------------------------------------------------------ skips, work, blobs

  /** The project's page gives a live wheel the sidecar it lacked. */
  predicate GainsSidecar(w: Wheel, project: string, remote: Remote) {
    OnPage(w, project, remote) && w.deletedAt.None? && w.state == NO_METADATA && remote[w.filename].hasMetadata
  }

  predicate GainsAt(base: Wheels, remote: Remote, k: Key) {
    && k.id in base && k.project in remote && DiffCommon(k.id, base[k.id], remote[k.project]).Some?
    && DiffCommon(k.id, base[k.id], remote[k.project]).value.deleteNoSidecarSkip
  }

  ghost predicate Gains(keys: seq<Key>, base: Wheels, remote: Remote, id: int) {
    exists k :: k in Elements(keys) && k.id == id && GainsAt(base, remote, k)
  }

  lemma GainsStep(keys: seq<Key>, base: Wheels, remote: Remote, id: int)
    requires keys != []
    ensures Gains(keys, base, remote, id) <==>
            (keys[0].id == id && GainsAt(base, remote, keys[0])) || Gains(keys[1..], base, remote, id)
  {
    assert keys == [keys[0]] + keys[1..];
    assert keys[0] in Elements(keys);
  }

  /** Which skips the update loop keeps. */
  lemma {:induction false} ChangeSkips(db: DB, ctr: nat, keys: seq<Key>, base: Wheels, remote: Remote, now: Time,
                                       key: StageKey)
    ensures var db' := ChangeRows(db, ctr, PlanChanged(keys, base, remote), now);
            key in db'.skips <==>
              key in db.skips && !(IsNoSidecar(db.skips[key]) && Gains(keys, base, remote, key.id))
    decreases |keys|
  {
    if keys != [] {
      var k := keys[0];
      GainsStep(keys, base, remote, key.id);
      if k.id in base && k.project in remote && DiffCommon(k.id, base[k.id], remote[k.project]).Some? {
        var c := DiffCommon(k.id, base[k.id], remote[k.project]).value;
        var plan, next := PlanChanged(keys, base, remote), ChangeRow(db, c, ctr + 1, now);
        assert plan[0] == c && plan[1..] == PlanChanged(keys[1..], base, remote);
        ChangeSkips(next, ctr + 1, keys[1..], base, remote, now, key);
      } else {
        ChangeSkips(db, ctr, keys[1..], base, remote, now, key);
      }
    }
  }

  lemma GainsIff(wheels: Wheels, j: Job, id: int)
    requires Planned(wheels, j) && id in wheels
    ensures Gains(j.common, wheels, j.remote, id) <==> GainsSidecar(wheels[id], j.project, j.remote)
  {
    var k := Key(0, wheels[id].filename, id);
    LocalKey(wheels, j.project, k);
    forall x | x in Elements(j.common) && x.id == id ensures x == k && IsCommon(wheels, j, id) {
      LocalKey(wheels, j.project, x);
    }
    if IsCommon(wheels, j, id) {
      assert k in Elements(j.common);
    }
  }

  lemma MidSkips(db: DB, ctr: nat, j: Job, key: StageKey)
    requires Inserts(db, ctr, j).skips == db.skips
    ensures key in Mid(db, ctr, j).skips <==>
            key in db.skips && !(IsNoSidecar(db.skips[key]) && Gains(j.common, db.wheels, j.remote, key.id))
  {
    ChangeSkips(Inserts(db, ctr, j), ctr + |PlanNew(j.newKeys, j.remote, db.unlinked)|, j.common, db.wheels, j.remote,
                j.now, key);
  }

  lemma JobSkips(db: DB, ctr: nat, j: Job, key: StageKey)
    requires Planned(db.wheels, j) && key.id in db.wheels
    ensures key in AfterJob(db, ctr, j).skips <==>
            key in db.skips && !(IsNoSidecar(db.skips[key]) && GainsSidecar(db.wheels[key.id], j.project, j.remote))
  {
    InsertSideRows(db, ctr, j);
    MidSkips(db, ctr, j, key);
    SweepSideRows(db, ctr, j);
    GainsIff(db.wheels, j, key.id);
  }

  lemma SyncedSkips(db: DB, ctr: nat, project: string, serial: int, files: seq<ProjectFile>, now: Time, key: StageKey)
    requires key.id in db.wheels
    ensures key in Synced(db, ctr, project, serial, files, now).skips <==>
            key in db.skips && !(IsNoSidecar(db.skips[key]) &&
                                 GainsSidecar(db.wheels[key.id], project, RemoteFiles(files)))
  {
    var j := JobOf(db, project, serial, files, now);
    SyncedIsAfterJob(db, ctr, project, serial, files, now);
    JobSkips(db, ctr, j, key);
  }

  lemma SyncedSideRows(db: DB, ctr: nat, project: string, serial: int, files: seq<ProjectFile>, now: Time)
    ensures SideRows(db, Synced(db, ctr, project, serial, files, now))
  {
    var j := JobOf(db, project, serial, files, now);
    SyncedIsAfterJob(db, ctr, project, serial, files, now);
    SyncSideRows(db, ctr, j, 0);
  }

  /** Skips and work rows are only ever deleted, but for the one row an outcome writes. */
  ghost predicate RowsOnlyGo(op: Op, db: DB, db': DB) {
    && (!op.SkipOutcome? ==> forall k :: k in db'.skips ==> k in db.skips && db'.skips[k] == db.skips[k])
    && (!op.RetryOutcome? ==> forall k :: k in db'.work ==> k in db.work && db'.work[k] == db.work[k])
  }

  lemma SyncRowsOnlyGo(op: Op, db: DB, ctr: nat)
    requires op.Sync?
    ensures RowsOnlyGo(op, db, Committed(db, Run(op, db, ctr)))
  {
    SyncedSideRows(db, ctr, op.project, op.serial, op.files, op.now);
  }

  lemma OpRowsOnlyGo(op: Op, db: DB, ctr: nat)
    ensures RowsOnlyGo(op, db, Committed(db, Run(op, db, ctr)))
  {
    match op
    case Sync(project, serial, files, now) => SyncRowsOnlyGo(op, db, ctr);
    case RetryOutcome(stage, item, maxAttempts, now, due) => RetryTables(db, ctr, stage, item, maxAttempts, now, due);
    case _ =>
  }

  /** The skip is written: the transition is allowed and the wheel exists. */
  predicate Skips(op: Op, db: DB) {
    op.SkipOutcome? && SKIPPED in AllowedTransitions(op.item.state) && op.item.id in db.wheels
  }

  function SkipRowOf(op: Op): Skip
    requires op.SkipOutcome?
  {
    Skip(op.reason, op.permanent, if op.permanent then None else op.skipVersion)
  }

  lemma SkipRow(op: Op, db: DB, ctr: nat)
    requires op.SkipOutcome?
    ensures Committed(db, Run(op, db, ctr)).skips ==
            if Skips(op, db) then db.skips[StageKey(op.item.id, op.stage) := SkipRowOf(op)] else db.skips
  {
  }

  /** The retry is written, and the row it writes. */
  predicate Retries(op: Op, db: DB) {
    && op.RetryOutcome? && op.item.id in db.wheels
    && (Attempts(db, StageKey(op.item.id, op.stage)) + 1 > op.maxAttempts ==>
          QUARANTINED in AllowedTransitions(op.item.state))
  }

  function RetryRow(op: Op, db: DB): Work
    requires op.RetryOutcome?
  {
    var key := StageKey(op.item.id, op.stage);
    var n := Attempts(db, key) + 1;
    if n > op.maxAttempts then Work(n, op.now, Some(op.now)) else Work(n, op.due, QuarantinedAt(db, key))
  }

  lemma RetryWork(op: Op, db: DB, ctr: nat)
    requires op.RetryOutcome?
    ensures Committed(db, Run(op, db, ctr)).work ==
            if Retries(op, db) then db.work[StageKey(op.item.id, op.stage) := RetryRow(op, db)] else db.work
  {
  }

  function BlobsAfter(op: Op, db: DB): map<Digest, BlobLocation> {
    if op.Recover? then map sha | sha in db.blobs && sha !in op.shas :: db.blobs[sha] else db.blobs
  }

  lemma OpBlobs(op: Op, db: DB, ctr: nat)
    ensures Committed(db, Run(op, db, ctr)).blobs == BlobsAfter(op, db)
  {
    if op.Sync? {
      SyncedSideRows(db, ctr, op.project, op.serial, op.files, op.now);
    }
  }

  /** The skips rows of stored wheels after an operation. */
  predicate SkipAfter(op: Op, db: DB, key: StageKey)
    requires key.id in db.wheels
  {
    match op
    case SkipOutcome(stage, item, _, _, _, _) => key in db.skips || (Skips(op, db) && key == StageKey(item.id, stage))
    case Reprocess(ids, below, _) =>
      && key in db.skips
      && !(key.id in ids && below.Some? && !db.skips[key].permanent && db.skips[key].version.Some?
           && LexLess(db.skips[key].version.value, below.value))
    case Sync(project, _, files, _) =>
      && key in db.skips
      && !(db.skips[key].reason == "no_sidecar" && db.skips[key].permanent
           && GainsSidecar(db.wheels[key.id], project, RemoteFiles(files)))
    case _ => key in db.skips
  }

  lemma OpSkips(op: Op, db: DB, ctr: nat, key: StageKey)
    requires key.id in db.wheels
    ensures key in Committed(db, Run(op, db, ctr)).skips <==> SkipAfter(op, db, key)
  {
    match op
    case SkipOutcome(stage, item, reason, permanent, version, now) => SkipRow(op, db, ctr);
    case RetryOutcome(stage, item, maxAttempts, now, due) => RetryTables(db, ctr, stage, item, maxAttempts, now, due);
    case Sync(project, serial, files, now) => SyncedSkips(db, ctr, project, serial, files, now, key);
    case _ =>
  }

  /** The work rows after an operation. */
  predicate WorkAfter(op: Op, db: DB, key: StageKey) {
    match op
    case FetchOk(item, _, _) =>
      key in db.work && !(NEED_CONVERT in AllowedTransitions(item.state) && key == StageKey(item.id, FETCH))
    case ConvertOk(item, _, _, _) =>
      && key in db.work
      && !(READY in AllowedTransitions(item.state) && item.id in db.wheels && key == StageKey(item.id, CONVERT))
    case SkipOutcome(stage, item, _, _, _, _) => key in db.work && !(Skips(op, db) && key == StageKey(item.id, stage))
    case RetryOutcome(stage, item, _, _, _) => key in db.work || (Retries(op, db) && key == StageKey(item.id, stage))
    case Reprocess(ids, _, _) => key in db.work && key.id !in ids
    case Unquarantine(ids, _) => key in db.work && key.id !in ids
    case _ => key in db.work
  }

  lemma OpWork(op: Op, db: DB, ctr: nat, key: StageKey)
    ensures key in Committed(db, Run(op, db, ctr)).work <==> WorkAfter(op, db, key)
  {
    match op
    case RetryOutcome(stage, item, maxAttempts, now, due) => RetryWork(op, db, ctr);
    case Sync(project, serial, files, now) => SyncedSideRows(db, ctr, project, serial, files, now);
    case _ =>
  }
}
