/** What every write operation leaves in the stored rows, column by column, said without the operations'
    own helper functions. */
module OpRows {
  import opened Prelude
  import opened Ordering
  import opened SegmentFormat
  import opened Schema
  import opened WriteOps
  import opened Reconcile
  import opened Convergence
  import opened Pipeline
  import opened FsckViews

  // ------------------------------------------------------------- the wheels row

  /** Every column that mirrors the page. */
  function Mirrored(w: Wheel, file: ProjectFile): Wheel {
    w.(url := file.url, wheelSha256 := file.wheelSha256, metadataSha256 := file.metadataSha256, size := file.size,
       uploadTime := file.uploadTime, requiresPython := file.requiresPython, yanked := file.yanked,
       yankedReason := file.yankedReason)
  }

  /** The archived bytes hash to something else than the page publishes. */
  predicate OtherBytes(w: Wheel, file: ProjectFile) {
    w.blob.Some? && file.metadataSha256.Some? && w.blob.value != file.metadataSha256.value
  }

  /** A stored wheel that is on its project's page: a tombstone is revived without its blob, a live row
      mirrors the page, is fetched again if it has other bytes or gains its sidecar, and is not written
      at all if nothing differs. */
  function PageRow(w: Wheel, file: ProjectFile, ctr: nat, now: Time): Wheel {
    var m := Mirrored(w, file);
    if w.deletedAt.Some? then
      m.(deletedAt := None, state := if file.hasMetadata then NEED_METADATA else NO_METADATA, blob := None,
         changeSeq := ctr, updatedAt := now)
    else
      var w' := if OtherBytes(w, file) then m.(state := NEED_METADATA, blob := None, condaName := None)
                else if w.state == NO_METADATA && file.hasMetadata then m.(state := NEED_METADATA)
                else m;
      if w' == w then w else w'.(changeSeq := ctr, updatedAt := now)
  }

  lemma PageRowIs(w: Wheel, file: ProjectFile, id: int, ctr: nat, now: Time)
    ensures ExpectedRow(w, file, id, ctr, now) == PageRow(w, file, ctr, now)
  {
    if w.deletedAt.None? {
      DiffIffUnsettled(id, w, file);
    }
  }

  /** The row after an operation; `ctr` is the number it took if the operation changed it. */
  function RowAfter(op: Op, db: DB, id: int, ctr: nat): Wheel
    requires id in db.wheels
  {
    var w := db.wheels[id];
    match op
    case FetchOk(item, sha, now) =>
      if id == item.id && item.state in {NEED_METADATA, READY, SKIPPED}
      then w.(state := NEED_CONVERT, blob := Some(sha), changeSeq := ctr, updatedAt := now) else w
    case ConvertOk(item, condaName, _, now) =>
      if id == item.id && item.state == NEED_CONVERT
      then w.(state := READY, condaName := Some(condaName), changeSeq := ctr, updatedAt := now) else w
    case SkipOutcome(_, item, _, _, _, now) =>
      if id == item.id && item.state == NEED_CONVERT
      then w.(state := SKIPPED, changeSeq := ctr, updatedAt := now) else w
    case RetryOutcome(stage, item, maxAttempts, now, _) =>
      if id == item.id && item.state in {NEED_METADATA, NEED_CONVERT} && PastMax(db, id, stage, maxAttempts)
      then w.(state := QUARANTINED, changeSeq := ctr, updatedAt := now) else w
    case Reprocess(ids, _, now) =>
      if id in ids then w.(state := NEED_CONVERT, lane := 1, changeSeq := ctr, updatedAt := now) else w
    case Unquarantine(ids, now) =>
      if id in ids && w.state == QUARANTINED
      then w.(state := NEED_METADATA, changeSeq := ctr, updatedAt := now) else w
    case Sync(project, _, files, now) =>
      var remote := RemoteFiles(files);
      if w.project != project then w
      else if w.filename in remote then PageRow(w, remote[w.filename], ctr, now)
      else if w.deletedAt.None? then w.(deletedAt := Some(now), state := DELETED, changeSeq := ctr, updatedAt := now)
      else w
    case Gone(project, now) =>
      if w.project == project && w.deletedAt.None?
      then w.(deletedAt := Some(now), state := DELETED, changeSeq := ctr, updatedAt := now) else w
    case Recover(shas) =>
      if w.blob.Some? && w.blob.value in shas && w.state != DELETED
      then w.(state := NEED_METADATA, blob := None, condaName := None) else w
  }

  /** One more failure is more than allowed. */
  predicate PastMax(db: DB, id: int, stage: Stage, maxAttempts: nat) {
    var key := StageKey(id, stage);
    if key in db.work then db.work[key].attempts >= maxAttempts else maxAttempts == 0
  }

  lemma SyncRow(db: DB, ctr: nat, j: Job, id: int)
    requires Planned(db.wheels, j) && id in db.wheels
    ensures var after := AfterJob(db, ctr, j).wheels;
            id in after &&
            var w, w' := db.wheels[id], after[id];
            w' == if w.project != j.project then w
                  else if w.filename in j.remote then PageRow(w, j.remote[w.filename], w'.changeSeq, j.now)
                  else if w.deletedAt.None?
                  then w.(deletedAt := Some(j.now), state := DELETED, changeSeq := w'.changeSeq, updatedAt := j.now)
                  else w
  {
    var after := AfterJob(db, ctr, j).wheels;
    ReconciledRow(db, ctr, j, id);
    if IsCommon(db.wheels, j, id) {
      PageRowIs(db.wheels[id], j.remote[db.wheels[id].filename], id, after[id].changeSeq, j.now);
    }
  }

  /** The row is as tabled, for the number the outcome takes. */
  ghost predicate RowIsAfter(op: Op, db: DB, ctr: nat, id: int)
    requires id in db.wheels
  {
    var db' := Committed(db, Run(op, db, ctr));
    id in db'.wheels && db'.wheels[id] == RowAfter(op, db, id, ctr + 1)
  }

  lemma FetchRow(item: Item, sha: Digest, now: Time, db: DB, ctr: nat, id: int)
    requires id in db.wheels
    ensures RowIsAfter(FetchOk(item, sha, now), db, ctr, id)
  {
  }

  lemma ConvertRow(item: Item, condaName: string, version: string, now: Time, db: DB, ctr: nat, id: int)
    requires id in db.wheels
    ensures RowIsAfter(ConvertOk(item, condaName, version, now), db, ctr, id)
  {
  }

  lemma SkippedRow(op: Op, db: DB, ctr: nat, id: int)
    requires id in db.wheels && op.SkipOutcome?
    ensures RowIsAfter(op, db, ctr, id)
  {
  }

  lemma RetriedRow(op: Op, db: DB, ctr: nat, id: int)
    requires id in db.wheels && op.RetryOutcome?
    ensures RowIsAfter(op, db, ctr, id)
  {
    if Run(op, db, ctr).Applied? {
      RetryShape(db, ctr, op.stage, op.item, op.maxAttempts, op.now, op.due);
    }
  }

  lemma OutcomeRow(op: Op, db: DB, ctr: nat, id: int)
    requires id in db.wheels && (op.FetchOk? || op.ConvertOk? || op.SkipOutcome? || op.RetryOutcome?)
    ensures RowIsAfter(op, db, ctr, id)
    ensures RowAfter(op, db, id, ctr + 1).changeSeq in {ctr + 1, db.wheels[id].changeSeq}
  {
    match op
    case FetchOk(item, sha, now) => FetchRow(item, sha, now, db, ctr, id);
    case ConvertOk(item, condaName, version, now) => ConvertRow(item, condaName, version, now, db, ctr, id);
    case SkipOutcome(_, _, _, _, _, _) => SkippedRow(op, db, ctr, id);
    case RetryOutcome(_, _, _, _, _) => RetriedRow(op, db, ctr, id);
  }

  /** Every operation leaves every stored row as the table above says, and deletes none. */
  lemma OpRow(op: Op, db: DB, ctr: nat, id: int)
    requires id in db.wheels
    ensures var db' := Committed(db, Run(op, db, ctr));
            id in db'.wheels && db'.wheels[id] == RowAfter(op, db, id, db'.wheels[id].changeSeq)
  {
    match op
    case Reprocess(ids, below, now) => RequeueRowsEffect(db.wheels, ids, ctr, now, id);
    case Unquarantine(ids, now) => RefetchRowsEffect(db.wheels, ids, ctr, now, id);
    case Sync(project, serial, files, now) =>
      var j := JobOf(db, project, serial, files, now);
      SyncedIsAfterJob(db, ctr, project, serial, files, now);
      SyncRow(db, ctr, j, id);
    case Gone(project, now) =>
      GoneIds(db.wheels, project, id);
      TombstoneEffect(db.wheels, ctr, Ids(Sorted(LiveIds(db.wheels, project))), now, id);
    case Recover(shas) =>
    case _ => OutcomeRow(op, db, ctr, id);
  }

  // ------------------------------------------------------------------ a new row

  /** The row of a page file no stored row is named after; an imported blob is linked at once. */
  function NewPageRow(db: DB, file: ProjectFile, project: string, serial: int, ctr: nat, now: Time): Wheel {
    var imported := file.filename in db.unlinked;
    Wheel(file.filename, project, None,
          if imported then NEED_CONVERT else if file.hasMetadata then NEED_METADATA else NO_METADATA,
          0, file.url, file.wheelSha256, file.metadataSha256, file.size, file.uploadTime, file.requiresPython,
          file.yanked, file.yankedReason,
          if imported then Some(db.unlinked[file.filename]) else None,
          serial, ctr, None, now)
  }

  lemma NewRowAt(db: DB, ctr: nat, j: Job, id: int)
    requires Planned(db.wheels, j) && id !in db.wheels && id in AfterJob(db, ctr, j).wheels
    ensures var w := AfterJob(db, ctr, j).wheels[id];
            && w.filename in j.remote && !HasFilename(db.wheels, w.filename)
            && j.remote[w.filename].filename == w.filename
            && w == NewPageRow(db, j.remote[w.filename], j.project, j.serial, w.changeSeq, j.now)
  {
    ReconciledRow(db, ctr, j, id);
    assert Key(0, AfterJob(db, ctr, j).wheels[id].filename, 0) in Elements(j.newKeys);
  }

  /** A row that was not there is the new row of a page file, inserted by sync. */
  lemma OpNewRow(op: Op, db: DB, ctr: nat, id: int)
    requires id !in db.wheels && id in Committed(db, Run(op, db, ctr)).wheels
    ensures op.Sync?
    ensures var w := Committed(db, Run(op, db, ctr)).wheels[id];
            var remote := RemoteFiles(op.files);
            && w.filename in remote && !HasFilename(db.wheels, w.filename)
            && w == NewPageRow(db, remote[w.filename], op.project, op.serial, w.changeSeq, op.now)
  {
    if op.Sync? {
      var j := JobOf(db, op.project, op.serial, op.files, op.now);
      SyncedIsAfterJob(db, ctr, op.project, op.serial, op.files, op.now);
      NewRowAt(db, ctr, j, id);
    } else {
      SameKeys(op, db, ctr, id);
    }
  }

  // ----------------------------------------------------------------- side tables

  /** The stored converter version of the wheel, if it has a repodata row. */
  function VersionOf(db: DB, id: int): Option<string> { if id in db.repodata then Some(db.repodata[id]) else None }

  function VersionAfter(op: Op, db: DB, id: int): Option<string>
    requires id in db.wheels
  {
    var w, v := db.wheels[id], VersionOf(db, id);
    match op
    case ConvertOk(item, _, version, _) => if id == item.id && item.state == NEED_CONVERT then Some(version) else v
    case Reprocess(ids, _, _) => if id in ids then None else v
    case Sync(project, _, files, _) =>
      var remote := RemoteFiles(files);
      if w.project == project && w.filename in remote && w.deletedAt.None? && OtherBytes(w, remote[w.filename])
      then None else v
    case Recover(shas) => if w.blob.Some? && w.blob.value in shas && w.state != DELETED then None else v
    case _ => v
  }

  lemma SyncVersion(db: DB, ctr: nat, j: Job, id: int)
    requires Planned(db.wheels, j) && id in db.wheels
    ensures var w := db.wheels[id];
            VersionOf(AfterJob(db, ctr, j), id) ==
            if w.project == j.project && w.filename in j.remote && w.deletedAt.None?
               && OtherBytes(w, j.remote[w.filename]) then None else VersionOf(db, id)
  {
    SyncSideRows(db, ctr, j, id);
    DropsIff(db.wheels, j, id);
  }

  /** Every operation leaves the repodata of every stored wheel as the table above says. */
  lemma OpVersion(op: Op, db: DB, ctr: nat, id: int)
    requires id in db.wheels
    ensures VersionOf(Committed(db, Run(op, db, ctr)), id) == VersionAfter(op, db, id)
  {
    match op
    case Sync(project, serial, files, now) =>
      var j := JobOf(db, project, serial, files, now);
      SyncedIsAfterJob(db, ctr, project, serial, files, now);
      SyncVersion(db, ctr, j, id);
    case RetryOutcome(stage, item, maxAttempts, now, due) => RetryTables(db, ctr, stage, item, maxAttempts, now, due);
    case _ =>
  }

  // --------------------------------------------------------- raises and replies

  /** The claimed state allows the outcome and, where a row is needed, there is one. */
  predicate Accepted(op: Op, db: DB) {
    match op
    case FetchOk(item, _, _) => item.state in {NEED_METADATA, READY, SKIPPED}
    case ConvertOk(item, _, _, _) => item.state == NEED_CONVERT && item.id in db.wheels
    case SkipOutcome(_, item, _, _, _, _) => item.state == NEED_CONVERT && item.id in db.wheels
    case RetryOutcome(stage, item, maxAttempts, _, _) =>
      && item.id in db.wheels
      && (PastMax(db, item.id, stage, maxAttempts) ==> item.state in {NEED_METADATA, NEED_CONVERT})
    case _ => true
  }

  /** Exactly the outcomes of a claimed state that does not allow them, or of a missing row, raise. */
  lemma RaisesIff(op: Op, db: DB, ctr: nat)
    ensures Run(op, db, ctr).Applied? <==> Accepted(op, db)
  {
  }

  /** How many numbers an operation takes: an outcome one if its state allows the advance, raised or not;
      a chunk one per listed id; a plan one per entry. */
  function Taken(op: Op, db: DB): nat {
    match op
    case FetchOk(item, _, _) => if item.state in {NEED_METADATA, READY, SKIPPED} then 1 else 0
    case ConvertOk(item, _, _, _) => if item.state == NEED_CONVERT then 1 else 0
    case SkipOutcome(_, item, _, _, _, _) => if item.state == NEED_CONVERT then 1 else 0
    case RetryOutcome(stage, item, maxAttempts, _, _) =>
      if PastMax(db, item.id, stage, maxAttempts) && item.state in {NEED_METADATA, NEED_CONVERT} then 1 else 0
    case Reprocess(ids, _, _) => |ids|
    case Unquarantine(ids, _) => |ids|
    case Sync(project, serial, files, _) =>
      var plan := SyncPlan(db, project, serial, files);
      |plan.newWheels| + |plan.changed| + |plan.vanished|
    case Gone(project, _) =>
      |set id | id in db.wheels && db.wheels[id].project == project && db.wheels[id].deletedAt.None?|
    case Recover(_) => 0
  }

  /** A number taken by an operation that raises is lost, not reused. */
  lemma OpTakes(op: Op, db: DB, ctr: nat)
    ensures Run(op, db, ctr).ctr == ctr + Taken(op, db)
  {
    match op
    case Gone(project, now) => GoneReply(db, ctr, project, now);
    case _ =>
  }

  lemma {:induction false} CountInIs(wheels: Wheels, ids: seq<int>)
    requires forall i, j :: 0 <= i < j < |ids| ==> ids[i] != ids[j]
    ensures CountIn(wheels, ids) == |set id | id in wheels && id in ids|
  {
    if ids == [] {
      NoneMeansEmpty(set id | id in wheels && id in ids);
    } else {
      CountInIs(wheels, ids[1..]);
      var rest := set id | id in wheels && id in ids[1..];
      assert forall id :: id in ids <==> id == ids[0] || id in ids[1..];
      assert ids[0] !in ids[1..];
      if ids[0] in wheels {
        assert (set id | id in wheels && id in ids) == rest + {ids[0]};
      } else {
        assert (set id | id in wheels && id in ids) == rest;
      }
    }
  }

  /** A reprocess chunk reports the listed wheels that exist, and takes one number per listed id. */
  lemma ReprocessReply(db: DB, ctr: nat, ids: seq<int>, below: Option<string>, now: Time)
    requires forall i, j :: 0 <= i < j < |ids| ==> ids[i] != ids[j]
    ensures var r := ReprocessChunk(db, ctr, ids, below, now);
            r.reply == Count(|set id | id in db.wheels && id in ids|) && r.ctr == ctr + |ids|
  {
    CountInIs(db.wheels, ids);
  }

  lemma {:induction false} IdsCount(keys: seq<Key>)
    ensures |Ids(keys)| == |keys|
  {
    if keys != [] {
      IdsCount(keys[1..]);
    }
  }

  lemma {:induction false} ByIdCount(ids: set<int>)
    ensures |set id | id in ids :: ById(id)| == |ids|
    decreases |ids|
  {
    if x :| x in ids {
      ByIdCount(ids - {x});
      assert (set id | id in ids :: ById(id)) == (set id | id in ids - {x} :: ById(id)) + {ById(x)};
    } else {
      NoneMeansEmpty(ids);
      assert (set id | id in ids :: ById(id)) == {};
    }
  }

  /** A vanished project reports the number of its live wheels, and takes one number for each. */
  lemma GoneReply(db: DB, ctr: nat, project: string, now: Time)
    ensures var n := |set id | id in db.wheels && db.wheels[id].project == project && db.wheels[id].deletedAt.None?|;
            var r := ApplyGone(db, ctr, project, now);
            r.reply == Count(n) && r.ctr == ctr + n
  {
    var keys := LiveIds(db.wheels, project);
    var ids := set id | id in db.wheels && db.wheels[id].project == project && db.wheels[id].deletedAt.None?;
    SortedIsTable(keys);
    IdsCount(Sorted(keys));
    ByIdCount(ids);
    assert keys == set id | id in ids :: ById(id);
  }

  // ------------------------------------------------------ imports and the index

  /** An inserted name loses its import, and only that. */
  lemma {:induction false} InsertUnlinks(db: DB, ctr: nat, keys: seq<Key>, remote: Remote,
                                         unlinked: map<string, Digest>, project: string, serial: int, now: Time,
                                         name: string)
    requires NewKeyList(keys, remote) && (name in db.unlinked ==> name in unlinked)
    ensures var db' := InsertRows(db, ctr, PlanNew(keys, remote, unlinked), project, serial, now);
            && (name in db'.unlinked <==>
                  name in db.unlinked && !(Key(0, name, 0) in Elements(keys) && !HasFilename(db.wheels, name)))
            && (name in db'.unlinked ==> db'.unlinked[name] == db.unlinked[name])
    decreases |keys|
  {
    if keys != [] {
      assert keys == [keys[0]] + keys[1..];
      assert keys[0] in Elements(keys);
      var first := keys[0].project;
      var n := PlanNewWheel(remote[first], Lookup(unlinked, first));
      var news := PlanNew(keys, remote, unlinked);
      assert news[0] == n && news[1..] == PlanNew(keys[1..], remote, unlinked);
      var next := InsertRow(db, ctr + 1, n, project, serial, now);
      InsertUnlinks(next, ctr + 1, keys[1..], remote, unlinked, project, serial, now, name);
      if name != first {
        InsertKeepsName(db, next, ctr + 1, n, project, serial, now, name);
      } else {
        LessIrreflexive(keys[0]);
        assert keys[0] == Key(0, name, 0) && keys[0] !in Elements(keys[1..]);
      }
    }
  }

  lemma AddedKeepsName(wheels: Wheels, id: int, w: Wheel, name: string)
    requires id !in wheels && w.filename != name
    ensures HasFilename(wheels[id := w], name) <==> HasFilename(wheels, name)
  {
    if x :| x in wheels && wheels[x].filename == name {
      assert wheels[id := w][x].filename == name;
    }
  }

  lemma InsertKeepsName(db: DB, next: DB, ctr: nat, n: NewWheel, project: string, serial: int, now: Time, name: string)
    requires next == InsertRow(db, ctr, n, project, serial, now) && n.file.filename != name
    ensures HasFilename(next.wheels, name) <==> HasFilename(db.wheels, name)
  {
    if !HasFilename(db.wheels, n.file.filename) {
      AddedKeepsName(db.wheels, NextId(db.wheels.Keys), NewRow(n, project, serial, ctr, now), name);
    }
  }

  lemma {:induction false} ChangeKeepsIndex(db: DB, ctr: nat, changed: seq<Changed>, now: Time)
    ensures var db' := ChangeRows(db, ctr, changed, now); db'.pypiIndex == db.pypiIndex && db'.unlinked == db.unlinked
    decreases |changed|
  {
    if changed != [] {
      ChangeKeepsIndex(ChangeRow(db, changed[0], ctr + 1, now), ctr + 1, changed[1..], now);
    }
  }

  lemma JobImports(db: DB, ctr: nat, j: Job, name: string)
    requires Planned(db.wheels, j)
    ensures var db' := AfterJob(db, ctr, j);
            && (name in db'.unlinked <==> name in db.unlinked && !IsFresh(db, j.remote, name))
            && (name in db'.unlinked ==> db'.unlinked[name] == db.unlinked[name])
            && db'.pypiIndex == db.pypiIndex[j.project := j.serial]
  {
    MidImports(db, ctr, j, name);
    SweepImports(db, ctr, j);
  }

  lemma SweepImports(db: DB, ctr: nat, j: Job)
    ensures var mid, after := Mid(db, ctr, j), AfterJob(db, ctr, j);
            after.unlinked == mid.unlinked && after.pypiIndex == mid.pypiIndex[j.project := j.serial]
  {
  }

  lemma MidImports(db: DB, ctr: nat, j: Job, name: string)
    requires Planned(db.wheels, j)
    ensures var mid := Mid(db, ctr, j);
            && (name in mid.unlinked <==> name in db.unlinked && !IsFresh(db, j.remote, name))
            && (name in mid.unlinked ==> mid.unlinked[name] == db.unlinked[name])
            && mid.pypiIndex == db.pypiIndex
  {
    InsertedImports(db, ctr, j, name);
    UpdateImports(db, Inserts(db, ctr, j), ctr + |PlanNew(j.newKeys, j.remote, db.unlinked)|, j);
  }

  lemma UpdateImports(db: DB, inserted: DB, ctr: nat, j: Job)
    ensures var mid := Updates(db, inserted, ctr, j);
            mid.unlinked == inserted.unlinked && mid.pypiIndex == inserted.pypiIndex
  {
    ChangeKeepsIndex(inserted, ctr, PlanChanged(j.common, db.wheels, j.remote), j.now);
  }

  lemma InsertedImports(db: DB, ctr: nat, j: Job, name: string)
    requires Planned(db.wheels, j)
    ensures var d1 := Inserts(db, ctr, j);
            && (name in d1.unlinked <==> name in db.unlinked && !IsFresh(db, j.remote, name))
            && (name in d1.unlinked ==> d1.unlinked[name] == db.unlinked[name])
            && d1.pypiIndex == db.pypiIndex
  {
    InsertUnlinks(db, ctr, j.newKeys, j.remote, db.unlinked, j.project, j.serial, j.now, name);
    InsertEffect(db, ctr, j.newKeys, j.remote, db.unlinked, j.project, j.serial, j.now);
    NewKey(db.wheels, j.project, j.remote, Key(0, name, 0));
  }

  lemma SyncImports(db: DB, ctr: nat, project: string, serial: int, files: seq<ProjectFile>, now: Time, name: string)
    ensures var db' := Synced(db, ctr, project, serial, files, now);
            && (name in db'.unlinked <==> name in db.unlinked && !IsFresh(db, RemoteFiles(files), name))
            && (name in db'.unlinked ==> db'.unlinked[name] == db.unlinked[name])
            && db'.pypiIndex == db.pypiIndex[project := serial]
  {
    var j := JobOf(db, project, serial, files, now);
    SyncedIsAfterJob(db, ctr, project, serial, files, now);
    JobImports(db, ctr, j, name);
  }

  lemma OutcomeImports(op: Op, db: DB, ctr: nat)
    requires op.FetchOk? || op.ConvertOk? || op.SkipOutcome? || op.RetryOutcome?
    ensures var db' := Committed(db, Run(op, db, ctr));
            db'.unlinked == db.unlinked && db'.pypiIndex == db.pypiIndex
  {
    if op.RetryOutcome? {
      RetryTables(db, ctr, op.stage, op.item, op.maxAttempts, op.now, op.due);
    }
  }

  lemma OtherImports(op: Op, db: DB, ctr: nat)
    requires !op.Sync?
    ensures var db' := Committed(db, Run(op, db, ctr));
            && db'.unlinked == db.unlinked
            && db'.pypiIndex == if op.Gone? then db.pypiIndex - {op.project} else db.pypiIndex
  {
    if op.FetchOk? || op.ConvertOk? || op.SkipOutcome? || op.RetryOutcome? {
      OutcomeImports(op, db, ctr);
    }
  }

  /** Imports leave `unlinked_blobs` exactly when their wheel is inserted; the index row of a project
      carries the serial of its last sync until the project is gone. */
  lemma OpImports(op: Op, db: DB, ctr: nat, name: string)
    ensures var db' := Committed(db, Run(op, db, ctr));
            && (name in db'.unlinked <==>
                  name in db.unlinked && !(op.Sync? && IsFresh(db, RemoteFiles(op.files), name)))
            && (name in db'.unlinked ==> db'.unlinked[name] == db.unlinked[name])
            && db'.pypiIndex == (if op.Sync? then db.pypiIndex[op.project := op.serial]
                                 else if op.Gone? then db.pypiIndex - {op.project} else db.pypiIndex)
  {
    match op
    case Sync(project, serial, files, now) =>
      SyncImports(db, ctr, project, serial, files, now, name);
    case _ => OtherImports(op, db, ctr);
  }
}
