/** The `fsck` checks that the write operations can break: for each, an operation that does, and
    exactly when every operation keeps it. */
module FsckChecks {
  import opened Prelude
  import opened SegmentFormat
  import opened Schema
  import opened WriteOps
  import opened Reconcile
  import opened Convergence
  import opened Pipeline
  import opened FsckViews

  // --------------------------------------------------------- checks 1b, 19 and 7b

  /** 1b_repodata_without_ready. */
  predicate Ok1b(v: View) { v.inRepodata ==> v.state == READY }

  /** 19_conda_name_outside_ready. */
  predicate Ok19(v: View) { v.conda.Some? ==> v.state == READY }

  /** 7b_deleted_at_without_deleted_state. */
  predicate Ok7b(v: View) { v.deleted ==> v.state == DELETED }

  predicate Check1b(db: DB) { forall id :: id in db.wheels ==> Ok1b(ViewOf(db, id)) }

  predicate Check19(db: DB) { forall id :: id in db.wheels ==> Ok19(ViewOf(db, id)) }

  predicate Check7b(db: DB) { forall id :: id in db.wheels ==> Ok7b(ViewOf(db, id)) }

  /** An outcome takes the wheel to a state other than READY. */
  predicate SetsBack(op: Op, db: DB, id: int) {
    match op
    case FetchOk(item, _, _) => id == item.id && NEED_CONVERT in AllowedTransitions(item.state)
    case SkipOutcome(_, item, _, _, _, _) => id == item.id && SKIPPED in AllowedTransitions(item.state)
    case RetryOutcome(stage, item, maxAttempts, _, _) => id == item.id && Quarantines(db, stage, item, maxAttempts)
    case _ => false
  }

  /** The operation takes the wheel to a state other than READY and keeps its repodata row and name:
      an outcome, a tombstone, or a revival. */
  predicate Demotes(op: Op, db: DB, id: int)
    requires id in db.wheels
  {
    var w := db.wheels[id];
    match op
    case Sync(project, _, files, _) =>
      OffPage(w, project, RemoteFiles(files)) || (OnPage(w, project, RemoteFiles(files)) && w.deletedAt.Some?)
    case Gone(project, _) => w.project == project && w.deletedAt.None?
    case _ => SetsBack(op, db, id)
  }

  lemma Demotes1b(op: Op, db: DB, id: int)
    requires id in db.wheels && Ok1b(ViewOf(db, id))
    ensures Ok1b(ViewAfter(op, db, id)) <==> !(Demotes(op, db, id) && id in db.repodata)
  {
  }

  /** Demoted, or put back in the convert queue. */
  predicate Unseats(op: Op, db: DB, id: int)
    requires id in db.wheels
  {
    Demotes(op, db, id) || (op.Reprocess? && id in op.ids)
  }

  lemma Demotes19(op: Op, db: DB, id: int)
    requires id in db.wheels && Ok19(ViewOf(db, id))
    ensures Ok19(ViewAfter(op, db, id)) <==> !(Unseats(op, db, id) && db.wheels[id].condaName.Some?)
  {
  }

  /** The operation writes a live state without reading whether the wheel is a tombstone. */
  predicate Raises(op: Op, db: DB, id: int) {
    || SetsBack(op, db, id)
    || (op.ConvertOk? && id == op.item.id && READY in AllowedTransitions(op.item.state))
    || (op.Reprocess? && id in op.ids)
  }

  lemma Raises7b(op: Op, db: DB, id: int)
    requires id in db.wheels && Ok7b(ViewOf(db, id))
    ensures Ok7b(ViewAfter(op, db, id)) <==> !(Raises(op, db, id) && db.wheels[id].deletedAt.Some?)
  {
  }

  /** Check 1b survives an operation if and only if no wheel it demotes has a repodata row: for sync and
      gone, no vanished or revived one. */
  lemma Keeps1bIff(op: Op, db: DB, ctr: nat)
    requires KeysOk(db) && Check1b(db)
    ensures Check1b(Committed(db, Run(op, db, ctr))) <==>
            forall id :: id in db.wheels && Demotes(op, db, id) ==> id !in db.repodata
  {
    var db' := Committed(db, Run(op, db, ctr));
    forall id | id in db.wheels
      ensures id in db'.wheels && (Ok1b(ViewOf(db', id)) <==> !(Demotes(op, db, id) && id in db.repodata))
    {
      OpView(op, db, ctr, id);
      Demotes1b(op, db, id);
    }
    forall id | id in db'.wheels && id !in db.wheels ensures Ok1b(ViewOf(db', id)) {
      FreshAfter(op, db, ctr, id);
    }
  }

  /** Check 19 survives if and only if no wheel demoted or reprocessed has a conda name. */
  lemma Keeps19Iff(op: Op, db: DB, ctr: nat)
    requires KeysOk(db) && Check19(db)
    ensures Check19(Committed(db, Run(op, db, ctr))) <==>
            forall id :: id in db.wheels && Unseats(op, db, id) ==> db.wheels[id].condaName.None?
  {
    var db' := Committed(db, Run(op, db, ctr));
    forall id | id in db.wheels
      ensures id in db'.wheels && (Ok19(ViewOf(db', id)) <==> !(Unseats(op, db, id) && db.wheels[id].condaName.Some?))
    {
      OpView(op, db, ctr, id);
      Demotes19(op, db, id);
    }
    forall id | id in db'.wheels && id !in db.wheels ensures Ok19(ViewOf(db', id)) {
      FreshAfter(op, db, ctr, id);
    }
  }

  /** Check 7b survives if and only if no outcome and no campaign writes to a tombstone. */
  lemma Keeps7bIff(op: Op, db: DB, ctr: nat)
    requires KeysOk(db) && Check7b(db)
    ensures Check7b(Committed(db, Run(op, db, ctr))) <==>
            forall id :: id in db.wheels && Raises(op, db, id) ==> db.wheels[id].deletedAt.None?
  {
    var db' := Committed(db, Run(op, db, ctr));
    forall id | id in db.wheels
      ensures id in db'.wheels && (Ok7b(ViewOf(db', id)) <==> !(Raises(op, db, id) && db.wheels[id].deletedAt.Some?))
    {
      OpView(op, db, ctr, id);
      Raises7b(op, db, id);
    }
    forall id | id in db'.wheels && id !in db.wheels ensures Ok7b(ViewOf(db', id)) {
      FreshAfter(op, db, ctr, id);
    }
  }

  // -------------------------------------------------------- checks 2, 13, 3 and 4

  predicate Resolved(blob: Option<Digest>, blobs: map<Digest, BlobLocation>) { blob.Some? && blob.value in blobs }

  /** 2_need_convert_without_blob. */
  predicate Ok2(v: View, blobs: map<Digest, BlobLocation>) { v.state == NEED_CONVERT ==> Resolved(v.blob, blobs) }

  /** 13_blob_sha256_unresolved. */
  predicate Ok13(v: View, blobs: map<Digest, BlobLocation>) { v.blob.Some? ==> v.blob.value in blobs }

  /** 3_need_metadata_with_blob. */
  predicate Ok3(v: View) { v.state == NEED_METADATA ==> v.blob.None? }

  /** 4_no_metadata_with_metadata_sha256. */
  predicate Ok4(v: View) { v.state == NO_METADATA ==> v.sidecar.None? }

  predicate Check2(db: DB) { forall id :: id in db.wheels ==> Ok2(ViewOf(db, id), db.blobs) }

  predicate Check13(db: DB) { forall id :: id in db.wheels ==> Ok13(ViewOf(db, id), db.blobs) }

  predicate Check3(db: DB) { forall id :: id in db.wheels ==> Ok3(ViewOf(db, id)) }

  predicate Check4(db: DB) { forall id :: id in db.wheels ==> Ok4(ViewOf(db, id)) }

  /** The outcome links a digest that has no row. */
  predicate LinksNothing(op: Op, db: DB, id: int) {
    op.FetchOk? && id == op.item.id && NEED_CONVERT in AllowedTransitions(op.item.state) && op.sha !in db.blobs
  }

  /** The stored wheel is queued for conversion with unresolved bytes. */
  predicate Strands(op: Op, db: DB, id: int)
    requires id in db.wheels
  {
    LinksNothing(op, db, id) || (op.Reprocess? && id in op.ids && !Resolved(db.wheels[id].blob, db.blobs))
  }

  /** The stored wheel is left with a blob that has no row: recovery drops the row of a tombstone's blob. */
  predicate Dangles(op: Op, db: DB, id: int)
    requires id in db.wheels
  {
    var w := db.wheels[id];
    LinksNothing(op, db, id) || (op.Recover? && w.state == DELETED && w.blob.Some? && w.blob.value in op.shas)
  }

  /** The blobs imported for the names that sync inserts have rows. */
  ghost predicate ImportsResolve(op: Op, db: DB) {
    op.Sync? ==>
      forall name :: IsFresh(db, RemoteFiles(op.files), name) && name in db.unlinked ==> db.unlinked[name] in db.blobs
  }

  predicate KeepsBlob(v: View, v': View) {
    && (v'.blob == v.blob || v'.blob.None?)
    && (v'.state == NEED_CONVERT ==> v.state == NEED_CONVERT && v'.blob == v.blob)
  }

  lemma CommonKeepsBlob(v: View, w: Wheel, file: ProjectFile)
    ensures KeepsBlob(v, CommonView(v, w, file))
  {
  }

  lemma SyncKeepsBlob(op: Op, db: DB, id: int)
    requires op.Sync? && id in db.wheels
    ensures KeepsBlob(ViewOf(db, id), ViewAfter(op, db, id))
  {
    var w, remote := db.wheels[id], RemoteFiles(op.files);
    if OnPage(w, op.project, remote) {
      CommonKeepsBlob(ViewOf(db, id), w, remote[w.filename]);
    }
  }

  lemma StrandsView(op: Op, db: DB, id: int)
    requires id in db.wheels && Ok2(ViewOf(db, id), db.blobs)
    ensures Ok2(ViewAfter(op, db, id), BlobsAfter(op, db)) <==> !Strands(op, db, id)
  {
    if op.Sync? {
      SyncKeepsBlob(op, db, id);
    }
  }

  lemma DanglesView(op: Op, db: DB, id: int)
    requires id in db.wheels && Ok13(ViewOf(db, id), db.blobs)
    ensures Ok13(ViewAfter(op, db, id), BlobsAfter(op, db)) <==> !Dangles(op, db, id)
  {
    if op.Sync? {
      SyncKeepsBlob(op, db, id);
    }
  }

  lemma FreshResolves(op: Op, db: DB, ctr: nat, id: int)
    requires KeysOk(db) && id !in db.wheels && id in Committed(db, Run(op, db, ctr)).wheels
    requires ImportsResolve(op, db)
    ensures var db' := Committed(db, Run(op, db, ctr));
            Ok2(ViewOf(db', id), db.blobs) && Ok13(ViewOf(db', id), db.blobs)
  {
    FreshAfter(op, db, ctr, id);
  }

  lemma FreshStrands(op: Op, db: DB, ctr: nat) returns (id: int)
    requires KeysOk(db) && !ImportsResolve(op, db)
    ensures var db' := Committed(db, Run(op, db, ctr));
            && id !in db.wheels && id in db'.wheels
            && !Ok2(ViewOf(db', id), db.blobs) && !Ok13(ViewOf(db', id), db.blobs)
  {
    var name :| IsFresh(db, RemoteFiles(op.files), name) && name in db.unlinked && db.unlinked[name] !in db.blobs;
    id := FreshInserted(db, ctr, op.project, op.serial, op.files, op.now, name);
    FreshAfter(op, db, ctr, id);
  }

  /** Check 2 survives if and only if everything the operation queues for conversion has resolved bytes:
      for a reprocess chunk, every listed wheel. */
  lemma Keeps2Iff(op: Op, db: DB, ctr: nat)
    requires KeysOk(db) && Check2(db)
    ensures Check2(Committed(db, Run(op, db, ctr))) <==>
            (forall id :: id in db.wheels ==> !Strands(op, db, id)) && ImportsResolve(op, db)
  {
    var db' := Committed(db, Run(op, db, ctr));
    OpBlobs(op, db, ctr);
    forall id | id in db.wheels
      ensures id in db'.wheels && (Ok2(ViewOf(db', id), db'.blobs) <==> !Strands(op, db, id))
    {
      OpView(op, db, ctr, id);
      StrandsView(op, db, id);
    }
    if ImportsResolve(op, db) {
      forall id | id in db'.wheels && id !in db.wheels ensures Ok2(ViewOf(db', id), db'.blobs) {
        FreshResolves(op, db, ctr, id);
        FreshAfter(op, db, ctr, id);
      }
    } else {
      var id := FreshStrands(op, db, ctr);
    }
  }

  /** Check 13 survives if and only if no fetch outcome and no import links a digest without a row, and
      recovery drops no row that a tombstone points to. */
  lemma Keeps13Iff(op: Op, db: DB, ctr: nat)
    requires KeysOk(db) && Check13(db)
    ensures Check13(Committed(db, Run(op, db, ctr))) <==>
            (forall id :: id in db.wheels ==> !Dangles(op, db, id)) && ImportsResolve(op, db)
  {
    var db' := Committed(db, Run(op, db, ctr));
    OpBlobs(op, db, ctr);
    forall id | id in db.wheels
      ensures id in db'.wheels && (Ok13(ViewOf(db', id), db'.blobs) <==> !Dangles(op, db, id))
    {
      OpView(op, db, ctr, id);
      DanglesView(op, db, id);
    }
    if ImportsResolve(op, db) {
      forall id | id in db'.wheels && id !in db.wheels ensures Ok13(ViewOf(db', id), db'.blobs) {
        FreshResolves(op, db, ctr, id);
        FreshAfter(op, db, ctr, id);
      }
    } else {
      var id := FreshStrands(op, db, ctr);
    }
  }

  /** The stored wheel goes back for metadata while its blob stays. */
  predicate Rewinds(op: Op, db: DB, id: int)
    requires id in db.wheels
  {
    var w := db.wheels[id];
    match op
    case Unquarantine(ids, _) => id in ids && w.state == QUARANTINED && w.blob.Some?
    case Sync(project, _, files, _) =>
      GainsSidecar(w, project, RemoteFiles(files)) && w.blob.Some? && !BlobMismatch(w, RemoteFiles(files)[w.filename])
    case _ => false
  }

  lemma RewindsView(op: Op, db: DB, id: int)
    requires id in db.wheels && Ok3(ViewOf(db, id))
    ensures Ok3(ViewAfter(op, db, id)) <==> !Rewinds(op, db, id)
  {
  }

  /** Check 3 survives if and only if no wheel with a blob is sent back for metadata: for unquarantine,
      no listed QUARANTINED one. */
  lemma Keeps3Iff(op: Op, db: DB, ctr: nat)
    requires KeysOk(db) && Check3(db)
    ensures Check3(Committed(db, Run(op, db, ctr))) <==> forall id :: id in db.wheels ==> !Rewinds(op, db, id)
  {
    var db' := Committed(db, Run(op, db, ctr));
    forall id | id in db.wheels
      ensures id in db'.wheels && (Ok3(ViewOf(db', id)) <==> !Rewinds(op, db, id))
    {
      OpView(op, db, ctr, id);
      RewindsView(op, db, id);
    }
    forall id | id in db'.wheels && id !in db.wheels ensures Ok3(ViewOf(db', id)) {
      FreshAfter(op, db, ctr, id);
    }
  }

  /** What the page parser guarantees: a published hash is the hash of an advertised sidecar. */
  predicate HashMeansSidecar(files: seq<ProjectFile>) {
    forall f :: f in files && f.metadataSha256.Some? ==> f.hasMetadata
  }

  lemma SidecarView(op: Op, db: DB, id: int)
    requires id in db.wheels && Ok4(ViewOf(db, id)) && (op.Sync? ==> HashMeansSidecar(op.files))
    ensures Ok4(ViewAfter(op, db, id))
  {
  }

  /** Check 4 survives every operation, for the pages the parser produces. */
  lemma Keeps4(op: Op, db: DB, ctr: nat)
    requires KeysOk(db) && Check4(db) && (op.Sync? ==> HashMeansSidecar(op.files))
    ensures Check4(Committed(db, Run(op, db, ctr)))
  {
    var db' := Committed(db, Run(op, db, ctr));
    forall id | id in db'.wheels ensures Ok4(ViewOf(db', id)) {
      if id in db.wheels {
        OpView(op, db, ctr, id);
        SidecarView(op, db, id);
      } else {
        FreshAfter(op, db, ctr, id);
      }
    }
  }

  // ---------------------------------------------------------- checks 9b, 10 and 11

  /** 9b_non_permanent_skip_without_reroll_version. */
  predicate Ok9b(s: Skip) { s.permanent || s.version.Some? }

  predicate Check9b(db: DB) { forall k :: k in db.skips ==> Ok9b(db.skips[k]) }

  /** Check 9b survives if and only if a skip that is written is permanent or names a version. */
  lemma Keeps9bIff(op: Op, db: DB, ctr: nat)
    requires Check9b(db)
    ensures Check9b(Committed(db, Run(op, db, ctr))) <==> (Skips(op, db) ==> op.permanent || op.skipVersion.Some?)
  {
    var db' := Committed(db, Run(op, db, ctr));
    OpRowsOnlyGo(op, db, ctr);
    if op.SkipOutcome? {
      SkipRow(op, db, ctr);
      if Skips(op, db) {
        assert db'.skips[StageKey(op.item.id, op.stage)].version == if op.permanent then None else op.skipVersion;
      }
    }
  }

  /** 10_stale_skip. */
  predicate Check10(db: DB) { forall k :: k in db.skips && k.id in db.wheels ==> db.wheels[k.id].state == SKIPPED }

  /** The wheel leaves SKIPPED and this skips row of it stays. */
  predicate Outdates(op: Op, db: DB, k: StageKey)
    requires k in db.skips && k.id in db.wheels
  {
    var w := db.wheels[k.id];
    match op
    case FetchOk(item, _, _) => k.id == item.id && NEED_CONVERT in AllowedTransitions(item.state)
    case ConvertOk(item, _, _, _) => k.id == item.id && READY in AllowedTransitions(item.state)
    case RetryOutcome(stage, item, maxAttempts, _, _) => k.id == item.id && Quarantines(db, stage, item, maxAttempts)
    case Reprocess(ids, below, _) => k.id in ids && !(below.Some? && StaleSkip(db.skips[k], below.value))
    case Sync(project, _, files, _) =>
      var remote := RemoteFiles(files);
      || OffPage(w, project, remote)
      || (OnPage(w, project, remote) && (w.deletedAt.Some? || BlobMismatch(w, remote[w.filename])))
    case Gone(project, _) => w.project == project && w.deletedAt.None?
    case Recover(shas) => LinkedTo(w, shas)
    case _ => false
  }

  lemma OutdatesView(op: Op, db: DB, k: StageKey)
    requires k.id in db.wheels && k in db.skips && db.wheels[k.id].state == SKIPPED
    ensures (SkipAfter(op, db, k) ==> ViewAfter(op, db, k.id).state == SKIPPED) <==> !Outdates(op, db, k)
  {
  }

  lemma NewSkipView(op: Op, db: DB, k: StageKey)
    requires k.id in db.wheels && k !in db.skips && SkipAfter(op, db, k)
    ensures ViewAfter(op, db, k.id).state == SKIPPED
  {
  }

  /** Check 10 survives if and only if no wheel with a skips row leaves SKIPPED without it: for a
      reprocess chunk, every skips row of a listed wheel is a retryable one below the campaign's version. */
  lemma Keeps10Iff(op: Op, db: DB, ctr: nat)
    requires KeysOk(db) && Check10(db)
    ensures Check10(Committed(db, Run(op, db, ctr))) <==>
            forall k :: k in db.skips && k.id in db.wheels ==> !Outdates(op, db, k)
  {
    var db' := Committed(db, Run(op, db, ctr));
    SkippedIds(op, db, ctr);
    forall k: StageKey | k.id in db.wheels
      ensures k.id in db'.wheels && (k in db'.skips <==> SkipAfter(op, db, k))
      ensures k in db.skips ==> ((k in db'.skips ==> db'.wheels[k.id].state == SKIPPED) <==> !Outdates(op, db, k))
      ensures k !in db.skips && k in db'.skips ==> db'.wheels[k.id].state == SKIPPED
    {
      OpView(op, db, ctr, k.id);
      OpSkips(op, db, ctr, k);
      if k in db.skips {
        OutdatesView(op, db, k);
      } else if SkipAfter(op, db, k) {
        NewSkipView(op, db, k);
      }
    }
  }

  /** Skips rows are rows of stored wheels, also afterwards. */
  lemma SkippedIds(op: Op, db: DB, ctr: nat)
    requires KeysOk(db)
    ensures forall k :: k in Committed(db, Run(op, db, ctr)).skips ==> k.id in db.wheels
  {
    OpRowsOnlyGo(op, db, ctr);
    if op.SkipOutcome? {
      SkipRow(op, db, ctr);
    }
  }

  /** The states in which a wheel has no work left. */
  predicate Terminal(s: WheelState) { s in {READY, SKIPPED, NO_METADATA, DELETED} }

  /** 11_work_row_for_terminal_wheel. */
  predicate Check11(db: DB) { forall k :: k in db.work && k.id in db.wheels ==> !Terminal(db.wheels[k.id].state) }

  /** The wheel reaches a terminal state and this work row of it stays: an outcome clears the row of its
      own stage only, a tombstone and a revival clear none. */
  predicate Abandons(op: Op, db: DB, k: StageKey)
    requires k.id in db.wheels
  {
    var w := db.wheels[k.id];
    match op
    case ConvertOk(item, _, _, _) => k == StageKey(item.id, FETCH) && READY in AllowedTransitions(item.state)
    case SkipOutcome(stage, item, _, _, _, _) =>
      k.id == item.id && k.stage != stage && SKIPPED in AllowedTransitions(item.state)
    case Sync(project, _, files, _) =>
      var remote := RemoteFiles(files);
      || OffPage(w, project, remote)
      || (OnPage(w, project, remote) && w.deletedAt.Some? && !remote[w.filename].hasMetadata)
    case Gone(project, _) => w.project == project && w.deletedAt.None?
    case _ => false
  }

  /** A retry below the maximum of a wheel that is done, by a claim that is out of date. */
  predicate RetriesDone(op: Op, db: DB) {
    && Retries(op, db) && Attempts(db, StageKey(op.item.id, op.stage)) + 1 <= op.maxAttempts
    && Terminal(db.wheels[op.item.id].state)
  }

  lemma CommonTerminal(v: View, w: Wheel, file: ProjectFile)
    requires v.state == w.state && !Terminal(w.state)
    ensures Terminal(CommonView(v, w, file).state) <==> w.deletedAt.Some? && !file.hasMetadata
  {
  }

  lemma AbandonsView(op: Op, db: DB, k: StageKey)
    requires k.id in db.wheels && k in db.work && !Terminal(db.wheels[k.id].state)
    ensures (WorkAfter(op, db, k) ==> !Terminal(ViewAfter(op, db, k.id).state)) <==> !Abandons(op, db, k)
  {
    match op
    case ConvertOk(item, condaName, version, now) => KeyStages(k);
    case Sync(project, serial, files, now) =>
      var w, remote := db.wheels[k.id], RemoteFiles(files);
      if OnPage(w, project, remote) {
        CommonTerminal(ViewOf(db, k.id), w, remote[w.filename]);
      }
    case _ =>
  }

  lemma NewWorkView(op: Op, db: DB, k: StageKey)
    requires k.id in db.wheels && k !in db.work
    ensures WorkAfter(op, db, k) <==> Retries(op, db) && k == StageKey(op.item.id, op.stage)
    ensures WorkAfter(op, db, k) ==> (Terminal(ViewAfter(op, db, k.id).state) <==> RetriesDone(op, db))
  {
  }

  /** Work rows are rows of stored wheels, also afterwards. */
  lemma WorkIds(op: Op, db: DB, ctr: nat)
    requires KeysOk(db)
    ensures forall k :: k in Committed(db, Run(op, db, ctr)).work ==> k.id in db.wheels
  {
    OpRowsOnlyGo(op, db, ctr);
    if op.RetryOutcome? {
      RetryWork(op, db, ctr);
    }
  }

  lemma DoneIsNew(op: Op, db: DB)
    requires Check11(db) && RetriesDone(op, db)
    ensures StageKey(op.item.id, op.stage) !in db.work
  {
  }

  /** Check 11 survives if and only if no wheel with a work row is finished or tombstoned, but by the
      outcome of that very row, and no finished wheel is retried. */
  lemma Keeps11Iff(op: Op, db: DB, ctr: nat)
    requires KeysOk(db) && Check11(db)
    ensures Check11(Committed(db, Run(op, db, ctr))) <==>
            (forall k :: k in db.work && k.id in db.wheels ==> !Abandons(op, db, k)) && !RetriesDone(op, db)
  {
    var db' := Committed(db, Run(op, db, ctr));
    WorkIds(op, db, ctr);
    forall k: StageKey | k.id in db.wheels
      ensures k.id in db'.wheels && (k in db'.work <==> WorkAfter(op, db, k))
      ensures k in db.work ==> ((k in db'.work ==> !Terminal(db'.wheels[k.id].state)) <==> !Abandons(op, db, k))
      ensures k !in db.work && k in db'.work ==> (Terminal(db'.wheels[k.id].state) <==> RetriesDone(op, db))
    {
      OpView(op, db, ctr, k.id);
      OpWork(op, db, ctr, k);
      if k in db.work {
        AbandonsView(op, db, k);
      } else {
        NewWorkView(op, db, k);
      }
    }
    if RetriesDone(op, db) {
      DoneIsNew(op, db);
      NewWorkView(op, db, StageKey(op.item.id, op.stage));
    }
  }

  // --------------------------------------------------------- checks 12a and 12b

  /** 12a_attempts_exceeds_max. */
  predicate Check12a(db: DB, max: nat) { forall k :: k in db.work ==> db.work[k].attempts <= max }

  /** 12b_max_attempts_without_quarantine. */
  predicate Check12b(db: DB, max: nat) {
    forall k :: k in db.work && db.work[k].attempts == max ==> db.work[k].quarantinedAt.Some?
  }

  lemma RowReplaced(work: map<StageKey, Work>, key: StageKey, row: Work)
    ensures key in work[key := row] && work[key := row][key] == row
    ensures forall k :: k in work[key := row] ==> k == key || (k in work && work[key := row][k] == work[k])
  {
  }

  /** Check 12a survives if and only if the operation is not a retry past the last attempt. */
  lemma Keeps12aIff(op: Op, db: DB, ctr: nat, max: nat)
    requires Check12a(db, max) && (op.RetryOutcome? ==> op.maxAttempts == max)
    ensures Check12a(Committed(db, Run(op, db, ctr)), max) <==>
            !(Retries(op, db) && Attempts(db, StageKey(op.item.id, op.stage)) == max)
  {
    OpRowsOnlyGo(op, db, ctr);
    if op.RetryOutcome? {
      RetryWork(op, db, ctr);
      RowReplaced(db.work, StageKey(op.item.id, op.stage), RetryRow(op, db));
    }
  }

  /** Check 12b survives if and only if the operation is not the retry that reaches the maximum on a row
      that is not quarantined. */
  lemma Keeps12bIff(op: Op, db: DB, ctr: nat, max: nat)
    requires Check12b(db, max) && (op.RetryOutcome? ==> op.maxAttempts == max)
    ensures Check12b(Committed(db, Run(op, db, ctr)), max) <==>
            !(&& Retries(op, db) && Attempts(db, StageKey(op.item.id, op.stage)) + 1 == max
              && !IsQuarantinedAt(db, StageKey(op.item.id, op.stage)))
  {
    OpRowsOnlyGo(op, db, ctr);
    if op.RetryOutcome? {
      RetryWork(op, db, ctr);
      RowReplaced(db.work, StageKey(op.item.id, op.stage), RetryRow(op, db));
    }
  }

  /** What every operation keeps instead: a row is quarantined exactly past the maximum. */
  predicate QuarantineRule(db: DB, max: nat) { forall k :: k in db.work ==> OkQuarantine(db.work[k], max) }

  predicate OkQuarantine(row: Work, max: nat) { row.quarantinedAt.Some? <==> row.attempts > max }

  lemma KeepsQuarantineRule(op: Op, db: DB, ctr: nat, max: nat)
    requires QuarantineRule(db, max) && (op.RetryOutcome? ==> op.maxAttempts == max)
    ensures QuarantineRule(Committed(db, Run(op, db, ctr)), max)
  {
    OpRowsOnlyGo(op, db, ctr);
    if op.RetryOutcome? {
      var key := StageKey(op.item.id, op.stage);
      RetryWork(op, db, ctr);
      RowReplaced(db.work, key, RetryRow(op, db));
      assert key in db.work ==> OkQuarantine(db.work[key], max);
    }
  }

  /** Every retry of the run is given the configured maximum. */
  predicate SameMax(ops: seq<Op>, max: nat) { forall op :: op in ops && op.RetryOutcome? ==> op.maxAttempts == max }

  /** Over every run, stale claims and double retries included: quarantined exactly past the maximum. */
  lemma {:induction false} RunKeepsQuarantineRule(ops: seq<Op>, db: DB, ctr: nat, max: nat)
    requires QuarantineRule(db, max) && SameMax(ops, max)
    ensures QuarantineRule(RunAll(ops, db, ctr).0, max)
    decreases |ops|
  {
    if ops != [] {
      assert ops[0] in ops;
      KeepsQuarantineRule(ops[0], db, ctr, max);
      RunKeepsQuarantineRule(ops[1..], Committed(db, Run(ops[0], db, ctr)), Run(ops[0], db, ctr).ctr, max);
    }
  }

  /** The bound as well: one attempt past the maximum, and that in quarantine. */
  predicate AttemptsRule(db: DB, max: nat) { forall k :: k in db.work ==> OkAttempts(db.work[k], max) }

  predicate OkAttempts(row: Work, max: nat) { row.attempts <= max + 1 && OkQuarantine(row, max) }

  /** The bound survives if and only if the operation is not a retry of a wheel already quarantined at
      the stage. */
  lemma KeepsAttemptsIff(op: Op, db: DB, ctr: nat, max: nat)
    requires AttemptsRule(db, max) && (op.RetryOutcome? ==> op.maxAttempts == max)
    ensures AttemptsRule(Committed(db, Run(op, db, ctr)), max) <==>
            !(Retries(op, db) && IsQuarantinedAt(db, StageKey(op.item.id, op.stage)))
  {
    OpRowsOnlyGo(op, db, ctr);
    if op.RetryOutcome? {
      var key := StageKey(op.item.id, op.stage);
      RetryWork(op, db, ctr);
      RowReplaced(db.work, key, RetryRow(op, db));
      assert key in db.work ==> OkAttempts(db.work[key], max);
    }
  }

  /** Every retry of the run is of a wheel that is not quarantined at its stage. Claims alone do not
      guarantee it: a wheel handed to convert right after archiving is not in flight there. */
  predicate FreshRetries(ops: seq<Op>, db: DB, ctr: nat, max: nat) {
    ops == [] ||
    (&& (ops[0].RetryOutcome? ==>
           ops[0].maxAttempts == max && !IsQuarantinedAt(db, StageKey(ops[0].item.id, ops[0].stage)))
     && FreshRetries(ops[1..], Committed(db, Run(ops[0], db, ctr)), Run(ops[0], db, ctr).ctr, max))
  }

  /** Over such a run, attempts never pass max + 1. */
  lemma {:induction false} RunKeepsAttempts(ops: seq<Op>, db: DB, ctr: nat, max: nat)
    requires AttemptsRule(db, max) && FreshRetries(ops, db, ctr, max)
    ensures AttemptsRule(RunAll(ops, db, ctr).0, max)
    decreases |ops|
  {
    if ops != [] {
      KeepsAttemptsIff(ops[0], db, ctr, max);
      RunKeepsAttempts(ops[1..], Committed(db, Run(ops[0], db, ctr)), Run(ops[0], db, ctr).ctr, max);
    }
  }

  // ------------------------------------------------------------------- witnesses

  function Row(state: WheelState, blob: Option<Digest>, conda: Option<string>): Wheel {
    Wheel("a.whl", "a", conda, state, 0, "u", None, None, None, None, None, false, None, blob, 1, 1, None, "t")
  }

  /** A table of one wheel. */
  function Table(w: Wheel): DB { DB(map[1 := w], map[], map[], map[], map[], map[], map[]) }

  function Claim(state: WheelState): Item { Item(1, "a", 0, state) }

  /** A converted wheel, with its repodata row and conda name. */
  function ReadyTable(): DB { Table(Row(READY, None, Some("a"))).(repodata := map[1 := "1"]) }

  lemma ReadyTableOk()
    ensures var db := ReadyTable(); Rules(db) && StrictRules(db) && Check1b(db) && Check19(db) && Check2(db)
  {
  }

  /** Its project disappears: the tombstone keeps the repodata row, */
  lemma GoneBreaks1b()
    ensures var db := ReadyTable(); Check1b(db) && !Check1b(Committed(db, Run(Gone("a", "t"), db, 1)))
  {
    ReadyTableOk();
    Keeps1bIff(Gone("a", "t"), ReadyTable(), 1);
    assert Demotes(Gone("a", "t"), ReadyTable(), 1);
  }

  /** and the conda name. */
  lemma GoneBreaks19()
    ensures var db := ReadyTable(); Check19(db) && !Check19(Committed(db, Run(Gone("a", "t"), db, 1)))
  {
    ReadyTableOk();
    Keeps19Iff(Gone("a", "t"), ReadyTable(), 1);
    assert Unseats(Gone("a", "t"), ReadyTable(), 1);
  }

  /** It is reprocessed: queued for conversion without a blob, */
  lemma ReprocessBreaks2()
    ensures var db := ReadyTable(); Check2(db) && !Check2(Committed(db, Run(Reprocess([1], None, "t"), db, 1)))
  {
    var op := Reprocess([1], None, "t");
    ReadyTableOk();
    Keeps2Iff(op, ReadyTable(), 1);
    assert 1 in op.ids && Strands(op, ReadyTable(), 1);
  }

  /** and still named. */
  lemma ReprocessBreaks19()
    ensures var db := ReadyTable(); Check19(db) && !Check19(Committed(db, Run(Reprocess([1], None, "t"), db, 1)))
  {
    var op := Reprocess([1], None, "t");
    ReadyTableOk();
    Keeps19Iff(op, ReadyTable(), 1);
    assert 1 in op.ids && Unseats(op, ReadyTable(), 1);
  }

  /** A wheel quarantined while converting has a blob; unquarantine sends it back for metadata with it. */
  lemma UnquarantineBreaks3(sha: Digest)
    ensures var w := Row(QUARANTINED, Some(sha), None);
            var db := Table(w).(work := map[StageKey(1, CONVERT) := Work(9, "t", Some("t"))]);
            Rules(db) && StrictRules(db) && Check3(db) && !Check3(Committed(db, Run(Unquarantine([1], "t"), db, 1)))
  {
    var w, op := Row(QUARANTINED, Some(sha), None), Unquarantine([1], "t");
    var db := Table(w).(work := map[StageKey(1, CONVERT) := Work(9, "t", Some("t"))]);
    assert StageKey(1, CONVERT) in db.work;
    Keeps3Iff(op, db, 1);
    assert 1 in op.ids && Rewinds(op, db, 1);
  }

  /** A wheel tombstoned after a campaign selected it is queued again, still marked deleted. */
  lemma ReprocessBreaks7b()
    ensures var db := Table(Tombstone(Row(SKIPPED, None, None), 1, "t"));
            && Rules(db) && StrictRules(db) && Check7b(db)
            && !Check7b(Committed(db, Run(Reprocess([1], None, "t"), db, 1)))
  {
    var db, op := Table(Tombstone(Row(SKIPPED, None, None), 1, "t")), Reprocess([1], None, "t");
    Keeps7bIff(op, db, 1);
    assert 1 in op.ids && Raises(op, db, 1);
  }

  /** A converting wheel whose bytes are in the archive. */
  function ConvertTable(loc: BlobLocation): DB {
    Table(Row(NEED_CONVERT, Some(loc.sha256), None)).(blobs := map[loc.sha256 := loc])
  }

  /** The skip of a corrupt blob: not permanent, and without a version. */
  lemma CorruptSkipBreaks9b(loc: BlobLocation)
    ensures var op := SkipOutcome(CONVERT, Claim(NEED_CONVERT), "corrupt_blob", false, None, "t");
            var db := ConvertTable(loc);
            && Rules(db) && StrictRules(db) && Check2(db) && Check13(db) && Check9b(db)
            && !Check9b(Committed(db, Run(op, db, 1)))
  {
    var op := SkipOutcome(CONVERT, Claim(NEED_CONVERT), "corrupt_blob", false, None, "t");
    Keeps9bIff(op, ConvertTable(loc), 1);
  }

  /** A campaign for skipped wheels names no version, so it deletes no skips row. */
  lemma SkippedOnlyBreaks10(skip: Skip)
    requires skip.permanent ==> skip.version.None?
    ensures var db := Table(Row(SKIPPED, None, None)).(skips := map[StageKey(1, CONVERT) := skip]);
            && Rules(db) && StrictRules(db) && Check10(db)
            && !Check10(Committed(db, Run(Reprocess([1], None, "t"), db, 1)))
  {
    var db := Table(Row(SKIPPED, None, None)).(skips := map[StageKey(1, CONVERT) := skip]);
    var op := Reprocess([1], None, "t");
    assert StageKey(1, CONVERT) in db.skips;
    Keeps10Iff(op, db, 1);
    assert 1 in op.ids && Outdates(op, db, StageKey(1, CONVERT));
  }

  /** A wheel waiting for its next attempt is tombstoned, and DELETED counts as terminal. */
  lemma GoneBreaks11()
    ensures var db := Table(Row(NEED_METADATA, None, None)).(work := map[StageKey(1, FETCH) := Work(1, "u", None)]);
            && Rules(db) && StrictRules(db) && Check11(db)
            && !Check11(Committed(db, Run(Gone("a", "t"), db, 1)))
  {
    var db := Table(Row(NEED_METADATA, None, None)).(work := map[StageKey(1, FETCH) := Work(1, "u", None)]);
    assert StageKey(1, FETCH) in db.work;
    Keeps11Iff(Gone("a", "t"), db, 1);
    assert Abandons(Gone("a", "t"), db, StageKey(1, FETCH));
  }

  /** Recovery drops a row that a tombstone still points to. */
  lemma RecoverBreaks13(loc: BlobLocation)
    ensures var sha := loc.sha256;
            var db := Table(Tombstone(Row(READY, Some(sha), None), 1, "t")).(blobs := map[sha := loc]);
            && Rules(db) && StrictRules(db) && Check13(db)
            && !Check13(Committed(db, Run(Recover({sha}), db, 1)))
  {
    var sha := loc.sha256;
    var db := Table(Tombstone(Row(READY, Some(sha), None), 1, "t")).(blobs := map[sha := loc]);
    Keeps13Iff(Recover({sha}), db, 1);
    assert Dangles(Recover({sha}), db, 1);
  }

  /** A wheel in the fetch queue after this many failed attempts. */
  function FailingTable(attempts: nat): DB {
    Table(Row(NEED_METADATA, None, None)).(work := map[StageKey(1, FETCH) := Work(attempts, "u", None)])
  }

  /** With a maximum of one: the first failure reaches it unquarantined, */
  lemma RetryBreaks12b()
    ensures var op, db := RetryOutcome(FETCH, Claim(NEED_METADATA), 1, "t", "u"), Table(Row(NEED_METADATA, None, None));
            && Rules(db) && StrictRules(db) && Check12b(db, 1) && Committed(db, Run(op, db, 1)) == FailingTable(1)
            && !Check12b(FailingTable(1), 1)
  {
    var op, db := RetryOutcome(FETCH, Claim(NEED_METADATA), 1, "t", "u"), Table(Row(NEED_METADATA, None, None));
    Keeps12bIff(op, db, 1, 1);
  }

  /** and the second passes it. */
  lemma RetryBreaks12a()
    ensures var op, db := RetryOutcome(FETCH, Claim(NEED_METADATA), 1, "t", "u"), FailingTable(1);
            Rules(db) && StrictRules(db) && Check12a(db, 1) && !Check12a(Committed(db, Run(op, db, 1)), 1)
  {
    var op, db := RetryOutcome(FETCH, Claim(NEED_METADATA), 1, "t", "u"), FailingTable(1);
    assert StageKey(1, FETCH) in db.work;
    Keeps12aIff(op, db, 1, 1);
  }

  /** A wheel handed to convert twice, by the archive thread and by a bulk claim, fails both times: the
      second retry finds it quarantined and writes max + 2. */
  lemma SecondRetryBreaksBound(sha: Digest)
    ensures var op, w := RetryOutcome(CONVERT, Claim(NEED_CONVERT), 1, "t", "u"), Row(QUARANTINED, Some(sha), None);
            var db := Table(w).(work := map[StageKey(1, CONVERT) := Work(2, "t", Some("t"))]);
            && Rules(db) && StrictRules(db) && AttemptsRule(db, 1)
            && Attempts(Committed(db, Run(op, db, 1)), StageKey(1, CONVERT)) == 3
            && !AttemptsRule(Committed(db, Run(op, db, 1)), 1)
  {
    var op, w := RetryOutcome(CONVERT, Claim(NEED_CONVERT), 1, "t", "u"), Row(QUARANTINED, Some(sha), None);
    var db := Table(w).(work := map[StageKey(1, CONVERT) := Work(2, "t", Some("t"))]);
    assert StageKey(1, CONVERT) in db.work;
    KeepsAttemptsIff(op, db, 1, 1);
  }
}
