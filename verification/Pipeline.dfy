/** Every write operation of the pipeline against the consistency rules that `fsck.py` checks. */
module Pipeline {
  import opened Prelude
  import opened Ordering
  import opened SegmentFormat
  import opened Schema
  import opened WriteOps
  import opened Reconcile
  import opened Convergence

  datatype Op =
    | FetchOk(item: Item, sha: Digest, now: Time)
    | ConvertOk(item: Item, condaName: string, version: string, now: Time)
    | SkipOutcome(stage: Stage, item: Item, reason: string, permanent: bool, skipVersion: Option<string>, now: Time)
    | RetryOutcome(stage: Stage, item: Item, maxAttempts: nat, now: Time, due: Time)
    | Reprocess(ids: seq<int>, below: Option<string>, now: Time)
    | Unquarantine(ids: seq<int>, now: Time)
    | Sync(project: string, serial: int, files: seq<ProjectFile>, now: Time)
    | Gone(project: string, now: Time)
    | Recover(shas: set<Digest>)

  /** `Sync` is a plan built from the rows it is applied to. */
  function Run(op: Op, db: DB, ctr: nat): Applied {
    match op
    case FetchOk(item, sha, now) => OkFetch(db, ctr, item, sha, now)
    case ConvertOk(item, condaName, version, now) => OkConvert(db, ctr, item, condaName, version, now)
    case SkipOutcome(stage, item, reason, permanent, version, now) =>
      SkipWheel(db, ctr, stage, item, reason, permanent, version, now)
    case RetryOutcome(stage, item, maxAttempts, now, due) => RetryWheel(db, ctr, stage, item, maxAttempts, now, due)
    case Reprocess(ids, below, now) => ReprocessChunk(db, ctr, ids, below, now)
    case Unquarantine(ids, now) => UnquarantineChunk(db, ctr, ids, now)
    case Sync(project, serial, files, now) => ApplyPlan(db, ctr, SyncPlan(db, project, serial, files), now)
    case Gone(project, now) => ApplyGone(db, ctr, project, now)
    case Recover(shas) => Applied(RecoverChunk(db, shas), ctr, Done)
  }

  // ------------------------------------------------------------------ the rules

  predicate HasSkip(db: DB, id: int) {
    StageKey(id, FETCH) in db.skips || StageKey(id, CONVERT) in db.skips
  }

  predicate IsQuarantinedAt(db: DB, key: StageKey) {
    key in db.work && db.work[key].quarantinedAt.Some?
  }

  predicate HasQuarantine(db: DB, id: int) {
    IsQuarantinedAt(db, StageKey(id, FETCH)) || IsQuarantinedAt(db, StageKey(id, CONVERT))
  }

  predicate HasWork(db: DB, id: int) {
    StageKey(id, FETCH) in db.work || StageKey(id, CONVERT) in db.work
  }

  /** fsck 1a, 5, 6, 7a for one wheel. */
  predicate Consistent(db: DB, id: int)
    requires id in db.wheels
  {
    match db.wheels[id].state
    case READY => id in db.repodata
    case SKIPPED => HasSkip(db, id)
    case QUARANTINED => HasQuarantine(db, id)
    case DELETED => db.wheels[id].deletedAt.Some?
    case _ => true
  }

  /** fsck 11 (without tombstones), 7b, and no leftover fetch work once fetched. */
  predicate Strict(db: DB, id: int)
    requires id in db.wheels
  {
    && (db.wheels[id].state in {READY, SKIPPED} ==> !HasWork(db, id))
    && (db.wheels[id].state == NEED_CONVERT ==> StageKey(id, FETCH) !in db.work)
    && (db.wheels[id].deletedAt.Some? ==> db.wheels[id].state == DELETED)
  }

  /** fsck 9a. */
  predicate SkipsOk(skips: map<StageKey, Skip>) {
    forall k :: k in skips && skips[k].permanent ==> skips[k].version.None?
  }

  /** The child tables reference existing wheels. */
  predicate KeysOk(db: DB) {
    && (forall id :: id in db.repodata ==> id in db.wheels)
    && (forall k :: k in db.skips ==> k.id in db.wheels)
    && (forall k :: k in db.work ==> k.id in db.wheels)
  }

  predicate Rules(db: DB) {
    && SkipsOk(db.skips) && KeysOk(db)
    && forall id :: id in db.wheels ==> Consistent(db, id)
  }

  predicate StrictRules(db: DB) {
    forall id :: id in db.wheels ==> Strict(db, id)
  }

  lemma StageIs(key: StageKey, id: int)
    ensures key.id == id <==> key == StageKey(id, FETCH) || key == StageKey(id, CONVERT)
  {
    KeyStages(key);
  }

  lemma SkipExists(db: DB, id: int)
    ensures HasSkip(db, id) <==> exists k :: k in db.skips && k.id == id
  {
    if k :| k in db.skips && k.id == id {
      StageIs(k, id);
    }
    assert StageKey(id, FETCH).id == id && StageKey(id, CONVERT).id == id;
  }

  lemma QuarantineExists(db: DB, id: int)
    ensures HasQuarantine(db, id) <==> exists k :: k in db.work && k.id == id && db.work[k].quarantinedAt.Some?
  {
    if k :| k in db.work && k.id == id && db.work[k].quarantinedAt.Some? {
      StageIs(k, id);
    }
    assert StageKey(id, FETCH).id == id && StageKey(id, CONVERT).id == id;
  }

  /** The plain rules are the queries of checks 1a, 5, 6, 7a and 9a finding nothing, and the child tables
      referring to stored wheels. */
  lemma RulesIff(db: DB)
    ensures Rules(db) <==>
            && KeysOk(db)
            && (forall id :: id in db.wheels && db.wheels[id].state == READY ==> id in db.repodata)
            && (forall id :: id in db.wheels && db.wheels[id].state == SKIPPED ==>
                  exists k :: k in db.skips && k.id == id)
            && (forall id :: id in db.wheels && db.wheels[id].state == QUARANTINED ==>
                  exists k :: k in db.work && k.id == id && db.work[k].quarantinedAt.Some?)
            && (forall id :: id in db.wheels && db.wheels[id].state == DELETED ==> db.wheels[id].deletedAt.Some?)
            && (forall k :: k in db.skips && db.skips[k].permanent ==> db.skips[k].version.None?)
  {
    forall id
      ensures HasSkip(db, id) <==> exists k :: k in db.skips && k.id == id
      ensures HasQuarantine(db, id) <==> exists k :: k in db.work && k.id == id && db.work[k].quarantinedAt.Some?
    {
      SkipExists(db, id);
      QuarantineExists(db, id);
    }
    assert forall id :: id in db.wheels && Consistent(db, id) ==>
        && (db.wheels[id].state == READY ==> id in db.repodata) && (db.wheels[id].state == SKIPPED ==> HasSkip(db, id))
        && (db.wheels[id].state == QUARANTINED ==> HasQuarantine(db, id))
        && (db.wheels[id].state == DELETED ==> db.wheels[id].deletedAt.Some?);
  }

  /** The claimed state is still the stored one, and is the stage's queue state. */
  predicate Current(db: DB, stage: Stage, item: Item) {
    item.state == QueueState(stage) && (item.id in db.wheels ==> db.wheels[item.id].state == item.state)
  }

  /** What the strict rules assume: claimed states are current, and a campaign's chunk holds no tombstone.
      The source checks neither when it writes. The other operations read the rows they write. */
  predicate UpToDate(db: DB, op: Op) {
    match op
    case FetchOk(item, _, _) => Current(db, FETCH, item)
    case ConvertOk(item, _, _, _) => Current(db, CONVERT, item)
    case SkipOutcome(stage, item, _, _, _, _) => Current(db, stage, item)
    case RetryOutcome(stage, item, _, _, _) => Current(db, stage, item)
    case Reprocess(ids, _, _) => forall id :: id in ids && id in db.wheels ==> db.wheels[id].state != DELETED
    case _ => true
  }

  // --------------------------------------------------------- outcomes and chunks

  /** A wheel none of whose rows changed keeps its rules. */
  lemma Untouched(db: DB, db': DB, id: int)
    requires id in db.wheels && id in db'.wheels && db'.wheels[id] == db.wheels[id]
    requires id in db'.repodata <==> id in db.repodata
    requires forall stage :: StageKey(id, stage) in db'.skips <==> StageKey(id, stage) in db.skips
    requires forall stage :: StageKey(id, stage) in db'.work <==> StageKey(id, stage) in db.work
    requires forall stage :: StageKey(id, stage) in db.work ==>
               db'.work[StageKey(id, stage)] == db.work[StageKey(id, stage)]
    ensures Consistent(db, id) ==> Consistent(db', id)
    ensures Strict(db, id) ==> Strict(db', id)
  {
  }

  /** An outcome that advances one wheel and clears its work row at the stage. */
  ghost predicate Advances(db: DB, db': DB, key: StageKey, w: Wheel) {
    && key.id in db.wheels && db'.wheels == db.wheels[key.id := w] && db'.work == db.work - {key}
    && (forall id :: id in db.repodata ==> id in db'.repodata) && (forall id :: id in db'.repodata ==>
          id in db.repodata || id == key.id)
    && (forall k :: k in db.skips ==> k in db'.skips)
    && (forall k :: k in db'.skips ==> k in db.skips || k.id == key.id)
  }

  lemma AdvanceOthers(db: DB, db': DB, key: StageKey, w: Wheel, id: int)
    requires Advances(db, db', key, w) && id in db.wheels && id != key.id
    ensures id in db'.wheels && (Consistent(db, id) ==> Consistent(db', id)) && (Strict(db, id) ==> Strict(db', id))
  {
    Untouched(db, db', id);
  }

  lemma AdvanceKeys(db: DB, db': DB, key: StageKey, w: Wheel)
    requires Advances(db, db', key, w)
    ensures db'.wheels.Keys == db.wheels.Keys
  {
  }

  lemma FetchOkSelf(db: DB, db': DB, id: int, w: Wheel)
    requires Advances(db, db', StageKey(id, FETCH), w) && w.state == NEED_CONVERT
    requires w.deletedAt == db.wheels[id].deletedAt
    ensures Consistent(db', id)
    ensures Strict(db, id) && db.wheels[id].state == NEED_METADATA ==> Strict(db', id)
  {
  }

  lemma FetchOkAt(db: DB, ctr: nat, item: Item, sha: Digest, now: Time, id: int)
    requires id in db.wheels
    ensures var db' := Committed(db, OkFetch(db, ctr, item, sha, now));
            && db'.wheels.Keys == db.wheels.Keys
            && (Consistent(db, id) ==> Consistent(db', id))
            && (Strict(db, id) && Current(db, FETCH, item) ==> Strict(db', id))
  {
    var r := OkFetch(db, ctr, item, sha, now);
    if r.Applied? && item.id in db.wheels {
      var w := Fetched(db.wheels[item.id], sha, ctr + 1, now);
      AdvanceKeys(db, r.db, StageKey(item.id, FETCH), w);
      if id == item.id {
        FetchOkSelf(db, r.db, id, w);
      } else {
        AdvanceOthers(db, r.db, StageKey(item.id, FETCH), w, id);
      }
    } else if r.Applied? {
      Untouched(db, r.db, id);
    }
  }

  lemma FetchOkKeeps(db: DB, ctr: nat, item: Item, sha: Digest, now: Time)
    ensures Rules(db) ==> Rules(Committed(db, OkFetch(db, ctr, item, sha, now)))
    ensures StrictRules(db) && Current(db, FETCH, item) ==> StrictRules(Committed(db, OkFetch(db, ctr, item, sha, now)))
  {
    var db' := Committed(db, OkFetch(db, ctr, item, sha, now));
    forall id | id in db.wheels
      ensures db'.wheels.Keys == db.wheels.Keys
      ensures Consistent(db, id) ==> Consistent(db', id)
      ensures Strict(db, id) && Current(db, FETCH, item) ==> Strict(db', id)
    {
      FetchOkAt(db, ctr, item, sha, now, id);
    }
  }

  lemma ConvertOkSelf(db: DB, db': DB, id: int, w: Wheel)
    requires Advances(db, db', StageKey(id, CONVERT), w) && w.state == READY && w.deletedAt == db.wheels[id].deletedAt
    requires id in db'.repodata
    ensures Consistent(db', id)
    ensures Strict(db, id) && db.wheels[id].state == NEED_CONVERT ==> Strict(db', id)
  {
  }

  lemma ConvertOkAt(db: DB, ctr: nat, item: Item, condaName: string, version: string, now: Time, id: int)
    requires id in db.wheels
    ensures var db' := Committed(db, OkConvert(db, ctr, item, condaName, version, now));
            && db'.wheels.Keys == db.wheels.Keys
            && (Consistent(db, id) ==> Consistent(db', id))
            && (Strict(db, id) && Current(db, CONVERT, item) ==> Strict(db', id))
  {
    var r := OkConvert(db, ctr, item, condaName, version, now);
    if r.Applied? {
      var w := r.db.wheels[item.id];
      AdvanceKeys(db, r.db, StageKey(item.id, CONVERT), w);
      if id == item.id {
        ConvertOkSelf(db, r.db, id, w);
      } else {
        AdvanceOthers(db, r.db, StageKey(item.id, CONVERT), w, id);
      }
    }
  }

  lemma ConvertOkKeeps(db: DB, ctr: nat, item: Item, condaName: string, version: string, now: Time)
    ensures Rules(db) ==> Rules(Committed(db, OkConvert(db, ctr, item, condaName, version, now)))
    ensures StrictRules(db) && Current(db, CONVERT, item) ==>
          StrictRules(Committed(db, OkConvert(db, ctr, item, condaName, version, now)))
  {
    var db' := Committed(db, OkConvert(db, ctr, item, condaName, version, now));
    forall id | id in db.wheels
      ensures db'.wheels.Keys == db.wheels.Keys
      ensures Consistent(db, id) ==> Consistent(db', id)
      ensures Strict(db, id) && Current(db, CONVERT, item) ==> Strict(db', id)
    {
      ConvertOkAt(db, ctr, item, condaName, version, now, id);
    }
  }

  lemma KeyStages(key: StageKey)
    ensures key == StageKey(key.id, FETCH) || key == StageKey(key.id, CONVERT)
  {
    match key.stage
    case FETCH =>
    case CONVERT =>
  }

  lemma SkipSelf(db: DB, db': DB, key: StageKey, w: Wheel)
    requires Advances(db, db', key, w) && w.state == SKIPPED && w.deletedAt == db.wheels[key.id].deletedAt
    requires key in db'.skips
    ensures Consistent(db', key.id)
    ensures Strict(db, key.id) && db.wheels[key.id].state == NEED_CONVERT && key.stage == CONVERT ==>
              Strict(db', key.id)
  {
    KeyStages(key);
  }

  lemma SkipAt(db: DB, ctr: nat, stage: Stage, item: Item, reason: string, permanent: bool, version: Option<string>,
               now: Time, id: int)
    requires id in db.wheels
    ensures var db' := Committed(db, SkipWheel(db, ctr, stage, item, reason, permanent, version, now));
            && db'.wheels.Keys == db.wheels.Keys
            && (Consistent(db, id) ==> Consistent(db', id))
            && (Strict(db, id) && Current(db, stage, item) ==> Strict(db', id))
  {
    var r := SkipWheel(db, ctr, stage, item, reason, permanent, version, now);
    if r.Applied? {
      var w := r.db.wheels[item.id];
      AdvanceKeys(db, r.db, StageKey(item.id, stage), w);
      if id == item.id {
        SkipSelf(db, r.db, StageKey(item.id, stage), w);
      } else {
        AdvanceOthers(db, r.db, StageKey(item.id, stage), w, id);
      }
    }
  }

  lemma SkipKeeps(db: DB, ctr: nat, stage: Stage, item: Item, reason: string, permanent: bool,
                  version: Option<string>, now: Time)
    ensures Rules(db) ==> Rules(Committed(db, SkipWheel(db, ctr, stage, item, reason, permanent, version, now)))
    ensures StrictRules(db) && Current(db, stage, item) ==>
          StrictRules(Committed(db, SkipWheel(db, ctr, stage, item, reason, permanent, version, now)))
  {
    var db' := Committed(db, SkipWheel(db, ctr, stage, item, reason, permanent, version, now));
    forall id | id in db.wheels
      ensures db'.wheels.Keys == db.wheels.Keys
      ensures Consistent(db, id) ==> Consistent(db', id)
      ensures Strict(db, id) && Current(db, stage, item) ==> Strict(db', id)
    {
      SkipAt(db, ctr, stage, item, reason, permanent, version, now, id);
    }
  }

  lemma QuarantineAt(db: DB, db': DB, key: StageKey, w: Wheel, row: Work, id: int)
    requires key.id in db.wheels && w.state == QUARANTINED && w.deletedAt == db.wheels[key.id].deletedAt
    requires row.quarantinedAt.Some?
    requires db' == db.(wheels := db.wheels[key.id := w], work := db.work[key := row]) && id in db.wheels
    ensures db'.wheels.Keys == db.wheels.Keys && (Consistent(db, id) ==> Consistent(db', id))
    ensures Strict(db, id) && db.wheels[key.id].state == QueueState(key.stage) ==> Strict(db', id)
  {
    KeyStages(key);
    if id != key.id {
      Untouched(db, db', id);
    }
  }

  lemma BackoffAt(db: DB, db': DB, key: StageKey, row: Work, id: int)
    requires key.id in db.wheels && row.quarantinedAt == QuarantinedAt(db, key)
    requires db' == db.(work := db.work[key := row]) && id in db.wheels
    ensures Consistent(db, id) ==> Consistent(db', id)
    ensures Strict(db, id) && db.wheels[key.id].state == QueueState(key.stage) ==> Strict(db', id)
  {
    if id != key.id {
      Untouched(db, db', id);
    }
  }

  lemma RetryAt(db: DB, ctr: nat, stage: Stage, item: Item, maxAttempts: nat, now: Time, due: Time, id: int)
    requires id in db.wheels
    ensures var db' := Committed(db, RetryWheel(db, ctr, stage, item, maxAttempts, now, due));
            && db'.wheels.Keys == db.wheels.Keys
            && (Consistent(db, id) ==> Consistent(db', id))
            && (Strict(db, id) && Current(db, stage, item) ==> Strict(db', id))
  {
    var r, key := RetryWheel(db, ctr, stage, item, maxAttempts, now, due), StageKey(item.id, stage);
    if r.Applied? {
      if Attempts(db, key) + 1 > maxAttempts {
        QuarantineAt(db, r.db, key, r.db.wheels[item.id], r.db.work[key], id);
      } else {
        BackoffAt(db, r.db, key, r.db.work[key], id);
      }
    }
  }

  lemma RetryShape(db: DB, ctr: nat, stage: Stage, item: Item, maxAttempts: nat, now: Time, due: Time)
    requires RetryWheel(db, ctr, stage, item, maxAttempts, now, due).Applied?
    ensures var db' := RetryWheel(db, ctr, stage, item, maxAttempts, now, due).db;
            var key := StageKey(item.id, stage);
            && item.id in db.wheels && item.id in db'.wheels && key in db'.work
            && db'.wheels == db.wheels[item.id := db'.wheels[item.id]] && db'.work == db.work[key := db'.work[key]]
            && db'.skips == db.skips && db'.repodata == db.repodata
            && db'.blobs == db.blobs && db'.unlinked == db.unlinked
            && db'.wheels[item.id].blob == db.wheels[item.id].blob
            && db'.wheels[item.id].condaName == db.wheels[item.id].condaName
            && db'.wheels[item.id].state ==
               (if Attempts(db, key) + 1 > maxAttempts then QUARANTINED else db.wheels[item.id].state)
  {
    if Attempts(db, StageKey(item.id, stage)) + 1 <= maxAttempts {
      assert db.wheels == db.wheels[item.id := db.wheels[item.id]];
    }
  }

  lemma RetryTables(db: DB, ctr: nat, stage: Stage, item: Item, maxAttempts: nat, now: Time, due: Time)
    ensures var db' := Committed(db, RetryWheel(db, ctr, stage, item, maxAttempts, now, due));
            && db'.wheels.Keys == db.wheels.Keys && db'.skips == db.skips && db'.repodata == db.repodata
            && (forall k :: k in db'.work ==> k in db.work || (k == StageKey(item.id, stage) && item.id in db.wheels))
  {
    if RetryWheel(db, ctr, stage, item, maxAttempts, now, due).Applied? {
      RetryShape(db, ctr, stage, item, maxAttempts, now, due);
    }
  }

  lemma RetryKeeps(db: DB, ctr: nat, stage: Stage, item: Item, maxAttempts: nat, now: Time, due: Time)
    ensures Rules(db) ==> Rules(Committed(db, RetryWheel(db, ctr, stage, item, maxAttempts, now, due)))
    ensures StrictRules(db) && Current(db, stage, item) ==>
          StrictRules(Committed(db, RetryWheel(db, ctr, stage, item, maxAttempts, now, due)))
  {
    var db' := Committed(db, RetryWheel(db, ctr, stage, item, maxAttempts, now, due));
    RetryTables(db, ctr, stage, item, maxAttempts, now, due);
    forall id | id in db.wheels
      ensures Consistent(db, id) ==> Consistent(db', id)
      ensures Strict(db, id) && Current(db, stage, item) ==> Strict(db', id)
    {
      RetryAt(db, ctr, stage, item, maxAttempts, now, due, id);
    }
  }

  lemma ReprocessKeepsRules(db: DB, ctr: nat, ids: seq<int>, below: Option<string>, now: Time)
    requires Rules(db)
    ensures Rules(ReprocessChunk(db, ctr, ids, below, now).db)
  {
    var db' := ReprocessChunk(db, ctr, ids, below, now).db;
    RequeueRowsEffect(db.wheels, ids, ctr, now, 0);
    forall id | id in db'.wheels ensures Consistent(db', id) {
      RequeueRowsEffect(db.wheels, ids, ctr, now, id);
      assert Consistent(db, id);
    }
  }

  lemma ReprocessKeepsStrict(db: DB, ctr: nat, ids: seq<int>, below: Option<string>, now: Time)
    requires StrictRules(db) && UpToDate(db, Reprocess(ids, below, now))
    ensures StrictRules(ReprocessChunk(db, ctr, ids, below, now).db)
  {
    var db' := ReprocessChunk(db, ctr, ids, below, now).db;
    RequeueRowsEffect(db.wheels, ids, ctr, now, 0);
    forall id | id in db'.wheels ensures Strict(db', id) {
      RequeueRowsEffect(db.wheels, ids, ctr, now, id);
      assert Strict(db, id);
    }
  }

  lemma UnquarantineKeeps(db: DB, ctr: nat, ids: seq<int>, now: Time)
    ensures Rules(db) ==> Rules(UnquarantineChunk(db, ctr, ids, now).db)
    ensures StrictRules(db) ==> StrictRules(UnquarantineChunk(db, ctr, ids, now).db)
  {
    var db' := UnquarantineChunk(db, ctr, ids, now).db;
    RefetchRowsEffect(db.wheels, ids, ctr, now, 0);
    forall id | id in db'.wheels
      ensures Rules(db) ==> Consistent(db', id)
      ensures StrictRules(db) ==> Strict(db', id)
    {
      RefetchRowsEffect(db.wheels, ids, ctr, now, id);
      assert Rules(db) ==> Consistent(db, id);
      assert StrictRules(db) ==> Strict(db, id);
    }
  }

  lemma RecoverKeeps(db: DB, shas: set<Digest>)
    ensures Rules(db) ==> Rules(RecoverChunk(db, shas))
    ensures StrictRules(db) ==> StrictRules(RecoverChunk(db, shas))
  {
    var db' := RecoverChunk(db, shas);
    forall id | id in db'.wheels
      ensures Rules(db) ==> Consistent(db', id)
      ensures StrictRules(db) ==> Strict(db', id)
    {
      assert Rules(db) ==> Consistent(db, id);
      assert StrictRules(db) ==> Strict(db, id);
    }
  }

  // --------------------------------------------------------------------- ingest

  predicate BothRules(db: DB, strict: bool) {
    Rules(db) && (strict ==> StrictRules(db))
  }

  /** A newId id has no rows in the other tables. */
  lemma FreshAt(db: DB, db': DB, newId: int, w: Wheel, id: int)
    requires KeysOk(db) && newId !in db.wheels && w.state in {NEED_CONVERT, NEED_METADATA, NO_METADATA}
    requires w.deletedAt.None?
    requires db'.wheels == db.wheels[newId := w] && db'.repodata == db.repodata && db'.skips == db.skips
    requires db'.work == db.work
    requires id in db'.wheels
    ensures id in db.wheels ==> db'.wheels[id] == db.wheels[id]
    ensures (id in db.wheels ==> Consistent(db, id)) ==> Consistent(db', id)
    ensures (id in db.wheels ==> Strict(db, id)) ==> Strict(db', id)
  {
    if id in db.wheels {
      Untouched(db, db', id);
    }
  }

  lemma InsertOneKeeps(db: DB, ctr: nat, n: NewWheel, project: string, serial: int, now: Time, strict: bool)
    requires BothRules(db, strict) && n.state in {NEED_CONVERT, NEED_METADATA, NO_METADATA}
    ensures BothRules(InsertRow(db, ctr, n, project, serial, now), strict)
    ensures forall id :: id in db.wheels ==>
              id in InsertRow(db, ctr, n, project, serial, now).wheels
                  && InsertRow(db, ctr, n, project, serial, now).wheels[id] == db.wheels[id]
  {
    if !HasFilename(db.wheels, n.file.filename) {
      InsertedKeeps(db, InsertRow(db, ctr, n, project, serial, now), NextId(db.wheels.Keys),
                    NewRow(n, project, serial, ctr, now), strict);
    }
  }

  lemma InsertedKeeps(db: DB, db': DB, newId: int, w: Wheel, strict: bool)
    requires BothRules(db, strict) && newId !in db.wheels && w.state in {NEED_CONVERT, NEED_METADATA, NO_METADATA}
    requires w.deletedAt.None?
    requires db'.wheels == db.wheels[newId := w] && db'.repodata == db.repodata && db'.skips == db.skips
    requires db'.work == db.work
    ensures BothRules(db', strict)
            && forall id :: id in db.wheels ==> id in db'.wheels && db'.wheels[id] == db.wheels[id]
  {
    forall id | id in db'.wheels
      ensures Consistent(db', id) && (strict ==> Strict(db', id))
      ensures id in db.wheels ==> db'.wheels[id] == db.wheels[id]
    {
      FreshAt(db, db', newId, w, id);
    }
  }

  /** New wheels start in one of the queues, or without metadata. */
  predicate StartsOk(news: seq<NewWheel>) {
    forall n :: n in news ==> n.state in {NEED_CONVERT, NEED_METADATA, NO_METADATA}
  }

  lemma {:induction false} PlanStartsOk(keys: seq<Key>, remote: Remote, unlinked: map<string, Digest>)
    ensures StartsOk(PlanNew(keys, remote, unlinked))
    decreases |keys|
  {
    if keys != [] {
      PlanStartsOk(keys[1..], remote, unlinked);
    }
  }

  lemma {:induction false} InsertKeeps(db: DB, ctr: nat, news: seq<NewWheel>, project: string, serial: int, now: Time,
                                       strict: bool)
    requires BothRules(db, strict) && StartsOk(news)
    ensures var db' := InsertRows(db, ctr, news, project, serial, now);
            BothRules(db', strict)
            && forall id :: id in db.wheels ==> id in db'.wheels && db'.wheels[id] == db.wheels[id]
    decreases |news|
  {
    if news != [] {
      assert news[0] in news;
      InsertOneKeeps(db, ctr + 1, news[0], project, serial, now, strict);
      InsertKeeps(InsertRow(db, ctr + 1, news[0], project, serial, now), ctr + 1,
                  news[1..], project, serial, now, strict);
    }
  }

  lemma ChangeOneKeeps(db: DB, id: int, file: ProjectFile, ctr: nat, now: Time, strict: bool)
    requires BothRules(db, strict) && id in db.wheels && DiffCommon(id, db.wheels[id], file).Some?
    ensures BothRules(ChangeRow(db, DiffCommon(id, db.wheels[id], file).value, ctr, now), strict)
  {
    var c := DiffCommon(id, db.wheels[id], file).value;
    var db' := ChangeRow(db, c, ctr, now);
    forall i | i in db'.wheels
      ensures Consistent(db', i) && (strict ==> Strict(db', i))
    {
      assert Consistent(db, i);
      assert strict ==> Strict(db, i);
    }
  }

  lemma {:induction false} ChangeKeeps(db: DB, ctr: nat, keys: seq<Key>, base: Wheels, remote: Remote, now: Time,
                                       strict: bool)
    requires BothRules(db, strict) && DistinctIds(keys)
    requires forall k :: k in Elements(keys) ==> k.id in db.wheels && k.id in base && db.wheels[k.id] == base[k.id]
    ensures BothRules(ChangeRows(db, ctr, PlanChanged(keys, base, remote), now), strict)
    decreases |keys|
  {
    if keys != [] {
      assert keys == [keys[0]] + keys[1..];
      var k0 := keys[0];
      assert k0 in Elements(keys);
      if k0.project in remote && DiffCommon(k0.id, base[k0.id], remote[k0.project]).Some? {
        var c := DiffCommon(k0.id, base[k0.id], remote[k0.project]).value;
        var plan := PlanChanged(keys, base, remote);
        assert plan[0] == c && plan[1..] == PlanChanged(keys[1..], base, remote);
        ChangeOneKeeps(db, k0.id, remote[k0.project], ctr + 1, now, strict);
        ChangeKeeps(ChangeRow(db, c, ctr + 1, now), ctr + 1, keys[1..], base, remote, now, strict);
      } else {
        ChangeKeeps(db, ctr, keys[1..], base, remote, now, strict);
      }
    }
  }

  lemma TombstonesKeep(db: DB, ctr: nat, ids: seq<int>, now: Time, strict: bool)
    requires BothRules(db, strict)
    ensures BothRules(db.(wheels := TombstoneRows(db.wheels, ctr, ids, now)), strict)
  {
    var db' := db.(wheels := TombstoneRows(db.wheels, ctr, ids, now));
    TombstoneEffect(db.wheels, ctr, ids, now, 0);
    forall id | id in db'.wheels
      ensures Consistent(db', id) && (strict ==> Strict(db', id))
    {
      TombstoneEffect(db.wheels, ctr, ids, now, id);
      assert Consistent(db, id);
      assert strict ==> Strict(db, id);
    }
  }

  lemma UpdatesKeep(db: DB, ctr: nat, plan: Plan, common: seq<Key>, remote: Remote, now: Time, strict: bool)
    requires BothRules(db, strict) && DistinctIds(common) && StartsOk(plan.newWheels)
    requires forall k :: k in Elements(common) ==> k.id in db.wheels
    requires plan.changed == PlanChanged(common, db.wheels, remote)
    ensures BothRules(Updated(db, ctr, plan, now), strict)
  {
    InsertKeeps(db, ctr, plan.newWheels, plan.project, plan.serial, now, strict);
    var d1 := InsertRows(db, ctr, plan.newWheels, plan.project, plan.serial, now);
    ChangeKeeps(d1, ctr + |plan.newWheels|, common, db.wheels, remote, now, strict);
  }

  lemma SweepKeeps(db: DB, ctr: nat, plan: Plan, now: Time, strict: bool)
    requires BothRules(Updated(db, ctr, plan, now), strict)
    ensures BothRules(ApplyPlan(db, ctr, plan, now).db, strict)
  {
    var d2 := Updated(db, ctr, plan, now);
    var c2 := ctr + |plan.newWheels| + |plan.changed|;
    TombstonesKeep(d2, c2, plan.vanished, now, strict);
    IndexIrrelevant(d2.(wheels := TombstoneRows(d2.wheels, c2, plan.vanished, now)),
                    d2.pypiIndex[plan.project := plan.serial], strict);
  }

  lemma IndexIrrelevant(db: DB, index: map<string, int>, strict: bool)
    requires BothRules(db, strict)
    ensures BothRules(db.(pypiIndex := index), strict)
  {
    forall id | id in db.wheels
      ensures Consistent(db.(pypiIndex := index), id) && (strict ==> Strict(db.(pypiIndex := index), id))
    {
      assert Consistent(db, id);
      assert strict ==> Strict(db, id);
    }
  }

  lemma CommonIdsDistinct(wheels: Wheels, project: string, remote: Remote)
    ensures DistinctIds(Sorted(CommonKeys(wheels, project, remote)))
    ensures forall k :: k in Elements(Sorted(CommonKeys(wheels, project, remote))) ==> k.id in wheels
  {
    var s := CommonKeys(wheels, project, remote);
    SortedIsTable(s);
    forall k | k in s
      ensures k.lane == 0 && k.id in wheels && k.project == wheels[k.id].filename
    {
      LocalKey(wheels, project, k);
    }
    SortedDistinctIds(Sorted(s), wheels);
  }

  lemma SyncKeeps(db: DB, ctr: nat, project: string, serial: int, files: seq<ProjectFile>, now: Time, strict: bool)
    requires BothRules(db, strict)
    ensures BothRules(ApplyPlan(db, ctr, SyncPlan(db, project, serial, files), now).db, strict)
  {
    var remote := RemoteFiles(files);
    CommonIdsDistinct(db.wheels, project, remote);
    PlanStartsOk(Sorted(NewKeys(db.wheels, project, remote)), remote, db.unlinked);
    UpdatesKeep(db, ctr, SyncPlan(db, project, serial, files), Sorted(CommonKeys(db.wheels, project, remote)), remote,
                now, strict);
    SweepKeeps(db, ctr, SyncPlan(db, project, serial, files), now, strict);
  }

  lemma GoneKeeps(db: DB, ctr: nat, project: string, now: Time, strict: bool)
    requires BothRules(db, strict)
    ensures BothRules(ApplyGone(db, ctr, project, now).db, strict)
  {
    var ids := Ids(Sorted(LiveIds(db.wheels, project)));
    TombstonesKeep(db, ctr, ids, now, strict);
    IndexIrrelevant(db.(wheels := TombstoneRows(db.wheels, ctr, ids, now)), db.pypiIndex - {project}, strict);
  }

  // --------------------------------------------------------------- main results

  /** Every write operation keeps the rules, whatever the stored states; with current claims it also
      keeps the strict ones. */
  lemma OpKeepsRules(op: Op, db: DB, ctr: nat, strict: bool)
    requires BothRules(db, strict) && (strict ==> UpToDate(db, op))
    ensures BothRules(Committed(db, Run(op, db, ctr)), strict)
  {
    match op
    case FetchOk(item, sha, now) => FetchOkKeeps(db, ctr, item, sha, now);
    case ConvertOk(item, condaName, version, now) => ConvertOkKeeps(db, ctr, item, condaName, version, now);
    case SkipOutcome(stage, item, reason, permanent, version, now) =>
      SkipKeeps(db, ctr, stage, item, reason, permanent, version, now);
    case RetryOutcome(stage, item, maxAttempts, now, due) => RetryKeeps(db, ctr, stage, item, maxAttempts, now, due);
    case Reprocess(ids, below, now) =>
      ReprocessKeepsRules(db, ctr, ids, below, now);
      if strict {
        ReprocessKeepsStrict(db, ctr, ids, below, now);
      }
    case Unquarantine(ids, now) => UnquarantineKeeps(db, ctr, ids, now);
    case Sync(project, serial, files, now) => SyncKeeps(db, ctr, project, serial, files, now, strict);
    case Gone(project, now) => GoneKeeps(db, ctr, project, now, strict);
    case Recover(shas) => RecoverKeeps(db, shas);
  }

  /** The committed tables and the counter after a run of operations. */
  function RunAll(ops: seq<Op>, db: DB, ctr: nat): (DB, nat) {
    if ops == [] then (db, ctr)
    else RunAll(ops[1..], Committed(db, Run(ops[0], db, ctr)), Run(ops[0], db, ctr).ctr)
  }

  predicate RunUpToDate(ops: seq<Op>, db: DB, ctr: nat) {
    ops == [] ||
    (UpToDate(db, ops[0]) && RunUpToDate(ops[1..], Committed(db, Run(ops[0], db, ctr)), Run(ops[0], db, ctr).ctr))
  }

  /** The rules hold after every run from a database that satisfies them. */
  lemma {:induction false} RunKeepsRules(ops: seq<Op>, db: DB, ctr: nat, strict: bool)
    requires BothRules(db, strict) && (strict ==> RunUpToDate(ops, db, ctr))
    ensures BothRules(RunAll(ops, db, ctr).0, strict)
    decreases |ops|
  {
    if ops != [] {
      OpKeepsRules(ops[0], db, ctr, strict);
      RunKeepsRules(ops[1..], Committed(db, Run(ops[0], db, ctr)), Run(ops[0], db, ctr).ctr, strict);
    }
  }
}
