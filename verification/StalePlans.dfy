/** A plan applied to rows that changed since they were read: `sync_project` reads a project's rows in
    pages and submits its write afterwards, and other writes may come in between. */
module StalePlans {
  import opened Prelude
  import opened Ordering
  import opened SegmentFormat
  import opened Schema
  import opened WriteOps
  import opened Reconcile
  import opened Convergence
  import opened Pipeline
  import opened FsckViews
  import FsckChecks

  /** No row is ever deleted, so the wheels that were read are still there. */
  predicate Within(read: Wheels, wheels: Wheels) { forall id :: id in read ==> id in wheels }

  /** The plan made from the rows `read` forgets this wheel's conversion. */
  predicate Replaces(read: Wheels, project: string, remote: Remote, id: int) {
    && id in read && OnPage(read[id], project, remote) && read[id].deletedAt.None?
    && BlobMismatch(read[id], remote[read[id].filename])
  }

  /** What that plan's update loop does to one stored wheel, */
  ghost predicate RowFrom(read: Wheels, w: Wheel, w': Wheel, project: string, remote: Remote, now: Time, id: int) {
    if id in read && OnPage(read[id], project, remote)
    then w' == Patched(w, read[id], remote[read[id].filename], id, w'.changeSeq, now)
    else w' == w
  }

  /** and to its side rows. */
  ghost predicate SidesFrom(read: Wheels, db: DB, db': DB, project: string, remote: Remote, id: int) {
    && (id in db'.repodata <==> id in db.repodata && !Replaces(read, project, remote, id))
    && forall stage :: StageKey(id, stage) in db'.skips <==>
         StageKey(id, stage) in db.skips &&
         !(IsNoSidecar(db.skips[StageKey(id, stage)]) && id in read && GainsSidecar(read[id], project, remote))
  }

  lemma NoKeys(read: Wheels, j: Job, id: int)
    requires Planned(read, j) && !(id in read && OnPage(read[id], j.project, j.remote))
    ensures forall k :: k in Elements(j.common) ==> k.id != id
  {
    forall k | k in Elements(j.common) ensures k.id != id {
      LocalKey(read, j.project, k);
    }
  }

  lemma CommonAreRead(read: Wheels, j: Job)
    requires Planned(read, j)
    ensures forall k :: k in Elements(j.common) ==>
              k.id in read && k.project in j.remote && k.project == read[k.id].filename
  {
    forall k | k in Elements(j.common) ensures k.id in read && k.project == read[k.id].filename {
      LocalKey(read, j.project, k);
    }
  }

  lemma RowAt(read: Wheels, db: DB, ctr: nat, j: Job, id: int)
    requires Planned(read, j) && Within(read, db.wheels)
    ensures var after := ChangeRows(db, ctr, PlanChanged(j.common, read, j.remote), j.now).wheels;
            && after.Keys == db.wheels.Keys
            && (id in db.wheels ==> RowFrom(read, db.wheels[id], after[id], j.project, j.remote, j.now, id))
  {
    CommonAreRead(read, j);
    PatchEffect(db, ctr, j.common, read, j.remote, j.now, id);
    if id in read && OnPage(read[id], j.project, j.remote) {
      var k := Key(0, read[id].filename, id);
      LocalKey(read, j.project, k);
      assert k in Elements(j.common);
    } else {
      NoKeys(read, j, id);
    }
  }

  /** Which side rows the loop deletes. */
  lemma Deleted(read: Wheels, j: Job, id: int)
    requires Planned(read, j)
    ensures Drops(j.common, read, j.remote, id) <==> Replaces(read, j.project, j.remote, id)
    ensures Gains(j.common, read, j.remote, id) <==> id in read && GainsSidecar(read[id], j.project, j.remote)
  {
    if id in read {
      DropsIff(read, j, id);
      GainsIff(read, j, id);
    } else {
      NoKeys(read, j, id);
    }
  }

  lemma SidesAt(read: Wheels, db: DB, ctr: nat, j: Job, id: int)
    requires Planned(read, j)
    ensures var db' := ChangeRows(db, ctr, PlanChanged(j.common, read, j.remote), j.now);
            SideRows(db, db') && SidesFrom(read, db, db', j.project, j.remote, id)
  {
    Deleted(read, j, id);
    ChangeSideRows(db, ctr, j.common, read, j.remote, j.now, id);
    var db' := ChangeRows(db, ctr, PlanChanged(j.common, read, j.remote), j.now);
    forall stage ensures StageKey(id, stage) in db'.skips <==>
                         StageKey(id, stage) in db.skips &&
                         !(IsNoSidecar(db.skips[StageKey(id, stage)]) && Gains(j.common, read, j.remote, id))
    {
      ChangeSkips(db, ctr, j.common, read, j.remote, j.now, StageKey(id, stage));
    }
  }

  // ----------------------------------------------------------------- the one hole

  /** The wheel waited for metadata with the wrong bytes when it was read, so the plan drops its repodata
      and leaves the state alone; by now it is READY. */
  predicate Hollows(read: Wheels, wheels: Wheels, project: string, remote: Remote, id: int) {
    && Replaces(read, project, remote, id) && read[id].state == NEED_METADATA
    && id in wheels && wheels[id].state == READY
  }

  lemma UpdatedConsistent(read: Wheels, db: DB, db': DB, project: string, remote: Remote, now: Time, id: int)
    requires id in db.wheels && id in db'.wheels && Consistent(db, id) && db'.work == db.work
    requires RowFrom(read, db.wheels[id], db'.wheels[id], project, remote, now, id)
    requires SidesFrom(read, db, db', project, remote, id)
    ensures Consistent(db', id) <==> !Hollows(read, db.wheels, project, remote, id)
  {
  }

  /** The rules hold of the tables, but for the wheels that are hollow. */
  ghost predicate RulesBut(read: Wheels, wheels: Wheels, db: DB, project: string, remote: Remote) {
    && SkipsOk(db.skips) && KeysOk(db)
    && forall id :: id in db.wheels ==> (Consistent(db, id) <==> !Hollows(read, wheels, project, remote, id))
  }

  lemma UpdatesKeepIff(read: Wheels, db: DB, ctr: nat, j: Job)
    requires Planned(read, j) && Within(read, db.wheels) && Rules(db)
    ensures var db' := ChangeRows(db, ctr, PlanChanged(j.common, read, j.remote), j.now);
            db'.wheels.Keys == db.wheels.Keys && RulesBut(read, db.wheels, db', j.project, j.remote)
  {
    var db' := ChangeRows(db, ctr, PlanChanged(j.common, read, j.remote), j.now);
    RowAt(read, db, ctr, j, 0);
    SidesAt(read, db, ctr, j, 0);
    forall id | id in db.wheels
      ensures Consistent(db', id) <==> !Hollows(read, db.wheels, j.project, j.remote, id)
    {
      RowAt(read, db, ctr, j, id);
      SidesAt(read, db, ctr, j, id);
      UpdatedConsistent(read, db, db', j.project, j.remote, j.now, id);
    }
  }

  /** Tombstones of wheels off the page neither make nor fill a hole. */
  lemma SweepKeepsIff(read: Wheels, wheels: Wheels, db: DB, ctr: nat, vanished: seq<int>, project: string,
                      remote: Remote, now: Time)
    requires RulesBut(read, wheels, db, project, remote)
    requires forall id :: id in vanished ==> !Hollows(read, wheels, project, remote, id)
    ensures RulesBut(read, wheels, db.(wheels := TombstoneRows(db.wheels, ctr, vanished, now)), project, remote)
  {
    var db' := db.(wheels := TombstoneRows(db.wheels, ctr, vanished, now));
    TombstoneEffect(db.wheels, ctr, vanished, now, 0);
    forall id | id in db'.wheels
      ensures Consistent(db', id) <==> !Hollows(read, wheels, project, remote, id)
    {
      TombstoneEffect(db.wheels, ctr, vanished, now, id);
      assert Consistent(db, id) <==> !Hollows(read, wheels, project, remote, id);
    }
  }

  lemma VanishedOffPage(read: DB, project: string, serial: int, files: seq<ProjectFile>, wheels: Wheels, id: int)
    requires id in SyncPlan(read, project, serial, files).vanished
    ensures !Hollows(read.wheels, wheels, project, RemoteFiles(files), id)
  {
    var keys := VanishedKeys(read.wheels, project, RemoteFiles(files));
    SortedIsTable(keys);
    IdsMember(Sorted(keys), id);
    var k :| k in keys && k.id == id;
    LocalKey(read.wheels, project, k);
  }

  /** Only hollow wheels break the rules; the index row does not matter. */
  lemma HoleFree(read: Wheels, wheels: Wheels, db: DB, db': DB, project: string, remote: Remote)
    requires RulesBut(read, wheels, db, project, remote) && Within(read, db.wheels)
    requires db' == db.(pypiIndex := db'.pypiIndex)
    ensures Rules(db') <==> forall id :: id in read ==> !Hollows(read, wheels, project, remote, id)
  {
    forall id | id in db.wheels ensures Consistent(db', id) <==> Consistent(db, id) {
    }
  }

  lemma SameHoles(read: Wheels, wheels: Wheels, more: Wheels, db: DB, project: string, remote: Remote)
    requires Within(read, wheels) && forall id :: id in wheels ==> id in more && more[id] == wheels[id]
    requires RulesBut(read, more, db, project, remote)
    ensures RulesBut(read, wheels, db, project, remote)
  {
    forall id | id in db.wheels
      ensures Hollows(read, more, project, remote, id) <==> Hollows(read, wheels, project, remote, id)
    {
    }
  }

  /** The update loop, after the inserts took `db` to `d1`. */
  lemma ChangedStale(read: Wheels, db: DB, d1: DB, d2: DB, ctr: nat, changed: seq<Changed>, j: Job)
    requires Rules(d1) && Planned(read, j) && Within(read, db.wheels)
    requires forall id :: id in db.wheels ==> id in d1.wheels && d1.wheels[id] == db.wheels[id]
    requires changed == PlanChanged(j.common, read, j.remote) && d2 == ChangeRows(d1, ctr, changed, j.now)
    ensures Within(db.wheels, d2.wheels) && RulesBut(read, db.wheels, d2, j.project, j.remote)
  {
    UpdatesKeepIff(read, d1, ctr, j);
    SameHoles(read, db.wheels, d1.wheels, d2, j.project, j.remote);
  }

  /** The two loops before the tombstones. */
  lemma UpdatedStale(read: Wheels, db: DB, ctr: nat, plan: Plan, j: Job)
    requires Rules(db) && Planned(read, j) && Within(read, db.wheels)
    requires StartsOk(plan.newWheels) && plan.changed == PlanChanged(j.common, read, j.remote)
    ensures var d2 := Updated(db, ctr, plan, j.now);
            Within(db.wheels, d2.wheels) && RulesBut(read, db.wheels, d2, j.project, j.remote)
  {
    var d1 := InsertRows(db, ctr, plan.newWheels, plan.project, plan.serial, j.now);
    InsertKeeps(db, ctr, plan.newWheels, plan.project, plan.serial, j.now, false);
    ChangedStale(read, db, d1, Updated(db, ctr, plan, j.now), ctr + |plan.newWheels|, plan.changed, j);
  }

  /** A plan made from any rows read earlier, in however many pages, keeps the rules of the tables it is
      applied to if and only if no wheel on the page was read waiting for metadata with a blob that the
      page disowns and has become READY since. */
  lemma StalePlanKeepsRulesIff(read: DB, db: DB, ctr: nat, project: string, serial: int, files: seq<ProjectFile>,
                               now: Time)
    requires Rules(db) && Within(read.wheels, db.wheels)
    ensures Rules(ApplyPlan(db, ctr, SyncPlan(read, project, serial, files), now).db) <==>
            forall id :: id in read.wheels ==> !Hollows(read.wheels, db.wheels, project, RemoteFiles(files), id)
  {
    var remote, plan := RemoteFiles(files), SyncPlan(read, project, serial, files);
    JobIsPlanned(read, project, serial, files, now);
    PlanStartsOk(Sorted(NewKeys(read.wheels, project, remote)), remote, read.unlinked);
    UpdatedStale(read.wheels, db, ctr, plan, JobOf(read, project, serial, files, now));
    forall id | id in plan.vanished ensures !Hollows(read.wheels, db.wheels, project, remote, id) {
      VanishedOffPage(read, project, serial, files, db.wheels, id);
    }
    SweptStale(read.wheels, db, ctr, plan, project, remote, now);
  }

  lemma SweptStale(read: Wheels, db: DB, ctr: nat, plan: Plan, project: string, remote: Remote, now: Time)
    requires var d2 := Updated(db, ctr, plan, now);
             Within(read, db.wheels) && Within(db.wheels, d2.wheels) && RulesBut(read, db.wheels, d2, project, remote)
    requires forall id :: id in plan.vanished ==> !Hollows(read, db.wheels, project, remote, id)
    ensures Rules(ApplyPlan(db, ctr, plan, now).db) <==>
            forall id :: id in read ==> !Hollows(read, db.wheels, project, remote, id)
  {
    var d2, c2 := Updated(db, ctr, plan, now), ctr + |plan.newWheels| + |plan.changed|;
    SweepKeepsIff(read, db.wheels, d2, c2, plan.vanished, project, remote, now);
    TombstoneEffect(d2.wheels, c2, plan.vanished, now, 0);
    HoleFree(read, db.wheels, d2.(wheels := TombstoneRows(d2.wheels, c2, plan.vanished, now)),
             ApplyPlan(db, ctr, plan, now).db, project, remote);
  }

  // -------------------------------------------------------------------- a witness

  /** A wheel that unquarantine left waiting for metadata with the bytes it already has. */
  function Waiting(sha: Digest): DB { FsckChecks.Table(FsckChecks.Row(NEED_METADATA, Some(sha), None)) }

  /** It is fetched and converted while a plan for a page with another hash is on its way. */
  function Converting(sha: Digest): seq<Op> {
    [FetchOk(FsckChecks.Claim(NEED_METADATA), sha, "t"), ConvertOk(FsckChecks.Claim(NEED_CONVERT), "a", "1", "t")]
  }

  function PageOf(sha: Digest): seq<ProjectFile> {
    [ProjectFile("a.whl", "u", None, Some(sha), true, None, None, None, false, None)]
  }

  function Converted(sha: Digest): DB {
    var w := Fetched(FsckChecks.Row(NEED_METADATA, Some(sha), None), sha, 2, "t");
    FsckChecks.Table(w.(state := READY, changeSeq := 3, condaName := Some("a"))).(repodata := map[1 := "1"])
  }

  lemma ConvertedRun(sha: Digest)
    ensures RunAll(Converting(sha), Waiting(sha), 1) == (Converted(sha), 3)
    ensures Rules(Waiting(sha)) && Rules(Converted(sha))
  {
    var ops, db := Converting(sha), Waiting(sha);
    var next := Committed(db, Run(ops[0], db, 1));
    assert next == FsckChecks.Table(Fetched(db.wheels[1], sha, 2, "t"));
    assert Committed(next, Run(ops[1], next, 2)) == Converted(sha);
    assert ops[1..] == [ops[1]] && [ops[1]][1..] == [];
    assert RunAll([ops[1]], next, 2) == RunAll([], Converted(sha), 3);
  }

  lemma PageHasWheel(other: Digest)
    ensures "a.whl" in RemoteFiles(PageOf(other)) && RemoteFiles(PageOf(other))["a.whl"] == PageOf(other)[0]
  {
    assert PageOf(other)[..0] == [];
  }

  lemma WaitingIsHollow(sha: Digest, other: Digest)
    requires sha != other
    ensures Hollows(Waiting(sha).wheels, Converted(sha).wheels, "a", RemoteFiles(PageOf(other)), 1)
  {
    PageHasWheel(other);
  }

  /** The late plan leaves it READY without repodata. */
  lemma StalePlanHollows(sha: Digest, other: Digest)
    requires sha != other
    ensures var plan := SyncPlan(Waiting(sha), "a", 1, PageOf(other));
            && RunAll(Converting(sha), Waiting(sha), 1) == (Converted(sha), 3)
            && Rules(Waiting(sha)) && Rules(Converted(sha))
            && !Rules(ApplyPlan(Converted(sha), 3, plan, "t").db)
  {
    ConvertedRun(sha);
    WaitingIsHollow(sha, other);
    StalePlanKeepsRulesIff(Waiting(sha), Converted(sha), 3, "a", 1, PageOf(other), "t");
    assert 1 in Waiting(sha).wheels;
  }
}
