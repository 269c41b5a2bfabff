/** Applying a project's plan makes its live rows mirror the page, and re-planning reaches a fixpoint. */
module Convergence {
  import opened Prelude
  import opened Ordering
  import opened SegmentFormat
  import opened Schema
  import opened Reconcile

  // --------------------------------------------------------------- one row's diff

  /** All mirrored columns equal the page's. */
  predicate Mirrors(w: Wheel, file: ProjectFile) {
    && w.url == file.url && w.wheelSha256 == file.wheelSha256 && w.metadataSha256 == file.metadataSha256
    && w.size == file.size && w.uploadTime == file.uploadTime && w.requiresPython == file.requiresPython
    && w.yanked == file.yanked && w.yankedReason == file.yankedReason
  }

  /** Nothing left to do for this row. */
  predicate Settled(w: Wheel, file: ProjectFile) {
    && w.deletedAt.None? && Mirrors(w, file) && !BlobMismatch(w, file)
    && !(w.state == NO_METADATA && file.hasMetadata)
  }

  lemma DiffIffUnsettled(id: int, w: Wheel, file: ProjectFile)
    ensures DiffCommon(id, w, file).None? <==> Settled(w, file)
  {
    if w.deletedAt.None? && DiffCommon(id, w, file).None? {
      assert IfDiffers((w.yanked, w.yankedReason), (file.yanked, file.yankedReason)) == None;
    }
  }

  lemma PatchSettles(id: int, w: Wheel, file: ProjectFile, ctr: nat, now: Time)
    requires DiffCommon(id, w, file).Some?
    ensures Settled(Patch(w, DiffCommon(id, w, file).value.changes, ctr, now), file)
    ensures Patch(w, DiffCommon(id, w, file).value.changes, ctr, now).filename == w.filename
    ensures Patch(w, DiffCommon(id, w, file).value.changes, ctr, now).project == w.project
  {
  }

  /** A linked import differs from the hash the page publishes. */
  predicate LinkMismatch(file: ProjectFile, unlinked: Option<Digest>) {
    unlinked.Some? && file.metadataSha256.Some? && file.metadataSha256.value != unlinked.value
  }

  lemma NewRowSettles(file: ProjectFile, unlinked: Option<Digest>, project: string, serial: int, ctr: nat, now: Time)
    ensures var w := NewRow(PlanNewWheel(file, unlinked), project, serial, ctr, now);
            w.deletedAt.None? && Mirrors(w, file) && (Settled(w, file) <==> !LinkMismatch(file, unlinked))
  {
  }

  // ------------------------------------------------------------ what the keys are

  lemma LocalKey(wheels: Wheels, project: string, k: Key)
    ensures k in LocalKeys(wheels, project) <==>
            k.lane == 0 && k.id in wheels && wheels[k.id].project == project && k.project == wheels[k.id].filename
  {
    if k.lane == 0 && k.id in wheels && wheels[k.id].project == project && k.project == wheels[k.id].filename {
      assert k == Key(0, wheels[k.id].filename, k.id);
    }
  }

  ghost predicate HasProjectFile(wheels: Wheels, project: string, name: string) {
    exists id :: id in wheels && wheels[id].project == project && wheels[id].filename == name
  }

  lemma NewKey(wheels: Wheels, project: string, remote: Remote, k: Key)
    ensures k in NewKeys(wheels, project, remote) <==>
            k.lane == 0 && k.id == 0 && k.project in remote && !HasProjectFile(wheels, project, k.project)
  {
    var names := set id | id in wheels && wheels[id].project == project :: wheels[id].filename;
    assert k.project in names <==> HasProjectFile(wheels, project, k.project);
    if k.lane == 0 && k.id == 0 && k.project in remote.Keys - names {
      assert k == Key(0, k.project, 0);
    }
  }

  /** No two keys share an id. */
  predicate DistinctIds(keys: seq<Key>) {
    keys == [] || ((forall k :: k in Elements(keys[1..]) ==> k.id != keys[0].id) && DistinctIds(keys[1..]))
  }

  lemma {:induction false} SortedDistinctIds(keys: seq<Key>, wheels: Wheels)
    requires Ascending(keys)
    requires forall k :: k in Elements(keys) ==> k.lane == 0 && k.id in wheels && k.project == wheels[k.id].filename
    ensures DistinctIds(keys)
  {
    if keys != [] {
      assert keys == [keys[0]] + keys[1..];
      SortedDistinctIds(keys[1..], wheels);
      forall k | k in Elements(keys[1..]) ensures k.id != keys[0].id {
        assert Less(keys[0], k);
        LessIrreflexive(k);
      }
    }
  }

  // ------------------------------------------------------------------ insertions

  ghost predicate UniqueFilenames(wheels: Wheels) {
    forall i, j :: i in wheels && j in wheels && wheels[i].filename == wheels[j].filename ==> i == j
  }

  /** The row the plan inserts for this page file, up to its sequence number. */
  predicate IsPlanned(w: Wheel, remote: Remote, unlinked: map<string, Digest>, project: string, serial: int,
                      now: Time) {
    && w.filename in remote
    && w == NewRow(PlanNewWheel(remote[w.filename], Lookup(unlinked, w.filename)), project, serial, w.changeSeq, now)
  }

  ghost predicate NewKeyList(keys: seq<Key>, remote: Remote) {
    && Ascending(keys)
    && forall k :: k in Elements(keys) ==>
         k.lane == 0 && k.id == 0 && k.project in remote && remote[k.project].filename == k.project
  }

  ghost predicate Inserted(before: Wheels, after: Wheels, keys: seq<Key>, remote: Remote, unlinked: map<string, Digest>,
                           project: string, serial: int, now: Time) {
    && (forall id :: id in before ==> id in after && after[id] == before[id])
    && (forall id :: id in after && id !in before ==>
          Key(0, after[id].filename, 0) in Elements(keys)
          && IsPlanned(after[id], remote, unlinked, project, serial, now)
          && !HasFilename(before, after[id].filename))
    && (forall k :: k in Elements(keys) ==> HasFilename(after, k.project))
    && (UniqueFilenames(before) ==> UniqueFilenames(after))
  }

  lemma {:induction false} InsertEffect(db: DB, ctr: nat, keys: seq<Key>, remote: Remote, unlinked: map<string, Digest>,
                                        project: string, serial: int, now: Time)
    requires NewKeyList(keys, remote)
    ensures var db' := InsertRows(db, ctr, PlanNew(keys, remote, unlinked), project, serial, now);
            && Inserted(db.wheels, db'.wheels, keys, remote, unlinked, project, serial, now)
            && db'.(wheels := db.wheels, unlinked := db.unlinked) == db
    decreases |keys|
  {
    if keys != [] {
      assert keys == [keys[0]] + keys[1..];
      var name := keys[0].project;
      assert keys[0] in Elements(keys);
      var n := PlanNewWheel(remote[name], Lookup(unlinked, name));
      var news := PlanNew(keys, remote, unlinked);
      assert news[0] == n && news[1..] == PlanNew(keys[1..], remote, unlinked);
      var id := NextId(db.wheels.Keys);
      var row := NewRow(n, project, serial, ctr + 1, now);
      var next := InsertRow(db, ctr + 1, n, project, serial, now);
      InsertEffect(next, ctr + 1, keys[1..], remote, unlinked, project, serial, now);
      var db' := InsertRows(next, ctr + 1, news[1..], project, serial, now);
      if HasFilename(db.wheels, name) {
        InsertRefused(db.wheels, db'.wheels, keys, remote, unlinked, project, serial, now);
      } else {
        InsertStep(db.wheels, id, row, db'.wheels, keys, remote, unlinked, project, serial, now);
      }
    }
  }

  /** A filename already stored is refused, and the rest of the list goes on. */
  lemma InsertRefused(before: Wheels, after: Wheels, keys: seq<Key>, remote: Remote,
                      unlinked: map<string, Digest>, project: string, serial: int, now: Time)
    requires keys != [] && HasFilename(before, keys[0].project)
    requires Inserted(before, after, keys[1..], remote, unlinked, project, serial, now)
    ensures Inserted(before, after, keys, remote, unlinked, project, serial, now)
  {
    var id :| id in before && before[id].filename == keys[0].project;
    assert id in after && after[id].filename == keys[0].project;
  }

  lemma FewerNames(wheels: Wheels, id: int, row: Wheel, name: string)
    requires id !in wheels && HasFilename(wheels, name)
    ensures HasFilename(wheels[id := row], name)
  {
    var y :| y in wheels && wheels[y].filename == name;
    assert wheels[id := row][y].filename == name;
  }

  lemma InsertStep(before: Wheels, id: int, row: Wheel, after: Wheels, keys: seq<Key>, remote: Remote,
                   unlinked: map<string, Digest>, project: string, serial: int, now: Time)
    requires keys != [] && id !in before && keys[0] == Key(0, row.filename, 0) && !HasFilename(before, row.filename)
    requires IsPlanned(row, remote, unlinked, project, serial, now)
    requires Inserted(before[id := row], after, keys[1..], remote, unlinked, project, serial, now)
    ensures Inserted(before, after, keys, remote, unlinked, project, serial, now)
  {
    assert after[id] == row;
    assert HasFilename(after, row.filename);
    forall x | x in after && x !in before ensures !HasFilename(before, after[x].filename) {
      if HasFilename(before, after[x].filename) {
        FewerNames(before, id, row, after[x].filename);
      }
    }
    if UniqueFilenames(before) {
      assert UniqueFilenames(before[id := row]);
    }
  }

  // --------------------------------------------------------------------- updates

  /** The row after an update that was planned against the version of it that was read. */
  function Patched(w: Wheel, read: Wheel, file: ProjectFile, id: int, ctr: nat, now: Time): Wheel {
    var d := DiffCommon(id, read, file);
    if d.Some? then Patch(w, d.value.changes, ctr, now) else w
  }

  function ExpectedRow(w: Wheel, file: ProjectFile, id: int, ctr: nat, now: Time): Wheel {
    Patched(w, w, file, id, ctr, now)
  }

  lemma ChangeRowAt(db: DB, c: Changed, ctr: nat, now: Time, id: int)
    requires c.id in db.wheels
    ensures var next := ChangeRow(db, c, ctr, now);
            && next.wheels.Keys == db.wheels.Keys
            && (id in db.wheels && id != c.id ==> next.wheels[id] == db.wheels[id])
            && next.wheels[c.id] == Patch(db.wheels[c.id], c.changes, ctr, now)
  {
  }

  /** One patched row: the rows still to come are as they were. */
  lemma ChangeStep(db: DB, next: DB, c: Changed, ctr: nat, keys: seq<Key>, now: Time, id: int)
    requires keys != [] && c.id == keys[0].id && next == ChangeRow(db, c, ctr + 1, now)
    requires forall k :: k in Elements(keys) ==> k.id in db.wheels
    ensures next.wheels.Keys == db.wheels.Keys && (id in db.wheels && id != c.id ==> next.wheels[id] == db.wheels[id])
    ensures c.id in db.wheels && next.wheels[c.id] == Patch(db.wheels[c.id], c.changes, ctr + 1, now)
  {
    assert keys[0] in Elements(keys);
    ChangeRowAt(db, c, ctr + 1, now, id);
  }

  /** The update loop, against rows that need not be the ones the plan was made from. */
  lemma {:induction false} PatchEffect(db: DB, ctr: nat, keys: seq<Key>, read: Wheels, remote: Remote, now: Time,
                                       id: int)
    requires DistinctIds(keys)
    requires forall k :: k in Elements(keys) ==> k.id in db.wheels && k.id in read
    ensures var after := ChangeRows(db, ctr, PlanChanged(keys, read, remote), now).wheels;
            && after.Keys == db.wheels.Keys
            && (id in db.wheels && (forall k :: k in Elements(keys) ==> k.id != id) ==> after[id] == db.wheels[id])
            && (forall k :: k in Elements(keys) && k.id == id && k.project in remote ==>
                  after[id] == Patched(db.wheels[id], read[id], remote[k.project], id, after[id].changeSeq, now))
    decreases |keys|
  {
    if keys != [] {
      assert keys == [keys[0]] + keys[1..];
      var k0 := keys[0];
      assert k0 in Elements(keys);
      var plan := PlanChanged(keys, read, remote);
      if k0.project in remote && DiffCommon(k0.id, read[k0.id], remote[k0.project]).Some? {
        var c := DiffCommon(k0.id, read[k0.id], remote[k0.project]).value;
        assert plan[0] == c && plan[1..] == PlanChanged(keys[1..], read, remote);
        ChangeStep(db, ChangeRow(db, c, ctr + 1, now), c, ctr, keys, now, id);
        PatchEffect(ChangeRow(db, c, ctr + 1, now), ctr + 1, keys[1..], read, remote, now, id);
      } else {
        PatchEffect(db, ctr, keys[1..], read, remote, now, id);
      }
    }
  }

  lemma ChangeEffect(db: DB, ctr: nat, keys: seq<Key>, base: Wheels, remote: Remote, now: Time, id: int)
    requires DistinctIds(keys)
    requires forall k :: k in Elements(keys) ==> k.id in db.wheels && k.id in base && db.wheels[k.id] == base[k.id]
    ensures var after := ChangeRows(db, ctr, PlanChanged(keys, base, remote), now).wheels;
            && after.Keys == db.wheels.Keys
            && (id in db.wheels && (forall k :: k in Elements(keys) ==> k.id != id) ==> after[id] == db.wheels[id])
            && (forall k :: k in Elements(keys) && k.id == id && k.project in remote ==>
                  after[id] == ExpectedRow(base[id], remote[k.project], id, after[id].changeSeq, now))
  {
    PatchEffect(db, ctr, keys, base, remote, now, id);
  }

  lemma {:induction false} TombstoneEffect(wheels: Wheels, ctr: nat, ids: seq<int>, now: Time, id: int)
    ensures var after := TombstoneRows(wheels, ctr, ids, now);
            && after.Keys == wheels.Keys
            && (id in wheels && id !in ids ==> after[id] == wheels[id])
            && (id in wheels && id in ids ==> after[id] == Tombstone(wheels[id], after[id].changeSeq, now))
    decreases |ids|
  {
    if ids != [] {
      assert ids == [ids[0]] + ids[1..];
      var next := if ids[0] in wheels then wheels[ids[0] := Tombstone(wheels[ids[0]], ctr + 1, now)] else wheels;
      assert next.Keys == wheels.Keys;
      TombstoneEffect(next, ctr + 1, ids[1..], now, id);
    }
  }

  lemma {:induction false} IdsMember(keys: seq<Key>, id: int)
    ensures id in Ids(keys) <==> exists k :: k in Elements(keys) && k.id == id
    ensures |Ids(keys)| == |keys|
  {
    if keys != [] {
      IdsMember(keys[1..], id);
      assert keys == [keys[0]] + keys[1..];
    }
  }

  // ----------------------------------------------------------- the applied plan

  /** One reconciliation: the page, and the filename-ordered keys the planner walks. */
  datatype Job = Job(project: string, serial: int, remote: Remote,
                     newKeys: seq<Key>, common: seq<Key>, vanished: seq<Key>, now: Time)

  function JobOf(db: DB, project: string, serial: int, files: seq<ProjectFile>, now: Time): Job {
    var remote := RemoteFiles(files);
    Job(project, serial, remote, Sorted(NewKeys(db.wheels, project, remote)),
        Sorted(CommonKeys(db.wheels, project, remote)),
        Sorted(VanishedKeys(db.wheels, project, remote)), now)
  }

  /** No filename on the page belongs to another project's row. */
  ghost predicate OwnNames(wheels: Wheels, project: string, remote: Remote) {
    forall id :: id in wheels && wheels[id].filename in remote ==> wheels[id].project == project
  }

  /** The key lists enumerate the three sets the planner computes. */
  ghost predicate Planned(wheels: Wheels, j: Job) {
    && NewKeyList(j.newKeys, j.remote)
    && Elements(j.newKeys) == NewKeys(wheels, j.project, j.remote)
    && DistinctIds(j.common)
    && Elements(j.common) == CommonKeys(wheels, j.project, j.remote)
    && Elements(j.vanished) == VanishedKeys(wheels, j.project, j.remote)
  }

  lemma JobIsPlanned(db: DB, project: string, serial: int, files: seq<ProjectFile>, now: Time)
    ensures Planned(db.wheels, JobOf(db, project, serial, files, now))
  {
    var remote := RemoteFiles(files);
    var fresh_, common := NewKeys(db.wheels, project, remote), CommonKeys(db.wheels, project, remote);
    SortedIsTable(fresh_);
    SortedIsTable(common);
    SortedIsTable(VanishedKeys(db.wheels, project, remote));
    forall k | k in fresh_
      ensures k.lane == 0 && k.id == 0 && k.project in remote
    {
      NewKey(db.wheels, project, remote, k);
    }
    forall k | k in common
      ensures k.lane == 0 && k.id in db.wheels && k.project == db.wheels[k.id].filename
    {
      LocalKey(db.wheels, project, k);
    }
    SortedDistinctIds(Sorted(common), db.wheels);
  }

  function Inserts(db: DB, ctr: nat, j: Job): DB {
    InsertRows(db, ctr, PlanNew(j.newKeys, j.remote, db.unlinked), j.project, j.serial, j.now)
  }

  function Updates(db: DB, inserted: DB, ctr: nat, j: Job): DB {
    ChangeRows(inserted, ctr, PlanChanged(j.common, db.wheels, j.remote), j.now)
  }

  predicate IsCommon(wheels: Wheels, j: Job, id: int) {
    id in wheels && wheels[id].project == j.project && wheels[id].filename in j.remote
  }

  predicate IsVanished(wheels: Wheels, j: Job, id: int) {
    id in wheels && wheels[id].project == j.project && wheels[id].filename !in j.remote && wheels[id].deletedAt.None?
  }

  /** What the insert loop leaves at one id. */
  ghost predicate InsertedAt(db: DB, w1: Wheels, j: Job, id: int) {
    && (id in db.wheels ==> id in w1 && w1[id] == db.wheels[id])
    && (id in w1 && id !in db.wheels ==>
          IsPlanned(w1[id], j.remote, db.unlinked, j.project, j.serial, j.now)
          && Key(0, w1[id].filename, 0) in Elements(j.newKeys) && !HasFilename(db.wheels, w1[id].filename))
  }

  lemma InsertsRow(db: DB, ctr: nat, j: Job, id: int)
    requires Planned(db.wheels, j)
    ensures InsertedAt(db, Inserts(db, ctr, j).wheels, j, id)
  {
    InsertEffect(db, ctr, j.newKeys, j.remote, db.unlinked, j.project, j.serial, j.now);
  }

  /** What the update loop leaves at one id. */
  ghost predicate UpdatedAt(db: DB, w1: Wheels, w2: Wheels, j: Job, id: int) {
    && w2.Keys == w1.Keys
    && (id in w1 && !IsCommon(db.wheels, j, id) ==> w2[id] == w1[id])
    && (id in w1 && IsCommon(db.wheels, j, id) ==>
          w2[id] == ExpectedRow(db.wheels[id], j.remote[db.wheels[id].filename], id, w2[id].changeSeq, j.now))
  }

  lemma UpdatesRow(db: DB, inserted: DB, ctr: nat, j: Job, id: int)
    requires Planned(db.wheels, j)
    requires forall k :: k in Elements(j.common) ==>
          k.id in inserted.wheels && k.id in db.wheels && inserted.wheels[k.id] == db.wheels[k.id]
    ensures UpdatedAt(db, inserted.wheels, Updates(db, inserted, ctr, j).wheels, j, id)
  {
    ChangeEffect(inserted, ctr, j.common, db.wheels, j.remote, j.now, id);
    if IsCommon(db.wheels, j, id) {
      LocalKey(db.wheels, j.project, Key(0, db.wheels[id].filename, id));
      assert Key(0, db.wheels[id].filename, id) in Elements(j.common);
    } else {
      forall k | k in Elements(j.common) ensures k.id != id {
        LocalKey(db.wheels, j.project, k);
      }
    }
  }

  lemma CommonKept(db: DB, ctr: nat, j: Job)
    requires Planned(db.wheels, j)
    ensures var w1 := Inserts(db, ctr, j).wheels;
            forall k :: k in Elements(j.common) ==> k.id in w1 && k.id in db.wheels && w1[k.id] == db.wheels[k.id]
  {
    forall k | k in Elements(j.common)
      ensures var w1 := Inserts(db, ctr, j).wheels; k.id in w1 && k.id in db.wheels && w1[k.id] == db.wheels[k.id]
    {
      LocalKey(db.wheels, j.project, k);
      InsertsRow(db, ctr, j, k.id);
    }
  }

  lemma VanishedIds(wheels: Wheels, j: Job, id: int)
    requires Elements(j.vanished) == VanishedKeys(wheels, j.project, j.remote)
    ensures id in Ids(j.vanished) <==> IsVanished(wheels, j, id)
  {
    IdsMember(j.vanished, id);
    if IsVanished(wheels, j, id) {
      LocalKey(wheels, j.project, Key(0, wheels[id].filename, id));
      assert Key(0, wheels[id].filename, id) in Elements(j.vanished);
    }
    forall k | k in Elements(j.vanished) && k.id == id ensures IsVanished(wheels, j, id) {
      LocalKey(wheels, j.project, k);
    }
  }

  /** What the whole plan leaves at one id. */
  ghost predicate ReconciledAt(db: DB, after: Wheels, j: Job, id: int) {
    && (id in db.wheels ==> id in after)
    && (IsCommon(db.wheels, j, id) ==>
          after[id] == ExpectedRow(db.wheels[id], j.remote[db.wheels[id].filename], id, after[id].changeSeq, j.now))
    && (IsVanished(db.wheels, j, id) ==> after[id] == Tombstone(db.wheels[id], after[id].changeSeq, j.now))
    && (id in db.wheels && !IsCommon(db.wheels, j, id) && !IsVanished(db.wheels, j, id) ==> after[id] == db.wheels[id])
    && (id in after && id !in db.wheels ==>
          IsPlanned(after[id], j.remote, db.unlinked, j.project, j.serial, j.now)
          && Key(0, after[id].filename, 0) in Elements(j.newKeys) && !HasFilename(db.wheels, after[id].filename))
  }

  lemma CombineRows(db: DB, w1: Wheels, w2: Wheels, w3: Wheels, j: Job, id: int)
    requires InsertedAt(db, w1, j, id) && UpdatedAt(db, w1, w2, j, id)
    requires w3.Keys == w2.Keys
    requires id in w2 && !IsVanished(db.wheels, j, id) ==> w3[id] == w2[id]
    requires id in w2 && IsVanished(db.wheels, j, id) ==> w3[id] == Tombstone(w2[id], w3[id].changeSeq, j.now)
    ensures ReconciledAt(db, w3, j, id)
  {
  }

  function JobPlan(db: DB, j: Job): Plan {
    Plan(j.project, j.serial, PlanNew(j.newKeys, j.remote, db.unlinked), PlanChanged(j.common, db.wheels, j.remote),
         Ids(j.vanished))
  }

  /** A job's plan is the one `sync_project` makes. */
  lemma JobPlanIsSyncPlan(db: DB, project: string, serial: int, files: seq<ProjectFile>, now: Time)
    ensures JobPlan(db, JobOf(db, project, serial, files, now)) == SyncPlan(db, project, serial, files)
  {
  }

  function AfterJob(db: DB, ctr: nat, j: Job): DB {
    ApplyPlan(db, ctr, JobPlan(db, j), j.now).db
  }

  function Mid(db: DB, ctr: nat, j: Job): DB {
    Updates(db, Inserts(db, ctr, j), ctr + |PlanNew(j.newKeys, j.remote, db.unlinked)|, j)
  }

  lemma MidRow(db: DB, ctr: nat, j: Job, id: int)
    requires Planned(db.wheels, j)
    ensures UpdatedAt(db, Inserts(db, ctr, j).wheels, Mid(db, ctr, j).wheels, j, id)
  {
    CommonKept(db, ctr, j);
    UpdatesRow(db, Inserts(db, ctr, j), ctr + |PlanNew(j.newKeys, j.remote, db.unlinked)|, j, id);
  }

  function SweepCounter(db: DB, ctr: nat, j: Job): nat {
    ctr + |PlanNew(j.newKeys, j.remote, db.unlinked)| + |PlanChanged(j.common, db.wheels, j.remote)|
  }

  lemma SweepIsLast(db: DB, ctr: nat, j: Job)
    ensures AfterJob(db, ctr, j).wheels ==
        TombstoneRows(Mid(db, ctr, j).wheels, SweepCounter(db, ctr, j), Ids(j.vanished), j.now)
  {
  }

  lemma SweptAt(wheels: Wheels, w2: Wheels, ctr: nat, j: Job, id: int)
    requires Elements(j.vanished) == VanishedKeys(wheels, j.project, j.remote)
    ensures var w3 := TombstoneRows(w2, ctr, Ids(j.vanished), j.now);
            && w3.Keys == w2.Keys
            && (id in w2 && !IsVanished(wheels, j, id) ==> w3[id] == w2[id])
            && (id in w2 && IsVanished(wheels, j, id) ==> w3[id] == Tombstone(w2[id], w3[id].changeSeq, j.now))
  {
    VanishedIds(wheels, j, id);
    TombstoneEffect(w2, ctr, Ids(j.vanished), j.now, id);
  }

  /** The sweep only tombstones the vanished ids of what the first two loops left. */
  lemma SweepRow(db: DB, ctr: nat, j: Job, id: int)
    requires Elements(j.vanished) == VanishedKeys(db.wheels, j.project, j.remote)
    ensures var w2, w3 := Mid(db, ctr, j).wheels, AfterJob(db, ctr, j).wheels;
            && w3.Keys == w2.Keys
            && (id in w2 && !IsVanished(db.wheels, j, id) ==> w3[id] == w2[id])
            && (id in w2 && IsVanished(db.wheels, j, id) ==> w3[id] == Tombstone(w2[id], w3[id].changeSeq, j.now))
  {
    SweepIsLast(db, ctr, j);
    SweptAt(db.wheels, Mid(db, ctr, j).wheels, SweepCounter(db, ctr, j), j, id);
  }

  lemma ReconciledRow(db: DB, ctr: nat, j: Job, id: int)
    requires Planned(db.wheels, j)
    ensures ReconciledAt(db, AfterJob(db, ctr, j).wheels, j, id)
  {
    InsertsRow(db, ctr, j, id);
    MidRow(db, ctr, j, id);
    SweepRow(db, ctr, j, id);
    CombineRows(db, Inserts(db, ctr, j).wheels, Mid(db, ctr, j).wheels, AfterJob(db, ctr, j).wheels, j, id);
  }

  lemma NamesPresent(db: DB, ctr: nat, j: Job, name: string)
    requires Planned(db.wheels, j) && Key(0, name, 0) in Elements(j.newKeys) && !HasFilename(db.wheels, name)
    ensures HasFilename(AfterJob(db, ctr, j).wheels, name)
  {
    InsertEffect(db, ctr, j.newKeys, j.remote, db.unlinked, j.project, j.serial, j.now);
    var w1 := Inserts(db, ctr, j).wheels;
    assert HasFilename(w1, Key(0, name, 0).project);
    var id :| id in w1 && w1[id].filename == name;
    FreshRowStays(db, ctr, j, id);
  }

  lemma FreshRowStays(db: DB, ctr: nat, j: Job, id: int)
    requires Planned(db.wheels, j) && id in Inserts(db, ctr, j).wheels && id !in db.wheels
    ensures var after := AfterJob(db, ctr, j).wheels; id in after && after[id] == Inserts(db, ctr, j).wheels[id]
  {
    MidRow(db, ctr, j, id);
    SweepRow(db, ctr, j, id);
  }

  // ---------------------------------------------------------------- main results

  ghost predicate Live(wheels: Wheels, project: string, id: int) {
    id in wheels && wheels[id].project == project && wheels[id].deletedAt.None?
  }

  /** The project's live rows are exactly the page's wheels, with every mirrored column equal. */
  ghost predicate MirrorsPage(wheels: Wheels, project: string, remote: Remote) {
    && (forall id :: Live(wheels, project, id) ==>
          wheels[id].filename in remote && Mirrors(wheels[id], remote[wheels[id].filename]))
    && (forall name :: name in remote ==> exists id :: Live(wheels, project, id) && wheels[id].filename == name)
  }

  lemma ExpectedMirrors(w: Wheel, file: ProjectFile, id: int, ctr: nat, now: Time)
    ensures var w' := ExpectedRow(w, file, id, ctr, now);
            Settled(w', file) && w'.filename == w.filename && w'.project == w.project
  {
    DiffIffUnsettled(id, w, file);
    if DiffCommon(id, w, file).Some? {
      PatchSettles(id, w, file, ctr, now);
    }
  }

  /** One row after the plan: live exactly when on the page, mirrored, and settled unless
      freshly linked to other bytes. */
  ghost predicate RowDone(db: DB, w: Wheel, j: Job, isNew: bool) {
    && (w.project == j.project ==> (w.deletedAt.None? <==> w.filename in j.remote))
    && (w.filename in j.remote ==> w.project == j.project && Mirrors(w, j.remote[w.filename]))
    && (w.filename in j.remote && !isNew ==> Settled(w, j.remote[w.filename]))
    && (isNew ==> w.filename in j.remote && Key(0, w.filename, 0) in Elements(j.newKeys)
                  && (Settled(w, j.remote[w.filename]) <==>
                          !LinkMismatch(j.remote[w.filename], Lookup(db.unlinked, w.filename))))
  }

  lemma RowIsDone(db: DB, ctr: nat, j: Job, id: int)
    requires Planned(db.wheels, j) && OwnNames(db.wheels, j.project, j.remote) && id in AfterJob(db, ctr, j).wheels
    ensures RowDone(db, AfterJob(db, ctr, j).wheels[id], j, id !in db.wheels)
  {
    ReconciledRow(db, ctr, j, id);
    RowDoneAt(db, AfterJob(db, ctr, j).wheels, j, id);
  }

  lemma RowDoneAt(db: DB, after: Wheels, j: Job, id: int)
    requires OwnNames(db.wheels, j.project, j.remote) && id in after && ReconciledAt(db, after, j, id)
    ensures RowDone(db, after[id], j, id !in db.wheels)
    ensures id in db.wheels ==> after[id].filename == db.wheels[id].filename
                                 && after[id].project == db.wheels[id].project
  {
    var w' := after[id];
    if IsCommon(db.wheels, j, id) {
      ExpectedMirrors(db.wheels[id], j.remote[db.wheels[id].filename], id, w'.changeSeq, j.now);
    } else if id !in db.wheels {
      NewRowSettles(j.remote[w'.filename], Lookup(db.unlinked, w'.filename), j.project, j.serial, w'.changeSeq, j.now);
    }
  }

  /** Applying the plan mirrors the page and leaves every other project's rows alone. */
  lemma PlanMirrorsPage(db: DB, ctr: nat, j: Job)
    requires Planned(db.wheels, j) && OwnNames(db.wheels, j.project, j.remote)
    ensures MirrorsPage(AfterJob(db, ctr, j).wheels, j.project, j.remote)
    ensures OwnNames(AfterJob(db, ctr, j).wheels, j.project, j.remote)
    ensures forall id :: id in db.wheels && db.wheels[id].project != j.project ==>
              id in AfterJob(db, ctr, j).wheels && AfterJob(db, ctr, j).wheels[id] == db.wheels[id]
  {
    var after := AfterJob(db, ctr, j).wheels;
    forall id | id in after
      ensures RowDone(db, after[id], j, id !in db.wheels)
    {
      RowIsDone(db, ctr, j, id);
    }
    forall name | name in j.remote
      ensures exists id :: Live(after, j.project, id) && after[id].filename == name
    {
      PageFilePresent(db, ctr, j, name);
    }
    forall id | id in db.wheels && db.wheels[id].project != j.project
      ensures id in after && after[id] == db.wheels[id]
    {
      ReconciledRow(db, ctr, j, id);
    }
  }

  lemma OwnNameIsFree(wheels: Wheels, j: Job, name: string)
    requires OwnNames(wheels, j.project, j.remote) && name in j.remote && !HasProjectFile(wheels, j.project, name)
    ensures !HasFilename(wheels, name)
  {
  }

  lemma PageFilePresent(db: DB, ctr: nat, j: Job, name: string)
    requires Planned(db.wheels, j) && OwnNames(db.wheels, j.project, j.remote) && name in j.remote
    ensures exists id :: Live(AfterJob(db, ctr, j).wheels, j.project, id)
                      && AfterJob(db, ctr, j).wheels[id].filename == name
  {
    var after := AfterJob(db, ctr, j).wheels;
    var id: int;
    if HasProjectFile(db.wheels, j.project, name) {
      id :| id in db.wheels && db.wheels[id].project == j.project && db.wheels[id].filename == name;
      ReconciledRow(db, ctr, j, id);
      RowDoneAt(db, after, j, id);
    } else {
      NewKey(db.wheels, j.project, j.remote, Key(0, name, 0));
      OwnNameIsFree(db.wheels, j, name);
      NamesPresent(db, ctr, j, name);
      id :| id in after && after[id].filename == name;
      RowIsDone(db, ctr, j, id);
    }
    assert Live(after, j.project, id);
  }

  // -------------------------------------------------------------- the fixpoint

  lemma {:induction false} PlanNewEmpty(keys: seq<Key>, remote: Remote, unlinked: map<string, Digest>)
    requires forall k :: k in Elements(keys) ==> k.project in remote
    ensures PlanNew(keys, remote, unlinked) == [] <==> keys == []
  {
    if keys != [] {
      assert keys == [keys[0]] + keys[1..];
    }
  }

  lemma {:induction false} PlanChangedEmpty(keys: seq<Key>, wheels: Wheels, remote: Remote)
    requires forall k :: k in Elements(keys) ==> k.id in wheels && k.project in remote
    ensures PlanChanged(keys, wheels, remote) == [] <==>
            forall k :: k in Elements(keys) ==> Settled(wheels[k.id], remote[k.project])
  {
    if keys != [] {
      assert keys == [keys[0]] + keys[1..];
      PlanChangedEmpty(keys[1..], wheels, remote);
      DiffIffUnsettled(keys[0].id, wheels[keys[0].id], remote[keys[0].project]);
    }
  }

  /** Every row agrees with the page: nothing new, nothing vanished, everything common settled. */
  ghost predicate AllSettled(wheels: Wheels, j: Job) {
    && NewKeys(wheels, j.project, j.remote) == {}
    && VanishedKeys(wheels, j.project, j.remote) == {}
    && forall id :: IsCommon(wheels, j, id) ==> Settled(wheels[id], j.remote[wheels[id].filename])
  }

  predicate NothingToDo(db: DB, j: Job) {
    && PlanNew(j.newKeys, j.remote, db.unlinked) == []
    && PlanChanged(j.common, db.wheels, j.remote) == []
    && Ids(j.vanished) == []
  }

  lemma EmptyPlanIff(db: DB, j: Job)
    requires Planned(db.wheels, j)
    ensures NothingToDo(db, j) <==> AllSettled(db.wheels, j)
  {
    PlanNewEmpty(j.newKeys, j.remote, db.unlinked);
    forall k | k in Elements(j.common)
      ensures k.id in db.wheels && k.project in j.remote && IsCommon(db.wheels, j, k.id)
      ensures k.project == db.wheels[k.id].filename
    {
      LocalKey(db.wheels, j.project, k);
    }
    PlanChangedEmpty(j.common, db.wheels, j.remote);
    forall id | IsCommon(db.wheels, j, id)
      ensures Key(0, db.wheels[id].filename, id) in Elements(j.common)
    {
      LocalKey(db.wheels, j.project, Key(0, db.wheels[id].filename, id));
    }
    assert Ids(j.vanished) == [] <==> j.vanished == [];
    assert Elements(j.vanished) == {} <==> j.vanished == [];
    assert Elements(j.newKeys) == {} <==> j.newKeys == [];
  }

  lemma NothingNewOrGone(db: DB, ctr: nat, j: Job)
    requires Planned(db.wheels, j) && OwnNames(db.wheels, j.project, j.remote)
    ensures NewKeys(AfterJob(db, ctr, j).wheels, j.project, j.remote) == {}
    ensures VanishedKeys(AfterJob(db, ctr, j).wheels, j.project, j.remote) == {}
  {
    var after := AfterJob(db, ctr, j).wheels;
    forall k | k in NewKeys(after, j.project, j.remote) ensures false {
      NewKey(after, j.project, j.remote, k);
      PageFilePresent(db, ctr, j, k.project);
    }
    forall k | k in VanishedKeys(after, j.project, j.remote) ensures false {
      LocalKey(after, j.project, k);
      RowIsDone(db, ctr, j, k.id);
    }
  }

  /** The page's new files whose imported blob differs from the published hash. */
  ghost predicate NoLinkMismatch(db: DB, j: Job) {
    forall k :: k in Elements(j.newKeys) && k.project in j.remote ==>
      !LinkMismatch(j.remote[k.project], Lookup(db.unlinked, k.project))
  }

  lemma SettledIffNoMismatch(db: DB, ctr: nat, j: Job)
    requires Planned(db.wheels, j) && OwnNames(db.wheels, j.project, j.remote)
    ensures AllSettled(AfterJob(db, ctr, j).wheels, j) <==> NoLinkMismatch(db, j)
  {
    var after := AfterJob(db, ctr, j).wheels;
    NothingNewOrGone(db, ctr, j);
    forall id | IsCommon(after, j, id)
      ensures RowDone(db, after[id], j, id !in db.wheels)
    {
      RowIsDone(db, ctr, j, id);
    }
    forall k | k in Elements(j.newKeys)
      ensures exists id :: IsCommon(after, j, id) && id !in db.wheels && after[id].filename == k.project
    {
      NewRowOf(db, ctr, j, k);
    }
  }

  lemma NewRowOf(db: DB, ctr: nat, j: Job, k: Key)
    requires Planned(db.wheels, j) && OwnNames(db.wheels, j.project, j.remote) && k in Elements(j.newKeys)
    ensures var after := AfterJob(db, ctr, j).wheels;
            exists id :: IsCommon(after, j, id) && id !in db.wheels && after[id].filename == k.project
  {
    var after := AfterJob(db, ctr, j).wheels;
    assert k == Key(0, k.project, 0);
    NewKey(db.wheels, j.project, j.remote, k);
    OwnNameIsFree(db.wheels, j, k.project);
    NamesPresent(db, ctr, j, k.project);
    var id :| id in after && after[id].filename == k.project;
    ReconciledRow(db, ctr, j, id);
    RowDoneAt(db, after, j, id);
    assert id !in db.wheels by {
      assert !HasFilename(db.wheels, k.project);
    }
    assert IsCommon(after, j, id);
  }

  /** Re-planning the same page after one application finds nothing to do exactly when no newly
      linked import differs from the hash the page publishes. */
  lemma ReplanEmptyIff(db: DB, ctr: nat, j: Job, again: Job)
    requires Planned(db.wheels, j) && OwnNames(db.wheels, j.project, j.remote)
    requires Planned(AfterJob(db, ctr, j).wheels, again) && again.project == j.project && again.remote == j.remote
    ensures PlanEmpty(JobPlan(AfterJob(db, ctr, j), again)) <==> NoLinkMismatch(db, j)
  {
    EmptyPlanIff(AfterJob(db, ctr, j), again);
    SettledIffNoMismatch(db, ctr, j);
    assert AllSettled(AfterJob(db, ctr, j).wheels, again) <==> AllSettled(AfterJob(db, ctr, j).wheels, j);
  }

  /** Two applications always reach the fixpoint. */
  lemma SecondReplanEmpty(db: DB, c1: nat, c2: nat, first: Job, second: Job, third: Job)
    requires Planned(db.wheels, first) && OwnNames(db.wheels, first.project, first.remote)
    requires Planned(AfterJob(db, c1, first).wheels, second)
    requires Planned(AfterJob(AfterJob(db, c1, first), c2, second).wheels, third)
    requires first.project == second.project == third.project && first.remote == second.remote == third.remote
    ensures PlanEmpty(JobPlan(AfterJob(AfterJob(db, c1, first), c2, second), third))
  {
    var mid := AfterJob(db, c1, first);
    PlanMirrorsPage(db, c1, first);
    NothingNewOrGone(db, c1, first);
    ReplanEmptyIff(mid, c2, second, third);
  }

  // ------------------------------------------------- the same, said of sync itself

  function Synced(db: DB, ctr: nat, project: string, serial: int, files: seq<ProjectFile>, now: Time): DB {
    ApplyPlan(db, ctr, SyncPlan(db, project, serial, files), now).db
  }

  /** Every page file the project does not have yet agrees with the blob imported for it, if any. */
  ghost predicate ImportsAgree(db: DB, project: string, remote: Remote) {
    forall name :: name in remote && !HasProjectFile(db.wheels, project, name) ==>
      !LinkMismatch(remote[name], Lookup(db.unlinked, name))
  }

  lemma SyncedIsAfterJob(db: DB, ctr: nat, project: string, serial: int, files: seq<ProjectFile>, now: Time)
    ensures Synced(db, ctr, project, serial, files, now) == AfterJob(db, ctr, JobOf(db, project, serial, files, now))
    ensures Planned(db.wheels, JobOf(db, project, serial, files, now))
    ensures SyncPlan(db, project, serial, files) == JobPlan(db, JobOf(db, project, serial, files, now))
  {
    JobPlanIsSyncPlan(db, project, serial, files, now);
    JobIsPlanned(db, project, serial, files, now);
  }

  /** Reconciliation converges: one sync makes the project's live rows the page's wheels and leaves
      every other project's rows alone. */
  lemma SyncMirrorsPage(db: DB, ctr: nat, project: string, serial: int, files: seq<ProjectFile>, now: Time)
    requires OwnNames(db.wheels, project, RemoteFiles(files))
    ensures var after := Synced(db, ctr, project, serial, files, now).wheels;
            && MirrorsPage(after, project, RemoteFiles(files)) && OwnNames(after, project, RemoteFiles(files))
            && forall id :: id in db.wheels && db.wheels[id].project != project ==>
                 id in after && after[id] == db.wheels[id]
  {
    SyncedIsAfterJob(db, ctr, project, serial, files, now);
    PlanMirrorsPage(db, ctr, JobOf(db, project, serial, files, now));
  }

  /** Planning the same page again finds nothing to do if and only if the imports agreed with it. */
  lemma ResyncEmptyIff(db: DB, ctr: nat, project: string, serial: int, files: seq<ProjectFile>, now: Time, serial2: int)
    requires OwnNames(db.wheels, project, RemoteFiles(files))
    ensures PlanEmpty(SyncPlan(Synced(db, ctr, project, serial, files, now), project, serial2, files)) <==>
            ImportsAgree(db, project, RemoteFiles(files))
  {
    var j, after := JobOf(db, project, serial, files, now), Synced(db, ctr, project, serial, files, now);
    SyncedIsAfterJob(db, ctr, project, serial, files, now);
    SyncedIsAfterJob(after, 0, project, serial2, files, now);
    ReplanEmptyIff(db, ctr, j, JobOf(after, project, serial2, files, now));
    MismatchNames(db, j);
  }

  lemma MismatchNames(db: DB, j: Job)
    requires Planned(db.wheels, j)
    ensures NoLinkMismatch(db, j) <==> ImportsAgree(db, j.project, j.remote)
  {
    forall name | name in j.remote
      ensures Key(0, name, 0) in Elements(j.newKeys) <==> !HasProjectFile(db.wheels, j.project, name)
    {
      NewKey(db.wheels, j.project, j.remote, Key(0, name, 0));
    }
    forall k | k in Elements(j.newKeys)
      ensures k == Key(0, k.project, 0) && !HasProjectFile(db.wheels, j.project, k.project)
    {
      NewKey(db.wheels, j.project, j.remote, k);
    }
    if NoLinkMismatch(db, j) {
      forall name | name in j.remote && !HasProjectFile(db.wheels, j.project, name)
        ensures !LinkMismatch(j.remote[name], Lookup(db.unlinked, name))
      {
        assert Key(0, name, 0).project == name;
      }
    }
  }

  /** After two syncs of the same page, planning it a third time always finds nothing to do. */
  lemma TwoSyncsSettle(db: DB, c1: nat, c2: nat, project: string, s1: int, s2: int, s3: int, files: seq<ProjectFile>,
                       t1: Time, t2: Time)
    requires OwnNames(db.wheels, project, RemoteFiles(files))
    ensures var once := Synced(db, c1, project, s1, files, t1);
            PlanEmpty(SyncPlan(Synced(once, c2, project, s2, files, t2), project, s3, files))
  {
    var once := Synced(db, c1, project, s1, files, t1);
    var twice := Synced(once, c2, project, s2, files, t2);
    SyncedIsAfterJob(db, c1, project, s1, files, t1);
    SyncedIsAfterJob(once, c2, project, s2, files, t2);
    SyncedIsAfterJob(twice, 0, project, s3, files, t2);
    SecondReplanEmpty(db, c1, c2, JobOf(db, project, s1, files, t1), JobOf(once, project, s2, files, t2),
                      JobOf(twice, project, s3, files, t2));
  }
}
