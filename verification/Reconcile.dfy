/** `ingest.py`: diff one project page against the stored rows, plan, apply. */
module Reconcile {
  import opened Prelude
  import opened Ordering
  import opened SegmentFormat
  import opened Schema

  datatype ProjectFile = ProjectFile(
    filename: string,
    url: string,
    wheelSha256: Option<string>,
    metadataSha256: Option<Digest>,
    hasMetadata: bool,
    size: Option<int>,
    uploadTime: Option<string>,
    requiresPython: Option<string>,
    yanked: bool,
    yankedReason: Option<string>)

  type Remote = map<string, ProjectFile>

  predicate IsWhl(name: string) { |name| >= 4 && name[|name| - 4..] == ".whl" }

  /** The page's wheels by filename; a repeated filename keeps its last entry. */
  function RemoteFiles(files: seq<ProjectFile>): (remote: Remote)
    ensures forall name :: name in remote ==> IsWhl(name) && remote[name].filename == name && remote[name] in files
  {
    if files == [] then map[]
    else
      var rest := RemoteFiles(files[..|files| - 1]);
      var f := files[|files| - 1];
      if IsWhl(f.filename) then rest[f.filename := f] else rest
  }

  /** Entry i is the last one of its name. */
  predicate LastOf(files: seq<ProjectFile>, i: int, name: string) {
    0 <= i < |files| && files[i].filename == name && forall j :: i < j < |files| ==> files[j].filename != name
  }

  /** The page's wheels are its last entries of each name that ends in ".whl". */
  lemma {:induction false} RemoteIs(files: seq<ProjectFile>, name: string, i: int)
    requires LastOf(files, i, name)
    ensures name in RemoteFiles(files) <==> |name| >= 4 && name[|name| - 4..] == ".whl"
    ensures name in RemoteFiles(files) ==> RemoteFiles(files)[name] == files[i]
  {
    var n := |files| - 1;
    if i < n {
      assert LastOf(files[..n], i, name);
      RemoteIs(files[..n], name, i);
    } else if !IsWhl(name) {
      assert name !in RemoteFiles(files);
    }
  }

  // ------------------------------------------------------------------- planning

  function InitialState(hasMetadata: bool): WheelState {
    if hasMetadata then NEED_METADATA else NO_METADATA
  }

  datatype NewWheel = NewWheel(file: ProjectFile, state: WheelState, blob: Option<Digest>,
                               unlinkedFilename: Option<string>)

  /** `_plan_new_wheel`: an unlinked imported blob is linked at once. */
  function PlanNewWheel(file: ProjectFile, unlinked: Option<Digest>): NewWheel {
    if unlinked.Some? then NewWheel(file, NEED_CONVERT, unlinked, Some(file.filename))
    else NewWheel(file, InitialState(file.hasMetadata), None, None)
  }

  /** The column updates of one row; a column not mentioned is not written. */
  datatype Changes = Changes(
    undelete: bool,
    state: Option<WheelState>,
    url: Option<string>,
    wheelSha256: Option<Option<string>>,
    metadataSha256: Option<Option<Digest>>,
    size: Option<Option<int>>,
    uploadTime: Option<Option<string>>,
    requiresPython: Option<Option<string>>,
    yanked: Option<(bool, Option<string>)>,
    clearBlob: bool,
    clearConda: bool)

  const NO_CHANGES := Changes(false, None, None, None, None, None, None, None, None, false, false)

  datatype Changed = Changed(id: int, changes: Changes, deleteNoSidecarSkip: bool, deleteRepodata: bool)

  function IfDiffers<T(==)>(before: T, after: T): Option<T> {
    if before == after then None else Some(after)
  }

  /** The archived bytes are not the ones the page now publishes. */
  predicate BlobMismatch(w: Wheel, file: ProjectFile) {
    w.blob.Some? && file.metadataSha256.Some? && file.metadataSha256.value != w.blob.value
  }

  /** `_diff_common`. A reappearing tombstone refreshes every column. */
  function DiffCommon(id: int, w: Wheel, file: ProjectFile): Option<Changed> {
    if w.deletedAt.Some? then
      var changes := Changes(true, Some(InitialState(file.hasMetadata)), Some(file.url), Some(file.wheelSha256),
                             Some(file.metadataSha256), Some(file.size), Some(file.uploadTime),
                             Some(file.requiresPython), Some((file.yanked, file.yankedReason)), true, false);
      Some(Changed(id, changes, false, false))
    else
      var mismatch := BlobMismatch(w, file);
      var sidecar := w.state == NO_METADATA && file.hasMetadata;
      var newState := if mismatch || sidecar then NEED_METADATA else w.state;
      var changes := Changes(false, IfDiffers(w.state, newState), IfDiffers(w.url, file.url),
                             IfDiffers(w.wheelSha256, file.wheelSha256),
                             IfDiffers(w.metadataSha256, file.metadataSha256),
                             IfDiffers(w.size, file.size), IfDiffers(w.uploadTime, file.uploadTime),
                             IfDiffers(w.requiresPython, file.requiresPython),
                             IfDiffers((w.yanked, w.yankedReason), (file.yanked, file.yankedReason)),
                             mismatch, mismatch);
      if changes == NO_CHANGES then None else Some(Changed(id, changes, sidecar, mismatch))
  }

  datatype Plan = Plan(project: string, serial: int, newWheels: seq<NewWheel>, changed: seq<Changed>,
                       vanished: seq<int>)

  /** The project's rows as (filename, id) keys, so that `Sorted` is the order of their filenames. */
  function LocalKeys(wheels: Wheels, project: string): set<Key> {
    set id | id in wheels && wheels[id].project == project :: Key(0, wheels[id].filename, id)
  }

  function NewKeys(wheels: Wheels, project: string, remote: Remote): set<Key> {
    var names := set id | id in wheels && wheels[id].project == project :: wheels[id].filename;
    set name | name in remote.Keys - names :: Key(0, name, 0)
  }

  function CommonKeys(wheels: Wheels, project: string, remote: Remote): set<Key> {
    set k | k in LocalKeys(wheels, project) && k.project in remote
  }

  function VanishedKeys(wheels: Wheels, project: string, remote: Remote): set<Key> {
    set k | k in LocalKeys(wheels, project) && k.project !in remote && k.id in wheels && wheels[k.id].deletedAt.None?
  }

  function Lookup(unlinked: map<string, Digest>, name: string): Option<Digest> {
    if name in unlinked then Some(unlinked[name]) else None
  }

  function PlanNew(keys: seq<Key>, remote: Remote, unlinked: map<string, Digest>): seq<NewWheel> {
    if keys == [] then []
    else
      var rest := PlanNew(keys[1..], remote, unlinked);
      if keys[0].project in remote
      then [PlanNewWheel(remote[keys[0].project], Lookup(unlinked, keys[0].project))] + rest else rest
  }

  function PlanChanged(keys: seq<Key>, wheels: Wheels, remote: Remote): seq<Changed> {
    if keys == [] then []
    else
      var rest := PlanChanged(keys[1..], wheels, remote);
      var k := keys[0];
      if k.id in wheels && k.project in remote && DiffCommon(k.id, wheels[k.id], remote[k.project]).Some?
      then [DiffCommon(k.id, wheels[k.id], remote[k.project]).value] + rest else rest
  }

  function Ids(keys: seq<Key>): seq<int> {
    if keys == [] then [] else [keys[0].id] + Ids(keys[1..])
  }

  /** The planning half of `sync_project`, each part in filename order. */
  function SyncPlan(db: DB, project: string, serial: int, files: seq<ProjectFile>): Plan {
    var remote := RemoteFiles(files);
    Plan(project, serial,
         PlanNew(Sorted(NewKeys(db.wheels, project, remote)), remote, db.unlinked),
         PlanChanged(Sorted(CommonKeys(db.wheels, project, remote)), db.wheels, remote),
         Ids(Sorted(VanishedKeys(db.wheels, project, remote))))
  }

  predicate PlanEmpty(p: Plan) { p.newWheels == [] && p.changed == [] && p.vanished == [] }

  // ------------------------------------------------------------------- applying

  lemma {:induction false} MaxExists(ids: set<int>)
    requires ids != {}
    ensures exists m :: m in ids && forall x :: x in ids ==> x <= m
  {
    SomeElement(ids);
    var x :| x in ids;
    if ids != {x} {
      MaxExists(ids - {x});
      var m :| m in ids - {x} && forall y :: y in ids - {x} ==> y <= m;
      var top := if m < x then x else m;
      forall y | y in ids ensures y <= top {
        assert y == x || y in ids - {x};
      }
    } else {
      assert forall y :: y in ids ==> y <= x;
    }
  }

  /** SQLite's rowid choice for INTEGER PRIMARY KEY: one past the largest, or 1. */
  function NextId(ids: set<int>): (r: int)
    ensures r !in ids
    ensures ids != {} ==> r - 1 in ids && forall x :: x in ids ==> x < r
    ensures ids == {} ==> r == 1
  {
    if ids == {} then 1
    else
      MaxExists(ids);
      var m :| m in ids && forall x | x in ids :: x <= m;
      m + 1
  }

  predicate HasFilename(wheels: Wheels, name: string) {
    exists id :: id in wheels && wheels[id].filename == name
  }

  function NewRow(n: NewWheel, project: string, serial: int, ctr: nat, now: Time): Wheel {
    Wheel(n.file.filename, project, None, n.state, 0, n.file.url, n.file.wheelSha256, n.file.metadataSha256,
          n.file.size, n.file.uploadTime, n.file.requiresPython, n.file.yanked, n.file.yankedReason, n.blob, serial,
          ctr, None, now)
  }

  function Or<T>(o: Option<T>, default: T): T { if o.Some? then o.value else default }

  function Patch(w: Wheel, c: Changes, ctr: nat, now: Time): Wheel {
    w.(deletedAt := if c.undelete then None else w.deletedAt,
       state := Or(c.state, w.state),
       url := Or(c.url, w.url),
       wheelSha256 := Or(c.wheelSha256, w.wheelSha256),
       metadataSha256 := Or(c.metadataSha256, w.metadataSha256),
       size := Or(c.size, w.size),
       uploadTime := Or(c.uploadTime, w.uploadTime),
       requiresPython := Or(c.requiresPython, w.requiresPython),
       yanked := if c.yanked.Some? then c.yanked.value.0 else w.yanked,
       yankedReason := if c.yanked.Some? then c.yanked.value.1 else w.yankedReason,
       blob := if c.clearBlob then None else w.blob,
       condaName := if c.clearConda then None else w.condaName,
       changeSeq := ctr, updatedAt := now)
  }

  function Tombstone(w: Wheel, ctr: nat, now: Time): Wheel {
    w.(deletedAt := Some(now), state := DELETED, changeSeq := ctr, updatedAt := now)
  }

  const NO_SIDECAR := "no_sidecar"

  predicate IsNoSidecar(s: Skip) { s.reason == NO_SIDECAR && s.permanent }

  /** One INSERT: a filename already present anywhere is refused by the UNIQUE column. */
  function InsertRow(db: DB, ctr: nat, n: NewWheel, project: string, serial: int, now: Time): DB {
    if HasFilename(db.wheels, n.file.filename) then db
    else db.(wheels := db.wheels[NextId(db.wheels.Keys) := NewRow(n, project, serial, ctr, now)],
             unlinked := if n.unlinkedFilename.Some? then db.unlinked - {n.unlinkedFilename.value} else db.unlinked)
  }

  function InsertRows(db: DB, ctr: nat, news: seq<NewWheel>, project: string, serial: int, now: Time): DB
    decreases |news|
  {
    if news == [] then db
    else InsertRows(InsertRow(db, ctr + 1, news[0], project, serial, now), ctr + 1, news[1..], project, serial, now)
  }

  function ChangeRow(db: DB, c: Changed, ctr: nat, now: Time): DB {
    db.(wheels := if c.id in db.wheels
                  then db.wheels[c.id := Patch(db.wheels[c.id], c.changes, ctr, now)] else db.wheels,
        skips := if c.deleteNoSidecarSkip
                 then map k | k in db.skips && !(k.id == c.id && IsNoSidecar(db.skips[k])) :: db.skips[k]
                 else db.skips,
        repodata := if c.deleteRepodata then db.repodata - {c.id} else db.repodata)
  }

  function ChangeRows(db: DB, ctr: nat, changed: seq<Changed>, now: Time): DB
    decreases |changed|
  {
    if changed == [] then db else ChangeRows(ChangeRow(db, changed[0], ctr + 1, now), ctr + 1, changed[1..], now)
  }

  function TombstoneRows(wheels: Wheels, ctr: nat, ids: seq<int>, now: Time): Wheels
    decreases |ids|
  {
    if ids == [] then wheels
    else
      var next := if ids[0] in wheels then wheels[ids[0] := Tombstone(wheels[ids[0]], ctr + 1, now)] else wheels;
      TombstoneRows(next, ctr + 1, ids[1..], now)
  }

  /** The first two loops: inserts, then column updates. */
  function Updated(db: DB, ctr: nat, plan: Plan, now: Time): DB {
    ChangeRows(InsertRows(db, ctr, plan.newWheels, plan.project, plan.serial, now),
               ctr + |plan.newWheels|, plan.changed, now)
  }

  /** `_build_project_write_op`: inserts, updates, tombstones, index row, in one transaction. */
  function ApplyPlan(db: DB, ctr: nat, plan: Plan, now: Time): Applied {
    var updated := Updated(db, ctr, plan, now);
    var c2 := ctr + |plan.newWheels| + |plan.changed|;
    Applied(updated.(wheels := TombstoneRows(updated.wheels, c2, plan.vanished, now),
                     pypiIndex := updated.pypiIndex[plan.project := plan.serial]),
            c2 + |plan.vanished|, Done)
  }

  /** `_build_gone_write_op`: tombstone every live row of the project, drop its index row. The
      source's order is unspecified; here it is id order. */
  function LiveIds(wheels: Wheels, project: string): set<Key> {
    set id | id in wheels && wheels[id].project == project && wheels[id].deletedAt.None? :: ById(id)
  }

  function ApplyGone(db: DB, ctr: nat, project: string, now: Time): Applied {
    var ids := Ids(Sorted(LiveIds(db.wheels, project)));
    Applied(db.(wheels := TombstoneRows(db.wheels, ctr, ids, now), pypiIndex := db.pypiIndex - {project}),
            ctr + |ids|, Count(|ids|))
  }
}
