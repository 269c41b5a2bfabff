/** The archive protocol with crashes: `archive/store.py`, the archive thread of `fetch.py`, and the
    startup recovery of `daemon/service.py`, as steps that a crash may separate anywhere. */
module CrashRecovery {
  import opened Prelude
  import opened SegmentFormat
  import opened SegmentPacking
  import opened SegmentWriting
  import opened Schema
  import opened WriteOps
  import opened Ordering
  import opened Reconcile
  import opened Convergence
  import opened Pipeline

  /** What survives a crash besides the committed tables: `segments` rows (sealed or not) and files. */
  datatype Disk = Disk(segments: map<nat, bool>, openFiles: set<nat>, files: Files)

  /** The writer's stage within open, fill, rename, mark. */
  datatype Writer = NoWriter | Allocated(id: nat) | Open(id: nat, pack: Pack) | Renamed(id: nat)

  datatype Process =
    | Down
    | Recovering(todo: set<nat>)
    | Up(writer: Writer, indexed: set<Digest>, claimed: set<int>)

  datatype State = State(db: DB, ctr: nat, disk: Disk, process: Process)

  datatype Step =
    | Crash
    | Start                       // list stale .open files, truncate them
    | RecoverSome(shas: set<Digest>)
    | SegmentDone(id: nat)
    | Serve
    | AllocateRow(id: nat)        // INSERT INTO segments, committed
    | CreateFile
    | Buffer(data: Bytes)         // SegmentWriter.add
    | IndexBlob(data: Bytes)      // INSERT OR IGNORE INTO blobs, committed
    | Rename                      // SegmentWriter.seal
    | MarkSealed                  // UPDATE segments SET sealed_at, committed
    | ClaimWheel(wheel: int)      // claimed by a stage, or selected by a campaign
    | ReleaseWheel(wheel: int)
    | ReadProject(project: string) // read the rows a page is planned against
    | WritePlan(plan: Plan, now: Time)
    | Write(op: Op)

  predicate Greater(ids: set<nat>, id: nat) { forall x :: x in ids ==> x < id }

  function Stale(disk: Disk): set<nat> {
    set id | id in disk.openFiles && !(id in disk.segments && disk.segments[id])
  }

  predicate RowsIn(blobs: map<Digest, BlobLocation>, shas: set<Digest>, ids: set<nat>) {
    forall sha :: sha in shas ==> sha in blobs && blobs[sha].segmentId in ids
  }

  /** What holds of a write operation when it is applied: a fetched digest is indexed, an outcome's wheel
      is claimed, and a reprocessed wheel is live or claimed. Selecting a wheel for a campaign is a claim,
      so that a tombstone written between selection and chunk is covered. */
  predicate MayWrite(db: DB, indexed: set<Digest>, claimed: set<int>, op: Op) {
    match op
    case FetchOk(_, sha, _) => sha in indexed
    case ConvertOk(item, _, _, _) => item.id in claimed
    case SkipOutcome(_, item, _, _, _, _) => item.id in claimed
    case RetryOutcome(_, item, _, _, _) => item.id in claimed
    case Reprocess(ids, _, _) =>
      forall id :: id in ids && id in db.wheels ==> db.wheels[id].state != DELETED || id in claimed
    case Recover(_) => false
    case _ => true
  }

  /** The update clears the blob, or leaves the state alone, or its wheel is live or claimed. */
  predicate FitsChange(wheels: Wheels, claimed: set<int>, c: Changed) {
    && c.changes.state != Some(DELETED)
    && (c.changes.clearBlob || c.changes.state.None? || c.id in claimed
        || (c.id in wheels && wheels[c.id].state != DELETED))
  }

  /** What holds of a plan when it is applied, from whatever older rows it was built. */
  predicate PlanFits(wheels: Wheels, sources: set<Digest>, claimed: set<int>, plan: Plan) {
    && (forall n :: n in plan.newWheels && n.blob.Some? ==> n.blob.value in sources)
    && (forall c :: c in plan.changed ==> FitsChange(wheels, claimed, c))
  }

  function LiveOf(wheels: Wheels, project: string): set<int> {
    set id | id in wheels && wheels[id].project == project && wheels[id].state != DELETED
  }

  predicate Enabled(c: Codec, st: State, step: Step) {
    match step
    case Crash => true
    case Start => st.process.Down?
    case RecoverSome(shas) => st.process.Recovering? && RowsIn(st.db.blobs, shas, st.process.todo)
    case SegmentDone(id) =>
      st.process.Recovering? && forall sha :: sha in st.db.blobs ==> st.db.blobs[sha].segmentId != id
    case Serve => st.process.Recovering? && st.process.todo == {}
    case AllocateRow(id) =>
      st.process.Up? && st.process.writer.NoWriter? &&
      Greater(st.disk.segments.Keys, id) && Greater(st.disk.openFiles, id) && Greater(st.disk.files.Keys, id)
    case CreateFile => st.process.Up? && st.process.writer.Allocated?
    case Buffer(data) => st.process.Up? && st.process.writer.Open?
    case IndexBlob(data) => st.process.Up? && st.process.writer.Open? && data in Bodies(st.process.writer.pack)
    case Rename =>
      st.process.Up? && st.process.writer.Open? && FitsTrailer(TrailerOf(c, AllGroups(st.process.writer.pack)))
    case MarkSealed => st.process.Up? && st.process.writer.Renamed?
    case ClaimWheel(id) => st.process.Up? && id in st.db.wheels && st.db.wheels[id].state != DELETED
    case ReleaseWheel(id) => st.process.Up?
    case ReadProject(project) => st.process.Up?
    case WritePlan(plan, now) =>
      st.process.Up? && PlanFits(st.db.wheels, st.process.indexed, st.process.claimed, plan)
    case Write(op) => st.process.Up? && MayWrite(st.db, st.process.indexed, st.process.claimed, op)
  }

  function Next(c: Codec, target: nat, st: State, step: Step): State
    requires Enabled(c, st, step)
  {
    match step
    case Crash => st.(process := Down)
    case Start => st.(process := Recovering(Stale(st.disk)))
    case RecoverSome(shas) => st.(db := RecoverChunk(st.db, shas))
    case SegmentDone(id) => st.(process := Recovering(st.process.todo - {id}))
    case Serve => st.(process := Up(NoWriter, {}, {}))
    case AllocateRow(id) =>
      st.(disk := st.disk.(segments := st.disk.segments[id := false]), process := st.process.(writer := Allocated(id)))
    case CreateFile =>
      var id := st.process.writer.id;
      st.(disk := st.disk.(openFiles := st.disk.openFiles + {id}), process := st.process.(writer := Open(id, EMPTY)))
    case Buffer(data) =>
      var w := st.process.writer;
      st.(process := st.process.(writer := Open(w.id, PackAdd(target, w.pack, data))))
    case IndexBlob(data) =>
      var w := st.process.writer;
      LocationKnown(w.pack, w.id, data);
      var loc := IndexOf(w.id, PackRecords(w.pack))[Sha256(data)];
      st.(db := st.db.(blobs := InsertOrIgnore(st.db.blobs, loc)),
          process := st.process.(indexed := st.process.indexed + {loc.sha256}))
    case Rename =>
      var w := st.process.writer;
      st.(disk := st.disk.(openFiles := st.disk.openFiles - {w.id},
                           files := st.disk.files[w.id := Image(c, AllGroups(w.pack))]),
          process := st.process.(writer := Renamed(w.id)))
    case MarkSealed =>
      st.(disk := st.disk.(segments := st.disk.segments[st.process.writer.id := true]),
          process := st.process.(writer := NoWriter))
    case ClaimWheel(id) => st.(process := st.process.(claimed := st.process.claimed + {id}))
    case ReleaseWheel(id) => st.(process := st.process.(claimed := st.process.claimed - {id}))
    case ReadProject(project) =>
      st.(process := st.process.(indexed := st.process.indexed + st.db.unlinked.Values,
                                 claimed := st.process.claimed + LiveOf(st.db.wheels, project)))
    case WritePlan(plan, now) =>
      st.(db := ApplyPlan(st.db, st.ctr, plan, now).db, ctr := ApplyPlan(st.db, st.ctr, plan, now).ctr)
    case Write(op) => st.(db := Committed(st.db, Run(op, st.db, st.ctr)), ctr := Run(op, st.db, st.ctr).ctr)
  }

  // -------------------------------------------------------------- the invariant

  /** The row's bytes are in a sealed file. */
  predicate Sealed(c: Codec, disk: Disk, sha: Digest, loc: BlobLocation) {
    loc.segmentId in disk.files && ReadAt(c, disk.files, loc) == Ok(sha.preimage)
  }

  /** The row's bytes are in the segment the process is filling. */
  predicate Filling(process: Process, sha: Digest, loc: BlobLocation) {
    && process.Up? && process.writer.Open? && loc.segmentId == process.writer.id
    && LocatedAt(AllGroups(process.writer.pack), loc, sha.preimage)
  }

  /** The row points into a partial file that recovery has not visited yet. */
  predicate Doomed(disk: Disk, process: Process, loc: BlobLocation) {
    match process
    case Down => loc.segmentId in disk.openFiles
    case Recovering(todo) => loc.segmentId in todo
    case Up(_, _, _) => false
  }

  predicate RowOk(c: Codec, disk: Disk, process: Process, sha: Digest, loc: BlobLocation) {
    && loc.sha256 == sha && loc.segmentId in disk.segments
    && (Sealed(c, disk, sha, loc) || Filling(process, sha, loc) || Doomed(disk, process, loc))
  }

  predicate Claimed(process: Process, id: int) { process.Up? && id in process.claimed }

  /** The wheel's blob column must resolve. */
  predicate Linked(w: Wheel, claimed: bool) { w.blob.Some? && (w.state != DELETED || claimed) }

  predicate DiskOk(disk: Disk) {
    && disk.openFiles <= disk.segments.Keys && disk.files.Keys <= disk.segments.Keys
    && disk.openFiles !! disk.files.Keys
    && forall id :: id in disk.segments && disk.segments[id] ==> id in disk.files
  }

  predicate WriterOk(disk: Disk, process: Process) {
    match process
    case Up(Allocated(id), _, _) => id in disk.segments && id !in disk.openFiles && id !in disk.files
    case Up(Open(id, pack), _, _) => id in disk.openFiles
    case Up(Renamed(id), _, _) => id in disk.files
    case Recovering(todo) => todo <= disk.openFiles
    case _ => true
  }

  predicate RowsOk(c: Codec, st: State) {
    forall sha :: sha in st.db.blobs ==> RowOk(c, st.disk, st.process, sha, st.db.blobs[sha])
  }

  predicate LinksOk(st: State) {
    forall id :: id in st.db.wheels && Linked(st.db.wheels[id], Claimed(st.process, id)) ==>
          st.db.wheels[id].blob.value in st.db.blobs
  }

  predicate IndexedOk(st: State) {
    st.process.Up? ==> forall sha :: sha in st.process.indexed ==> sha in st.db.blobs
  }

  /** Imported blobs that wait for their wheel are in sealed files: a hypothesis on the importer,
      which is outside the repository. */
  predicate ImportsOk(c: Codec, st: State) {
    forall name :: name in st.db.unlinked ==>
      st.db.unlinked[name] in st.db.blobs && Sealed(c, st.disk, st.db.unlinked[name], st.db.blobs[st.db.unlinked[name]])
  }

  predicate Inv(c: Codec, st: State) {
    && DiskOk(st.disk) && WriterOk(st.disk, st.process) && RowsOk(c, st)
    && LinksOk(st) && IndexedOk(st) && ImportsOk(c, st)
  }

  predicate SealedRow(c: Codec, disk: Disk, sha: Digest, loc: BlobLocation) {
    loc.sha256 == sha && loc.segmentId in disk.segments && Sealed(c, disk, sha, loc)
  }

  /** No wheels yet and no process; the archive may hold sealed segments, with imported blobs among
      them that wait for their wheels. */
  predicate Initial(c: Codec, st: State) {
    && st.process == Down && st.db.wheels == map[]
    && DiskOk(st.disk) && st.disk.openFiles == {}
    && (forall sha :: sha in st.db.blobs ==> SealedRow(c, st.disk, sha, st.db.blobs[sha]))
    && (forall name :: name in st.db.unlinked ==> st.db.unlinked[name] in st.db.blobs)
  }

  lemma InitialInv(c: Codec, st: State)
    requires Initial(c, st)
    ensures Inv(c, st)
  {
  }

  // ------------------------------------------------------------ step by step

  lemma MemoryStep(c: Codec, target: nat, st: State, step: Step)
    requires Inv(c, st) && Enabled(c, st, step)
    requires step.Crash? || step.Start? || step.Serve? || step.ClaimWheel? || step.ReleaseWheel? || step.ReadProject?
    ensures Inv(c, Next(c, target, st, step))
  {
    var st' := Next(c, target, st, step);
    forall sha | sha in st'.db.blobs
      ensures RowOk(c, st'.disk, st'.process, sha, st'.db.blobs[sha])
    {
      assert RowOk(c, st.disk, st.process, sha, st.db.blobs[sha]);
    }
  }

  lemma DoneStep(c: Codec, target: nat, st: State, id: nat)
    requires Inv(c, st) && Enabled(c, st, SegmentDone(id))
    ensures Inv(c, Next(c, target, st, SegmentDone(id)))
  {
    var st' := Next(c, target, st, SegmentDone(id));
    forall sha | sha in st'.db.blobs
      ensures RowOk(c, st'.disk, st'.process, sha, st'.db.blobs[sha])
    {
      assert RowOk(c, st.disk, st.process, sha, st.db.blobs[sha]);
    }
  }

  lemma RecoverStep(c: Codec, target: nat, st: State, shas: set<Digest>)
    requires Inv(c, st) && Enabled(c, st, RecoverSome(shas))
    ensures Inv(c, Next(c, target, st, RecoverSome(shas)))
  {
    var st' := Next(c, target, st, RecoverSome(shas));
    forall sha | sha in st'.db.blobs
      ensures RowOk(c, st'.disk, st'.process, sha, st'.db.blobs[sha])
    {
      assert RowOk(c, st.disk, st.process, sha, st.db.blobs[sha]);
    }
    forall name | name in st'.db.unlinked
      ensures st'.db.unlinked[name] in st'.db.blobs
    {
      var sha := st.db.unlinked[name];
      assert Sealed(c, st.disk, sha, st.db.blobs[sha]);
    }
  }

  lemma OpenStep(c: Codec, target: nat, st: State, step: Step)
    requires Inv(c, st) && Enabled(c, st, step) && (step.AllocateRow? || step.CreateFile? || step.MarkSealed?)
    ensures Inv(c, Next(c, target, st, step))
  {
    var st' := Next(c, target, st, step);
    forall sha | sha in st'.db.blobs
      ensures RowOk(c, st'.disk, st'.process, sha, st'.db.blobs[sha])
    {
      assert RowOk(c, st.disk, st.process, sha, st.db.blobs[sha]);
    }
  }

  lemma BufferStep(c: Codec, target: nat, st: State, data: Bytes)
    requires Inv(c, st) && Enabled(c, st, Buffer(data))
    ensures Inv(c, Next(c, target, st, Buffer(data)))
  {
    var st' := Next(c, target, st, Buffer(data));
    forall sha | sha in st'.db.blobs
      ensures RowOk(c, st'.disk, st'.process, sha, st'.db.blobs[sha])
    {
      assert RowOk(c, st.disk, st.process, sha, st.db.blobs[sha]);
      if Filling(st.process, sha, st.db.blobs[sha]) {
        LocatedMonotone(target, st.process.writer.pack, data, st.db.blobs[sha], sha.preimage);
      }
    }
  }

  lemma IndexedRow(c: Codec, disk: Disk, process: Process, data: Bytes)
    requires process.Up? && process.writer.Open? && data in Bodies(process.writer.pack)
    requires process.writer.id in disk.segments
    ensures var w := process.writer; var index := IndexOf(w.id, PackRecords(w.pack));
            Sha256(data) in index && index[Sha256(data)].sha256 == Sha256(data)
            && RowOk(c, disk, process, Sha256(data), index[Sha256(data)])
  {
    LocationKnown(process.writer.pack, process.writer.id, data);
  }

  lemma IndexStep(c: Codec, target: nat, st: State, data: Bytes)
    requires Inv(c, st) && Enabled(c, st, IndexBlob(data))
    ensures Inv(c, Next(c, target, st, IndexBlob(data)))
  {
    IndexedRow(c, st.disk, st.process, data);
    var loc := IndexOf(st.process.writer.id, PackRecords(st.process.writer.pack))[Sha256(data)];
    InsertKeepsInv(c, st, loc);
  }

  lemma RowOkAnyIndex(c: Codec, disk: Disk, process: Process, indexed: set<Digest>, sha: Digest, loc: BlobLocation)
    requires process.Up? && RowOk(c, disk, process, sha, loc)
    ensures RowOk(c, disk, process.(indexed := indexed), sha, loc)
  {
  }

  lemma InsertKeepsInv(c: Codec, st: State, loc: BlobLocation)
    requires Inv(c, st) && st.process.Up? && RowOk(c, st.disk, st.process, loc.sha256, loc)
    ensures Inv(c, st.(db := st.db.(blobs := InsertOrIgnore(st.db.blobs, loc)),
                       process := st.process.(indexed := st.process.indexed + {loc.sha256})))
  {
    var blobs := InsertOrIgnore(st.db.blobs, loc);
    var process := st.process.(indexed := st.process.indexed + {loc.sha256});
    var st' := st.(db := st.db.(blobs := blobs), process := process);
    assert RowsOk(c, st') by {
      forall sha | sha in blobs
        ensures RowOk(c, st.disk, process, sha, blobs[sha])
      {
        assert RowOk(c, st.disk, st.process, sha, blobs[sha]);
        RowOkAnyIndex(c, st.disk, st.process, process.indexed, sha, blobs[sha]);
      }
    }
    assert LinksOk(st') by {
      forall id | id in st.db.wheels && Linked(st.db.wheels[id], Claimed(process, id))
        ensures st.db.wheels[id].blob.value in blobs
      {
        assert Linked(st.db.wheels[id], Claimed(st.process, id));
      }
    }
  }

  lemma SealedGrows(c: Codec, disk: Disk, id: nat, image: Bytes, sha: Digest, loc: BlobLocation)
    requires Sealed(c, disk, sha, loc) && id !in disk.files
    ensures Sealed(c, disk.(files := disk.files[id := image], openFiles := disk.openFiles - {id}), sha, loc)
  {
  }

  lemma RenameStep(c: Codec, target: nat, st: State)
    requires Sound(c) && Inv(c, st) && Enabled(c, st, Rename)
    ensures Inv(c, Next(c, target, st, Rename))
  {
    var st' := Next(c, target, st, Rename);
    var w := st.process.writer;
    forall sha | sha in st'.db.blobs
      ensures RowOk(c, st'.disk, st'.process, sha, st'.db.blobs[sha])
    {
      var loc := st.db.blobs[sha];
      assert RowOk(c, st.disk, st.process, sha, loc);
      if Filling(st.process, sha, loc) {
        ReadBack(c, AllGroups(w.pack), st'.disk.files, loc, sha.preimage);
      } else {
        SealedGrows(c, st.disk, w.id, Image(c, AllGroups(w.pack)), sha, loc);
      }
    }
    forall name | name in st'.db.unlinked
      ensures Sealed(c, st'.disk, st'.db.unlinked[name], st'.db.blobs[st'.db.unlinked[name]])
    {
      var sha := st.db.unlinked[name];
      SealedGrows(c, st.disk, w.id, Image(c, AllGroups(w.pack)), sha, st.db.blobs[sha]);
    }
  }

  // ------------------------------------------------- where a linked blob comes from

  predicate LinkSource(before: Wheels, w: Wheel, claimed: set<int>, sources: set<Digest>, id: int)
    requires w.blob.Some?
  {
    w.blob.value in sources || (id in before && before[id].blob == w.blob && Linked(before[id], id in claimed))
  }

  /** Every link after a write was there before it or is one of the given sources. */
  predicate LinksFrom(before: Wheels, after: Wheels, claimed: set<int>, sources: set<Digest>) {
    forall id :: id in after && Linked(after[id], id in claimed) ==> LinkSource(before, after[id], claimed, sources, id)
  }

  lemma LinksTrans(a: Wheels, b: Wheels, d: Wheels, claimed: set<int>, sources: set<Digest>)
    requires LinksFrom(a, b, claimed, sources) && LinksFrom(b, d, claimed, sources)
    ensures LinksFrom(a, d, claimed, sources)
  {
    forall id | id in d && Linked(d[id], id in claimed)
      ensures LinkSource(a, d[id], claimed, sources, id)
    {
      assert LinkSource(b, d[id], claimed, sources, id);
    }
  }

  lemma {:induction false} InsertTables(db: DB, ctr: nat, news: seq<NewWheel>, project: string, serial: int, now: Time)
    ensures var db' := InsertRows(db, ctr, news, project, serial, now);
            && db'.blobs == db.blobs
            && (forall name :: name in db'.unlinked ==> name in db.unlinked && db'.unlinked[name] == db.unlinked[name])
            && (forall id :: id in db.wheels ==> id in db'.wheels && db'.wheels[id] == db.wheels[id])
    decreases |news|
  {
    if news != [] {
      InsertTables(InsertRow(db, ctr + 1, news[0], project, serial, now), ctr + 1, news[1..], project, serial, now);
    }
  }

  lemma InsertOneLinks(db: DB, ctr: nat, n: NewWheel, project: string, serial: int, now: Time, claimed: set<int>,
                       sources: set<Digest>)
    requires n.blob.Some? ==> n.blob.value in sources
    ensures LinksFrom(db.wheels, InsertRow(db, ctr, n, project, serial, now).wheels, claimed, sources)
  {
  }

  lemma {:induction false} InsertLinks(db: DB, ctr: nat, news: seq<NewWheel>, project: string, serial: int, now: Time,
                                       claimed: set<int>, sources: set<Digest>)
    requires forall n :: n in news && n.blob.Some? ==> n.blob.value in sources
    ensures LinksFrom(db.wheels, InsertRows(db, ctr, news, project, serial, now).wheels, claimed, sources)
    decreases |news|
  {
    if news != [] {
      var next := InsertRow(db, ctr + 1, news[0], project, serial, now);
      assert news[0] in news;
      InsertOneLinks(db, ctr + 1, news[0], project, serial, now, claimed, sources);
      InsertLinks(next, ctr + 1, news[1..], project, serial, now, claimed, sources);
      LinksTrans(db.wheels, next.wheels, InsertRows(db, ctr, news, project, serial, now).wheels, claimed, sources);
    }
  }

  lemma {:induction false} ChangeTables(db: DB, ctr: nat, changed: seq<Changed>, now: Time)
    ensures var db' := ChangeRows(db, ctr, changed, now); db'.blobs == db.blobs && db'.unlinked == db.unlinked
    decreases |changed|
  {
    if changed != [] {
      ChangeTables(ChangeRow(db, changed[0], ctr + 1, now), ctr + 1, changed[1..], now);
    }
  }

  lemma ChangeOneLinks(db: DB, c: Changed, ctr: nat, now: Time, claimed: set<int>)
    requires FitsChange(db.wheels, claimed, c)
    ensures LinksFrom(db.wheels, ChangeRow(db, c, ctr, now).wheels, claimed, {})
    ensures forall d :: FitsChange(db.wheels, claimed, d) ==> FitsChange(ChangeRow(db, c, ctr, now).wheels, claimed, d)
  {
  }

  lemma {:induction false} ChangeLinks(db: DB, ctr: nat, changed: seq<Changed>, now: Time, claimed: set<int>)
    requires forall c :: c in changed ==> FitsChange(db.wheels, claimed, c)
    ensures LinksFrom(db.wheels, ChangeRows(db, ctr, changed, now).wheels, claimed, {})
    decreases |changed|
  {
    if changed != [] {
      var next := ChangeRow(db, changed[0], ctr + 1, now);
      assert changed[0] in changed;
      ChangeOneLinks(db, changed[0], ctr + 1, now, claimed);
      ChangeLinks(next, ctr + 1, changed[1..], now, claimed);
      LinksTrans(db.wheels, next.wheels, ChangeRows(db, ctr, changed, now).wheels, claimed, {});
    }
  }

  lemma TombstoneLinks(wheels: Wheels, ctr: nat, ids: seq<int>, now: Time, claimed: set<int>, sources: set<Digest>)
    ensures LinksFrom(wheels, TombstoneRows(wheels, ctr, ids, now), claimed, sources)
  {
    var after := TombstoneRows(wheels, ctr, ids, now);
    forall id | id in after && Linked(after[id], id in claimed)
      ensures LinkSource(wheels, after[id], claimed, sources, id)
    {
      TombstoneEffect(wheels, ctr, ids, now, id);
    }
  }

  lemma RowLoopLinks(op: Op, db: DB, ctr: nat, indexed: set<Digest>, claimed: set<int>)
    requires (op.Reprocess? || op.Unquarantine?) && MayWrite(db, indexed, claimed, op)
    ensures LinksFrom(db.wheels, Run(op, db, ctr).db.wheels, claimed, indexed)
  {
    var after := Run(op, db, ctr).db.wheels;
    forall id | id in after && Linked(after[id], id in claimed)
      ensures LinkSource(db.wheels, after[id], claimed, indexed, id)
    {
      if op.Reprocess? {
        RequeueRowsEffect(db.wheels, op.ids, ctr, op.now, id);
      } else {
        RefetchRowsEffect(db.wheels, op.ids, ctr, op.now, id);
      }
    }
  }

  /** What a write may do to the tables the archive depends on. */
  predicate WriteOk(db: DB, db': DB, claimed: set<int>, sources: set<Digest>) {
    && db'.blobs == db.blobs
    && (forall name :: name in db'.unlinked ==> name in db.unlinked && db'.unlinked[name] == db.unlinked[name])
    && LinksFrom(db.wheels, db'.wheels, claimed, sources)
  }

  lemma JoinWrites(db: DB, d1: DB, d2: DB, claimed: set<int>, sources: set<Digest>)
    requires WriteOk(db, d1, claimed, sources) && WriteOk(d1, d2, claimed, {})
    ensures WriteOk(db, d2, claimed, sources)
  {
    WidenLinks(d1.wheels, d2.wheels, claimed, {}, sources);
    LinksTrans(db.wheels, d1.wheels, d2.wheels, claimed, sources);
  }

  lemma InsertWrites(db: DB, ctr: nat, plan: Plan, now: Time, claimed: set<int>, sources: set<Digest>)
    requires PlanFits(db.wheels, sources, claimed, plan)
    ensures var d1 := InsertRows(db, ctr, plan.newWheels, plan.project, plan.serial, now);
            WriteOk(db, d1, claimed, sources) && forall c :: c in plan.changed ==> FitsChange(d1.wheels, claimed, c)
  {
    InsertLinks(db, ctr, plan.newWheels, plan.project, plan.serial, now, claimed, sources);
    InsertTables(db, ctr, plan.newWheels, plan.project, plan.serial, now);
  }

  lemma ChangeWrites(db: DB, ctr: nat, changed: seq<Changed>, now: Time, claimed: set<int>)
    requires forall c :: c in changed ==> FitsChange(db.wheels, claimed, c)
    ensures WriteOk(db, ChangeRows(db, ctr, changed, now), claimed, {})
  {
    ChangeLinks(db, ctr, changed, now, claimed);
    ChangeTables(db, ctr, changed, now);
  }

  lemma WidenLinks(before: Wheels, after: Wheels, claimed: set<int>, sources: set<Digest>, more: set<Digest>)
    requires LinksFrom(before, after, claimed, sources) && sources <= more
    ensures LinksFrom(before, after, claimed, more)
  {
    forall id | id in after && Linked(after[id], id in claimed)
      ensures LinkSource(before, after[id], claimed, more, id)
    {
      assert LinkSource(before, after[id], claimed, sources, id);
    }
  }

  lemma SweepLinks(db: DB, ctr: nat, plan: Plan, now: Time, claimed: set<int>, sources: set<Digest>)
    requires WriteOk(db, Updated(db, ctr, plan, now), claimed, sources)
    ensures WriteOk(db, ApplyPlan(db, ctr, plan, now).db, claimed, sources)
  {
    var d2 := Updated(db, ctr, plan, now);
    var c2 := ctr + |plan.newWheels| + |plan.changed|;
    TombstoneLinks(d2.wheels, c2, plan.vanished, now, claimed, sources);
    LinksTrans(db.wheels, d2.wheels, TombstoneRows(d2.wheels, c2, plan.vanished, now), claimed, sources);
  }

  lemma PlanLinks(db: DB, ctr: nat, plan: Plan, now: Time, claimed: set<int>, sources: set<Digest>)
    requires PlanFits(db.wheels, sources, claimed, plan)
    ensures WriteOk(db, ApplyPlan(db, ctr, plan, now).db, claimed, sources)
  {
    var d1 := InsertRows(db, ctr, plan.newWheels, plan.project, plan.serial, now);
    InsertWrites(db, ctr, plan, now, claimed, sources);
    ChangeWrites(d1, ctr + |plan.newWheels|, plan.changed, now, claimed);
    JoinWrites(db, d1, Updated(db, ctr, plan, now), claimed, sources);
    SweepLinks(db, ctr, plan, now, claimed, sources);
  }

  lemma {:induction false} NewFits(keys: seq<Key>, remote: Remote, unlinked: map<string, Digest>, n: NewWheel)
    requires n in PlanNew(keys, remote, unlinked)
    ensures n.blob.Some? ==> n.blob.value in unlinked.Values
    decreases |keys|
  {
    if n in PlanNew(keys[1..], remote, unlinked) {
      NewFits(keys[1..], remote, unlinked, n);
    } else {
      assert n == PlanNewWheel(remote[keys[0].project], Lookup(unlinked, keys[0].project));
    }
  }

  lemma DiffFits(id: int, w: Wheel, file: ProjectFile, wheels: Wheels, claimed: set<int>)
    requires DiffCommon(id, w, file).Some?
    requires w.state != DELETED ==> id in claimed || (id in wheels && wheels[id].state != DELETED)
    ensures FitsChange(wheels, claimed, DiffCommon(id, w, file).value)
  {
  }

  /** The update planned for a row fits any later rows, as long as the row is live or claimed if it was
      live when it was read. */
  lemma {:induction false} ChangedFits(keys: seq<Key>, base: Wheels, remote: Remote, wheels: Wheels, claimed: set<int>,
                                       c: Changed)
    requires c in PlanChanged(keys, base, remote)
    requires forall k :: k in Elements(keys) && k.id in base && base[k.id].state != DELETED ==>
               k.id in claimed || (k.id in wheels && wheels[k.id].state != DELETED)
    ensures FitsChange(wheels, claimed, c)
    decreases |keys|
  {
    var k := keys[0];
    assert keys == [k] + keys[1..] && k in Elements(keys);
    if c in PlanChanged(keys[1..], base, remote) {
      ChangedFits(keys[1..], base, remote, wheels, claimed, c);
    } else {
      assert c == DiffCommon(k.id, base[k.id], remote[k.project]).value;
      DiffFits(k.id, base[k.id], remote[k.project], wheels, claimed);
    }
  }

  /** The plan of a page fits any later rows under which its live wheels are live or claimed. */
  lemma SyncPlanFits(db: DB, project: string, serial: int, files: seq<ProjectFile>, wheels: Wheels, claimed: set<int>)
    requires forall id :: id in LiveOf(db.wheels, project) ==>
               id in claimed || (id in wheels && wheels[id].state != DELETED)
    ensures PlanFits(wheels, db.unlinked.Values, claimed, SyncPlan(db, project, serial, files))
  {
    var remote, plan := RemoteFiles(files), SyncPlan(db, project, serial, files);
    var newKeys, common := Sorted(NewKeys(db.wheels, project, remote)), Sorted(CommonKeys(db.wheels, project, remote));
    SortedIsTable(CommonKeys(db.wheels, project, remote));
    forall n | n in plan.newWheels && n.blob.Some? ensures n.blob.value in db.unlinked.Values {
      NewFits(newKeys, remote, db.unlinked, n);
    }
    forall k | k in Elements(common) && k.id in db.wheels && db.wheels[k.id].state != DELETED
      ensures k.id in LiveOf(db.wheels, project)
    {
      LocalKey(db.wheels, project, k);
    }
    forall c | c in plan.changed ensures FitsChange(wheels, claimed, c) {
      ChangedFits(common, db.wheels, remote, wheels, claimed, c);
    }
  }

  lemma SyncLinks(db: DB, ctr: nat, project: string, serial: int, files: seq<ProjectFile>, now: Time, claimed: set<int>)
    ensures WriteOk(db, ApplyPlan(db, ctr, SyncPlan(db, project, serial, files), now).db, claimed, db.unlinked.Values)
  {
    SyncPlanFits(db, project, serial, files, db.wheels, claimed);
    PlanLinks(db, ctr, SyncPlan(db, project, serial, files), now, claimed, db.unlinked.Values);
  }

  /** A plan built from the rows read may be applied at any later moment of the same process, however
      the tables changed in between: `WritePlan` stays enabled while what it relies on is held. */
  lemma StalePlanFits(c: Codec, target: nat, st: State, project: string, serial: int, files: seq<ProjectFile>,
                      later: State, now: Time)
    requires Enabled(c, st, ReadProject(project)) && later.process.Up?
    requires var held := Next(c, target, st, ReadProject(project)).process;
             held.indexed <= later.process.indexed && held.claimed <= later.process.claimed
    ensures Enabled(c, later, WritePlan(SyncPlan(st.db, project, serial, files), now))
  {
    SyncPlanFits(st.db, project, serial, files, later.db.wheels, later.process.claimed);
  }

  lemma OpLinks(op: Op, db: DB, ctr: nat, indexed: set<Digest>, claimed: set<int>)
    requires MayWrite(db, indexed, claimed, op)
    ensures WriteOk(db, Committed(db, Run(op, db, ctr)), claimed, indexed + db.unlinked.Values)
  {
    var sources := indexed + db.unlinked.Values;
    match op
    case Reprocess(ids, below, now) =>
      RowLoopLinks(op, db, ctr, indexed, claimed);
      WidenLinks(db.wheels, Run(op, db, ctr).db.wheels, claimed, indexed, sources);
    case Unquarantine(ids, now) =>
      RowLoopLinks(op, db, ctr, indexed, claimed);
      WidenLinks(db.wheels, Run(op, db, ctr).db.wheels, claimed, indexed, sources);
    case Sync(project, serial, files, now) =>
      SyncLinks(db, ctr, project, serial, files, now, claimed);
      WidenLinks(db.wheels, Run(op, db, ctr).db.wheels, claimed, db.unlinked.Values, sources);
    case Gone(project, now) =>
      TombstoneLinks(db.wheels, ctr, Ids(Sorted(LiveIds(db.wheels, project))), now, claimed, sources);
    case _ => OutcomeLinks(op, db, ctr, indexed, claimed, sources);
  }

  /** An outcome rewrites one wheel at most. */
  ghost predicate OneRowWrite(db: DB, db': DB, id: int) {
    && db'.blobs == db.blobs && db'.unlinked == db.unlinked && db'.wheels.Keys == db.wheels.Keys
    && forall x :: x in db.wheels && x != id ==> db'.wheels[x] == db.wheels[x]
  }

  lemma FetchShape(db: DB, ctr: nat, item: Item, sha: Digest, now: Time)
    ensures var db' := Committed(db, OkFetch(db, ctr, item, sha, now));
            && OneRowWrite(db, db', item.id)
            && (item.id in db.wheels ==>
                  db'.wheels[item.id] == db.wheels[item.id] || db'.wheels[item.id].blob == Some(sha))
  {
  }

  lemma ConvertShape(db: DB, ctr: nat, item: Item, condaName: string, version: string, now: Time)
    ensures var db' := Committed(db, OkConvert(db, ctr, item, condaName, version, now));
            OneRowWrite(db, db', item.id)
            && (item.id in db.wheels ==> db'.wheels[item.id].blob == db.wheels[item.id].blob)
  {
  }

  lemma SkipShape(db: DB, ctr: nat, stage: Stage, item: Item, reason: string, permanent: bool,
                  version: Option<string>, now: Time)
    ensures var db' := Committed(db, SkipWheel(db, ctr, stage, item, reason, permanent, version, now));
            OneRowWrite(db, db', item.id)
            && (item.id in db.wheels ==> db'.wheels[item.id].blob == db.wheels[item.id].blob)
  {
  }

  lemma RetryShapeOf(db: DB, ctr: nat, stage: Stage, item: Item, maxAttempts: nat, now: Time, due: Time)
    ensures var db' := Committed(db, RetryWheel(db, ctr, stage, item, maxAttempts, now, due));
            OneRowWrite(db, db', item.id)
            && (item.id in db.wheels ==> db'.wheels[item.id].blob == db.wheels[item.id].blob)
  {
    if RetryWheel(db, ctr, stage, item, maxAttempts, now, due).Applied? {
      RetryShape(db, ctr, stage, item, maxAttempts, now, due);
    }
  }

  lemma OutcomeShape(op: Op, db: DB, ctr: nat)
    requires op.FetchOk? || op.ConvertOk? || op.SkipOutcome? || op.RetryOutcome?
    ensures var db' := Committed(db, Run(op, db, ctr));
            && OneRowWrite(db, db', op.item.id)
            && (op.item.id in db.wheels ==>
                 || (!op.FetchOk? && db'.wheels[op.item.id].blob == db.wheels[op.item.id].blob)
                 || db'.wheels[op.item.id] == db.wheels[op.item.id]
                 || (op.FetchOk? && db'.wheels[op.item.id].blob == Some(op.sha)))
  {
    match op
    case FetchOk(item, sha, now) => FetchShape(db, ctr, item, sha, now);
    case ConvertOk(item, condaName, version, now) => ConvertShape(db, ctr, item, condaName, version, now);
    case SkipOutcome(stage, item, reason, permanent, version, now) =>
      SkipShape(db, ctr, stage, item, reason, permanent, version, now);
    case RetryOutcome(stage, item, maxAttempts, now, due) => RetryShapeOf(db, ctr, stage, item, maxAttempts, now, due);
  }

  lemma OutcomeLinks(op: Op, db: DB, ctr: nat, indexed: set<Digest>, claimed: set<int>, sources: set<Digest>)
    requires op.FetchOk? || op.ConvertOk? || op.SkipOutcome? || op.RetryOutcome?
    requires MayWrite(db, indexed, claimed, op) && indexed <= sources
    ensures WriteOk(db, Committed(db, Run(op, db, ctr)), claimed, sources)
  {
    var db' := Committed(db, Run(op, db, ctr));
    OutcomeShape(op, db, ctr);
    forall id | id in db'.wheels && Linked(db'.wheels[id], id in claimed)
      ensures LinkSource(db.wheels, db'.wheels[id], claimed, sources, id)
    {
    }
  }

  lemma WriteKeepsInv(c: Codec, st: State, db': DB, ctr': nat)
    requires Inv(c, st) && st.process.Up?
    requires WriteOk(st.db, db', st.process.claimed, st.process.indexed + st.db.unlinked.Values)
    ensures Inv(c, st.(db := db', ctr := ctr'))
  {
    forall id | id in db'.wheels && Linked(db'.wheels[id], id in st.process.claimed)
      ensures db'.wheels[id].blob.value in db'.blobs
    {
      assert LinkSource(st.db.wheels, db'.wheels[id], st.process.claimed,
                        st.process.indexed + st.db.unlinked.Values, id);
    }
  }

  lemma StepKeepsInv(c: Codec, target: nat, st: State, step: Step)
    requires Sound(c) && Inv(c, st) && Enabled(c, st, step)
    ensures Inv(c, Next(c, target, st, step))
  {
    match step
    case RecoverSome(shas) => RecoverStep(c, target, st, shas);
    case SegmentDone(id) => DoneStep(c, target, st, id);
    case AllocateRow(id) => OpenStep(c, target, st, step);
    case CreateFile => OpenStep(c, target, st, step);
    case MarkSealed => OpenStep(c, target, st, step);
    case Buffer(data) => BufferStep(c, target, st, data);
    case IndexBlob(data) => IndexStep(c, target, st, data);
    case Rename => RenameStep(c, target, st);
    case WritePlan(plan, now) =>
      PlanLinks(st.db, st.ctr, plan, now, st.process.claimed, st.process.indexed);
      WidenLinks(st.db.wheels, ApplyPlan(st.db, st.ctr, plan, now).db.wheels, st.process.claimed, st.process.indexed,
                 st.process.indexed + st.db.unlinked.Values);
      WriteKeepsInv(c, st, ApplyPlan(st.db, st.ctr, plan, now).db, ApplyPlan(st.db, st.ctr, plan, now).ctr);
    case Write(op) =>
      OpLinks(op, st.db, st.ctr, st.process.indexed, st.process.claimed);
      WriteKeepsInv(c, st, Committed(st.db, Run(op, st.db, st.ctr)), Run(op, st.db, st.ctr).ctr);
    case _ => MemoryStep(c, target, st, step);
  }

  // ----------------------------------------------------------------- whole runs

  predicate CanRun(c: Codec, target: nat, st: State, steps: seq<Step>)
    decreases |steps|
  {
    steps == [] || (Enabled(c, st, steps[0]) && CanRun(c, target, Next(c, target, st, steps[0]), steps[1..]))
  }

  function Exec(c: Codec, target: nat, st: State, steps: seq<Step>): State
    requires CanRun(c, target, st, steps)
    decreases |steps|
  {
    if steps == [] then st else Exec(c, target, Next(c, target, st, steps[0]), steps[1..])
  }

  lemma {:induction false} RunKeepsInv(c: Codec, target: nat, st: State, steps: seq<Step>)
    requires Sound(c) && Inv(c, st) && CanRun(c, target, st, steps)
    ensures Inv(c, Exec(c, target, st, steps))
    decreases |steps|
  {
    if steps != [] {
      StepKeepsInv(c, target, st, steps[0]);
      RunKeepsInv(c, target, Next(c, target, st, steps[0]), steps[1..]);
    }
  }

  function Blank(process: Process, segments: map<nat, bool>, openFiles: set<nat>, files: Files,
                 blobs: map<Digest, BlobLocation>): State {
    State(DB(map[], map[], map[], map[], blobs, map[], map[]), 0, Disk(segments, openFiles, files), process)
  }

  /** The location of a lone body in segment 0. */
  function LoneRow(d: Bytes): BlobLocation { BlobLocation(Sha256(d), 0, 0, 0, |d|) }

  lemma LonePack(target: nat, d: Bytes)
    ensures PackAdd(target, EMPTY, d) == Pack([], [d]) && AllGroups(Pack([], [d])) == [[d]]
    ensures d in Bodies(Pack([], [d])) && IndexOf(0, PackRecords(Pack([], [d]))) == map[Sha256(d) := LoneRow(d)]
  {
    FirstRecord(0, d);
    var r := RecordEntry(Sha256(d), 0, 0, |d|);
    assert PackRecords(Pack([], [d])) == [] + [r];
    IndexAppend(0, [], r);
  }

  lemma IndexOne(c: Codec, target: nat, d: Bytes)
    ensures var st := Blank(Up(Open(0, Pack([], [d])), {}, {}), map[0 := false], {0}, map[], map[]);
            && Enabled(c, st, IndexBlob(d))
            && Next(c, target, st, IndexBlob(d)) ==
               Blank(Up(Open(0, Pack([], [d])), {Sha256(d)}, {}), map[0 := false], {0}, map[],
                     map[Sha256(d) := LoneRow(d)])
  {
    LonePack(target, d);
    assert {} + {Sha256(d)} == {Sha256(d)};
    assert InsertOrIgnore(map[], LoneRow(d)) == map[Sha256(d) := LoneRow(d)];
  }

  lemma RenameOne(c: Codec, target: nat, d: Bytes)
    requires FitsTrailer(TrailerOf(c, [[d]]))
    ensures var rows := map[Sha256(d) := LoneRow(d)];
            var st := Blank(Up(Open(0, Pack([], [d])), {Sha256(d)}, {}), map[0 := false], {0}, map[], rows);
            && Enabled(c, st, Rename)
            && Next(c, target, st, Rename) ==
               Blank(Up(Renamed(0), {Sha256(d)}, {}), map[0 := false], {}, map[0 := Image(c, [[d]])], rows)
  {
    LonePack(target, d);
    assert {0} - {0} == {};
    assert map[][0 := Image(c, [[d]])] == map[0 := Image(c, [[d]])];
  }

  lemma BufferOne(c: Codec, target: nat, d: Bytes)
    ensures var st := Blank(Up(Open(0, EMPTY), {}, {}), map[0 := false], {0}, map[], map[]);
            && Enabled(c, st, Buffer(d))
            && Next(c, target, st, Buffer(d)) ==
               Blank(Up(Open(0, Pack([], [d])), {}, {}), map[0 := false], {0}, map[], map[])
  {
    LonePack(target, d);
  }

  lemma MarkOne(c: Codec, target: nat, files: Files, rows: map<Digest, BlobLocation>, indexed: set<Digest>)
    ensures var st := Blank(Up(Renamed(0), indexed, {}), map[0 := false], {}, files, rows);
            && Enabled(c, st, MarkSealed)
            && Next(c, target, st, MarkSealed) == Blank(Up(NoWriter, indexed, {}), map[0 := true], {}, files, rows)
  {
  }

  /** The protocol can be walked through: from nothing, a body is buffered, indexed and sealed, */
  lemma SealOne(c: Codec, target: nat, d: Bytes)
    requires Sound(c) && FitsTrailer(TrailerOf(c, [[d]]))
    ensures var st := Blank(Up(Open(0, EMPTY), {}, {}), map[0 := false], {0}, map[], map[]);
            var steps := [Buffer(d), IndexBlob(d), Rename, MarkSealed];
            && CanRun(c, target, st, steps)
            && Exec(c, target, st, steps) ==
               Blank(Up(NoWriter, {Sha256(d)}, {}), map[0 := true], {}, map[0 := Image(c, [[d]])],
                     map[Sha256(d) := LoneRow(d)])
  {
    var st := Blank(Up(Open(0, EMPTY), {}, {}), map[0 := false], {0}, map[], map[]);
    var rows := map[Sha256(d) := LoneRow(d)];
    var s1 := Blank(Up(Open(0, Pack([], [d])), {}, {}), map[0 := false], {0}, map[], map[]);
    var s2 := Blank(Up(Open(0, Pack([], [d])), {Sha256(d)}, {}), map[0 := false], {0}, map[], rows);
    var s3 := Blank(Up(Renamed(0), {Sha256(d)}, {}), map[0 := false], {}, map[0 := Image(c, [[d]])], rows);
    BufferOne(c, target, d);
    IndexOne(c, target, d);
    RenameOne(c, target, d);
    MarkOne(c, target, map[0 := Image(c, [[d]])], rows, {Sha256(d)});
    RunFour(c, target, st, s1, s2, s3, Buffer(d), IndexBlob(d), Rename, MarkSealed);
  }

  lemma RunOne(c: Codec, target: nat, st: State, next: State, a: Step, rest: seq<Step>)
    requires Enabled(c, st, a) && Next(c, target, st, a) == next && CanRun(c, target, next, rest)
    ensures CanRun(c, target, st, [a] + rest) && Exec(c, target, st, [a] + rest) == Exec(c, target, next, rest)
  {
    assert ([a] + rest)[1..] == rest;
  }

  lemma RunFour(c: Codec, target: nat, st: State, s1: State, s2: State, s3: State, a: Step, b: Step, d: Step, e: Step)
    requires Enabled(c, st, a) && Next(c, target, st, a) == s1 && Enabled(c, s1, b) && Next(c, target, s1, b) == s2
    requires Enabled(c, s2, d) && Next(c, target, s2, d) == s3 && Enabled(c, s3, e)
    ensures CanRun(c, target, st, [a, b, d, e]) && Exec(c, target, st, [a, b, d, e]) == Next(c, target, s3, e)
  {
    RunOne(c, target, s3, Next(c, target, s3, e), e, []);
    RunOne(c, target, s2, s3, d, [e] + []);
    RunOne(c, target, s1, s2, b, [d] + ([e] + []));
    RunOne(c, target, st, s1, a, [b] + ([d] + ([e] + [])));
    assert [a, b, d, e] == [a] + ([b] + ([d] + ([e] + [])));
  }

  /** and the process starts, allocates and creates its first segment. */
  lemma StartOne(c: Codec, target: nat)
    ensures var st := Blank(Down, map[], {}, map[], map[]);
            var steps := [Start, Serve, AllocateRow(0), CreateFile];
            && Initial(c, st) && CanRun(c, target, st, steps)
            && Exec(c, target, st, steps) == Blank(Up(Open(0, EMPTY), {}, {}), map[0 := false], {0}, map[], map[])
  {
    var st := Blank(Down, map[], {}, map[], map[]);
    var s1 := Blank(Recovering({}), map[], {}, map[], map[]);
    var s2 := Blank(Up(NoWriter, {}, {}), map[], {}, map[], map[]);
    var s3 := Blank(Up(Allocated(0), {}, {}), map[0 := false], {}, map[], map[]);
    assert Stale(st.disk) == {};
    assert Next(c, target, st, Start) == s1;
    assert Next(c, target, s1, Serve) == s2;
    assert Next(c, target, s2, AllocateRow(0)) == s3;
    RunFour(c, target, st, s1, s2, s3, Start, Serve, AllocateRow(0), CreateFile);
  }

  /** A crash before the seal: recovery drops the row and finishes. */
  lemma CrashBeforeSeal(c: Codec, target: nat, d: Bytes)
    ensures var open := Blank(Up(Open(0, Pack([], [d])), {Sha256(d)}, {}), map[0 := false], {0}, map[],
                              map[Sha256(d) := LoneRow(d)]);
            var steps := [Crash, Start, RecoverSome({Sha256(d)}), SegmentDone(0)];
            && CanRun(c, target, open, steps)
            && Exec(c, target, open, steps) == Blank(Recovering({}), map[0 := false], {0}, map[], map[])
  {
    var rows := map[Sha256(d) := LoneRow(d)];
    var st := Blank(Up(Open(0, Pack([], [d])), {Sha256(d)}, {}), map[0 := false], {0}, map[], rows);
    var s1 := Blank(Down, map[0 := false], {0}, map[], rows);
    var s2 := Blank(Recovering({0}), map[0 := false], {0}, map[], rows);
    var s3 := Blank(Recovering({0}), map[0 := false], {0}, map[], map[]);
    assert Stale(s1.disk) == {0};
    assert Next(c, target, s1, Start) == s2;
    assert RecoverChunk(s2.db, {Sha256(d)}).blobs == map[];
    assert Next(c, target, s2, RecoverSome({Sha256(d)})) == s3;
    RunFour(c, target, st, s1, s2, s3, Crash, Start, RecoverSome({Sha256(d)}), SegmentDone(0));
    assert {0} - {0} == {};
  }

  /** Every live wheel with a blob resolves through `blobs` to a sealed file holding exactly those bytes. */
  predicate AllReadable(c: Codec, st: State) {
    forall id :: id in st.db.wheels && st.db.wheels[id].state != DELETED && st.db.wheels[id].blob.Some? ==>
      var sha := st.db.wheels[id].blob.value;
      sha in st.db.blobs && ReadAt(c, st.disk.files, st.db.blobs[sha]) == Ok(sha.preimage)
  }

  /** In a sealed file, or in the segment being filled. */
  predicate InArchive(c: Codec, st: State, sha: Digest, loc: BlobLocation) {
    Sealed(c, st.disk, sha, loc) || Filling(st.process, sha, loc)
  }

  /** Crash safety: after any run, from no wheels and any readable imports, crashes, interrupted recoveries
      and late plans included, whenever the process is serving, every live link is readable from a sealed
      file or still sits in the segment being filled; and it is sealed whenever no segment is open, as
      right after recovery. */
  lemma CrashSafe(c: Codec, target: nat, st: State, steps: seq<Step>)
    requires Sound(c) && Initial(c, st) && CanRun(c, target, st, steps)
    ensures var st' := Exec(c, target, st, steps);
            st'.process.Up? ==>
              && (!st'.process.writer.Open? ==> AllReadable(c, st'))
              && forall id :: id in st'.db.wheels && Linked(st'.db.wheels[id], false) ==>
                   var sha := st'.db.wheels[id].blob.value;
                   sha in st'.db.blobs && InArchive(c, st', sha, st'.db.blobs[sha])
  {
    InitialInv(c, st);
    RunKeepsInv(c, target, st, steps);
    var st' := Exec(c, target, st, steps);
    if st'.process.Up? {
      forall id | id in st'.db.wheels && Linked(st'.db.wheels[id], false)
        ensures var sha := st'.db.wheels[id].blob.value;
                sha in st'.db.blobs && InArchive(c, st', sha, st'.db.blobs[sha])
      {
        var sha := st'.db.wheels[id].blob.value;
        assert RowOk(c, st'.disk, st'.process, sha, st'.db.blobs[sha]);
      }
    }
  }

  // ----------------------------------------------------------- what recovery does

  /** A wheel whose bytes are being dropped: back to the fetch queue, with nothing derived from them. */
  predicate IsReset(before: DB, after: DB, id: int)
    requires id in before.wheels
  {
    && id in after.wheels && id !in after.repodata
    && after.wheels[id] == before.wheels[id].(state := NEED_METADATA, blob := None, condaName := None)
  }

  predicate IsKept(before: DB, after: DB, id: int)
    requires id in before.wheels
  {
    && id in after.wheels && after.wheels[id] == before.wheels[id]
    && (id in after.repodata <==> id in before.repodata)
    && (id in before.repodata ==> after.repodata[id] == before.repodata[id])
  }

  /** Recovery of some digests resets exactly the live wheels whose blob is one of them, and drops exactly
      their `blobs` rows; skips, work and imports stay. */
  lemma RecoverChunkIs(db: DB, shas: set<Digest>)
    ensures var after := RecoverChunk(db, shas);
            && after.wheels.Keys == db.wheels.Keys
            && (forall id :: id in db.wheels ==>
                  var w := db.wheels[id];
                  if w.blob.Some? && w.blob.value in shas && w.state != DELETED then IsReset(db, after, id)
                  else IsKept(db, after, id))
            && (forall sha :: sha in after.blobs <==> sha in db.blobs && sha !in shas)
            && (forall sha :: sha in after.blobs ==> after.blobs[sha] == db.blobs[sha])
            && after.skips == db.skips && after.work == db.work && after.unlinked == db.unlinked
            && after.pypiIndex == db.pypiIndex
  {
  }

  // ----------------------------------------------- recovery restarts and repeats

  lemma RecoverTwiceWheel(w: Wheel, a: set<Digest>, b: set<Digest>)
    ensures var w1 := if LinkedTo(w, a) then ResetWheel(w) else w;
            (if LinkedTo(w1, b) then ResetWheel(w1) else w1) == (if LinkedTo(w, a + b) then ResetWheel(w) else w)
    ensures var w1 := if LinkedTo(w, a) then ResetWheel(w) else w;
            LinkedTo(w, a + b) <==> LinkedTo(w, a) || LinkedTo(w1, b)
  {
  }

  /** Recovering in two goes is recovering once: chunking and interruption do not show. */
  lemma RecoverCompose(db: DB, a: set<Digest>, b: set<Digest>)
    ensures RecoverChunk(RecoverChunk(db, a), b) == RecoverChunk(db, a + b)
  {
    var d1 := RecoverChunk(db, a);
    var d2, d3 := RecoverChunk(d1, b), RecoverChunk(db, a + b);
    forall id | id in db.wheels
      ensures d2.wheels[id] == d3.wheels[id]
      ensures LinkedTo(db.wheels[id], a + b) <==> LinkedTo(db.wheels[id], a) || LinkedTo(d1.wheels[id], b)
    {
      RecoverTwiceWheel(db.wheels[id], a, b);
    }
    assert d2.wheels == d3.wheels;
    assert d2.repodata == d3.repodata;
    assert d2.blobs == d3.blobs;
  }

  function StaleShas(db: DB, disk: Disk): set<Digest> {
    set sha | sha in db.blobs && db.blobs[sha].segmentId in Stale(disk)
  }

  /** A complete startup recovery: every stale row dropped, then serving. */
  function Recovered(st: State): State {
    st.(db := RecoverChunk(st.db, StaleShas(st.db, st.disk)), process := Up(NoWriter, {}, {}))
  }

  /** From every reachable state, a crash followed by recovery serves with every live link readable. */
  lemma RecoveredSafe(c: Codec, target: nat, st: State)
    requires Sound(c) && Inv(c, st)
    ensures Inv(c, Recovered(st)) && AllReadable(c, Recovered(st))
  {
    var down := Next(c, target, st, Crash);
    StepKeepsInv(c, target, st, Crash);
    var started := Next(c, target, down, Start);
    StepKeepsInv(c, target, down, Start);
    var shas := StaleShas(st.db, st.disk);
    var cleaned := Next(c, target, started, RecoverSome(shas));
    StepKeepsInv(c, target, started, RecoverSome(shas));
    NoRowsLeft(c, cleaned);
  }

  /** A whole startup recovery resets every live wheel whose row names a partial file of a segment that is
      not marked sealed, and leaves every other one alone. */
  lemma RecoveredRows(st: State, id: int)
    requires id in st.db.wheels && st.db.wheels[id].state != DELETED && st.db.wheels[id].blob.Some?
    requires st.db.wheels[id].blob.value in st.db.blobs
    ensures var sha := st.db.wheels[id].blob.value;
            var segment := st.db.blobs[sha].segmentId;
            if segment in st.disk.openFiles && !(segment in st.disk.segments && st.disk.segments[segment])
            then IsReset(st.db, Recovered(st).db, id) && sha !in Recovered(st).db.blobs
            else IsKept(st.db, Recovered(st).db, id) && sha in Recovered(st).db.blobs
  {
    RecoverChunkIs(st.db, StaleShas(st.db, st.disk));
  }

  /** In every reachable state, that leaves alone exactly the live wheels whose row names a sealed file. */
  lemma RecoveredKeepsSealed(c: Codec, st: State, id: int)
    requires Inv(c, st) && id in st.db.wheels && st.db.wheels[id].state != DELETED && st.db.wheels[id].blob.Some?
    requires st.db.wheels[id].blob.value in st.db.blobs
    ensures var segment := st.db.blobs[st.db.wheels[id].blob.value].segmentId;
            if segment in st.disk.files then IsKept(st.db, Recovered(st).db, id)
            else segment in st.disk.openFiles && IsReset(st.db, Recovered(st).db, id)
  {
    var sha := st.db.wheels[id].blob.value;
    RecoveredRows(st, id);
    assert RowOk(c, st.disk, st.process, sha, st.db.blobs[sha]);
  }

  lemma NoRowsLeft(c: Codec, st: State)
    requires Inv(c, st) && st.process.Recovering?
    requires forall sha :: sha in st.db.blobs ==> st.db.blobs[sha].segmentId !in st.process.todo
    ensures Inv(c, st.(process := Up(NoWriter, {}, {}))) && AllReadable(c, st.(process := Up(NoWriter, {}, {})))
  {
    forall sha | sha in st.db.blobs
      ensures Sealed(c, st.disk, sha, st.db.blobs[sha])
      ensures RowOk(c, st.disk, Up(NoWriter, {}, {}), sha, st.db.blobs[sha])
    {
      assert RowOk(c, st.disk, st.process, sha, st.db.blobs[sha]);
    }
  }

  /** Recovery is restartable: whatever part of it an earlier attempt committed, and repeating it
      changes nothing. */
  lemma RecoveryRestartable(st: State, part: set<Digest>)
    requires part <= StaleShas(st.db, st.disk)
    ensures Recovered(st.(db := RecoverChunk(st.db, part))) == Recovered(st)
    ensures Recovered(Recovered(st)) == Recovered(st)
  {
    var all := StaleShas(st.db, st.disk);
    var rest := StaleShas(RecoverChunk(st.db, part), st.disk);
    assert part + rest == all;
    RecoverCompose(st.db, part, rest);
    var again := StaleShas(RecoverChunk(st.db, all), st.disk);
    assert again == {};
    RecoverCompose(st.db, all, again);
    assert all + again == all;
  }

  // ------------------------------------------------------------ segment ids

  lemma {:induction false} SegmentsGrow(c: Codec, target: nat, st: State, steps: seq<Step>)
    requires CanRun(c, target, st, steps)
    ensures st.disk.segments.Keys <= Exec(c, target, st, steps).disk.segments.Keys
    decreases |steps|
  {
    if steps != [] {
      SegmentsGrow(c, target, Next(c, target, st, steps[0]), steps[1..]);
    }
  }

  /** Segment ids are never reused: an id allocated once is refused by every later allocation. */
  lemma IdsNeverReused(c: Codec, target: nat, st: State, id: nat, steps: seq<Step>)
    requires Enabled(c, st, AllocateRow(id)) && CanRun(c, target, Next(c, target, st, AllocateRow(id)), steps)
    ensures !Enabled(c, Exec(c, target, Next(c, target, st, AllocateRow(id)), steps), AllocateRow(id))
  {
    SegmentsGrow(c, target, Next(c, target, st, AllocateRow(id)), steps);
    assert id in Next(c, target, st, AllocateRow(id)).disk.segments.Keys;
  }

  /** `_next_segment_id`: one past the largest id in the table and among the files. */
  method NextSegmentId(maxInTable: int, fileIds: seq<nat>, ghost rows: set<nat>) returns (id: nat)
    requires maxInTable >= -1 && forall x :: x in rows ==> x <= maxInTable
    ensures Greater(rows, id) && forall x :: x in fileIds ==> x < id
    ensures id == maxInTable + 1 || id - 1 in fileIds
  {
    var maxFile: int := -1;
    for i := 0 to |fileIds|
      invariant maxFile >= -1 && forall j :: 0 <= j < i ==> fileIds[j] <= maxFile
      invariant maxFile == -1 || maxFile in fileIds
    {
      if fileIds[i] > maxFile {
        maxFile := fileIds[i];
      }
    }
    id := (if maxInTable > maxFile then maxInTable else maxFile) + 1;
  }

  // --------------------------------------------------- recover_unsealed_segment

  function LinkedIds(wheels: Wheels, shas: set<Digest>): set<int> {
    set id | id in wheels && LinkedTo(wheels[id], shas)
  }

  function Shas(s: seq<Digest>): set<Digest> { set x | x in s }

  lemma LinkedSplit(wheels: Wheels, a: set<Digest>, b: set<Digest>)
    ensures LinkedIds(wheels, a + b) == LinkedIds(wheels, a) + LinkedIds(RecoverWheels(wheels, a), b)
    ensures LinkedIds(wheels, a) !! LinkedIds(RecoverWheels(wheels, a), b)
  {
    forall id | id in wheels
      ensures id in LinkedIds(wheels, a + b) <==>
              id in LinkedIds(wheels, a) || id in LinkedIds(RecoverWheels(wheels, a), b)
      ensures !(id in LinkedIds(wheels, a) && id in LinkedIds(RecoverWheels(wheels, a), b))
    {
    }
  }

  /** The live wheels whose blob has its row in the segment. */
  ghost predicate InSegment(db: DB, segmentId: nat, id: int) {
    && id in db.wheels && db.wheels[id].state != DELETED && db.wheels[id].blob.Some?
    && db.wheels[id].blob.value in db.blobs && db.blobs[db.wheels[id].blob.value].segmentId == segmentId
  }

  lemma SegmentRecovered(db: DB, segmentId: nat, shas: set<Digest>)
    requires forall sha :: sha in shas <==> sha in db.blobs && db.blobs[sha].segmentId == segmentId
    ensures var after := RecoverChunk(db, shas);
            && (forall id :: id in db.wheels ==>
                  if InSegment(db, segmentId, id) then IsReset(db, after, id) else IsKept(db, after, id))
            && (forall sha :: sha in after.blobs <==> sha in db.blobs && db.blobs[sha].segmentId != segmentId)
    ensures LinkedIds(db.wheels, shas) == set id | id in db.wheels && InSegment(db, segmentId, id)
  {
    RecoverChunkIs(db, shas);
  }

  /** The chunk loop over the segment's digests resets exactly the live wheels whose row is in the segment,
      each once, drops exactly the segment's rows, and returns the number of wheels. */
  method RecoverSegment(db: DB, segmentId: nat, shas: seq<Digest>, chunkSize: nat) returns (db': DB, total: nat)
    requires chunkSize > 0
    requires forall sha :: sha in shas <==> sha in db.blobs && db.blobs[sha].segmentId == segmentId
    ensures db' == RecoverChunk(db, Shas(shas))
    ensures forall id :: id in db.wheels ==>
              if InSegment(db, segmentId, id) then IsReset(db, db', id) else IsKept(db, db', id)
    ensures forall sha :: sha in db'.blobs <==> sha in db.blobs && db.blobs[sha].segmentId != segmentId
    ensures total == |set id | id in db.wheels && InSegment(db, segmentId, id)|
  {
    db', total := db, 0;
    var start := 0;
    RecoverNothing(db);
    NoneMeansEmpty(LinkedIds(db.wheels, {}));
    assert Shas(shas[..0]) == {};
    while start < |shas|
      invariant 0 <= start <= |shas|
      invariant db' == RecoverChunk(db, Shas(shas[..start]))
      invariant total == |LinkedIds(db.wheels, Shas(shas[..start]))|
      decreases |shas| - start
    {
      var stop := if start + chunkSize <= |shas| then start + chunkSize else |shas|;
      var chunk := shas[start..stop];
      total := total + |LinkedIds(db'.wheels, Shas(chunk))|;
      db' := RecoverChunk(db', Shas(chunk));
      assert shas[..stop] == shas[..start] + chunk;
      assert Shas(shas[..stop]) == Shas(shas[..start]) + Shas(chunk);
      RecoverCompose(db, Shas(shas[..start]), Shas(chunk));
      LinkedSplit(db.wheels, Shas(shas[..start]), Shas(chunk));
      start := stop;
    }
    assert shas[..|shas|] == shas;
    assert forall sha :: sha in Shas(shas) <==> sha in db.blobs && db.blobs[sha].segmentId == segmentId;
    SegmentRecovered(db, segmentId, Shas(shas));
  }

  lemma RecoverNothing(db: DB)
    ensures RecoverChunk(db, {}) == db
  {
    var d := RecoverChunk(db, {});
    assert forall id :: id in db.wheels ==> d.wheels[id] == db.wheels[id];
    assert forall id :: id in db.repodata ==> id in d.repodata && d.repodata[id] == db.repodata[id];
    assert d.wheels == db.wheels && d.repodata == db.repodata && d.blobs == db.blobs;
  }
}
