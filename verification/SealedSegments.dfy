/** Over whole runs of the archive protocol: every sealed segment verifies but for missing rows, and a
    missing row is kept by an older sealed segment if every body was indexed before the seal. */
module SealedSegments {
  import opened Prelude
  import opened SegmentFormat
  import opened SegmentPacking
  import opened SegmentWriting
  import opened Schema
  import opened WriteOps
  import opened Pipeline
  import opened CrashRecovery
  import Reconcile
  import SegmentReading
  import SegmentVerification

  /** The table's rows of the segment being filled are the writer's own locations. */
  ghost predicate RowsAreWriters(blobs: map<Digest, BlobLocation>, id: nat, pack: Pack) {
    forall sha :: sha in blobs && blobs[sha].segmentId == id ==>
      sha in IndexOf(id, PackRecords(pack)) && blobs[sha] == IndexOf(id, PackRecords(pack))[sha]
  }

  ghost predicate FilesTidy(c: Codec, files: Files, blobs: map<Digest, BlobLocation>) {
    forall id :: id in files ==> SegmentVerification.Tidy(c, files[id], blobs, id)
  }

  ghost predicate WriterTidy(blobs: map<Digest, BlobLocation>, process: Process) {
    match process
    case Up(Allocated(id), _, _) => SegmentVerification.NoRowOf(blobs, id)
    case Up(Open(id, pack), _, _) => RowsAreWriters(blobs, id, pack)
    case _ => true
  }

  ghost predicate TidyState(c: Codec, st: State) {
    FilesTidy(c, st.disk.files, st.db.blobs) && WriterTidy(st.db.blobs, st.process)
  }

  /** Dropping rows makes nothing untidy. */
  lemma FewerRows(c: Codec, file: Bytes, blobs: map<Digest, BlobLocation>, fewer: map<Digest, BlobLocation>, id: nat)
    requires SegmentVerification.Tidy(c, file, blobs, id)
    requires forall sha :: sha in fewer && fewer[sha].segmentId == id ==> sha in blobs && blobs[sha] == fewer[sha]
    ensures SegmentVerification.Tidy(c, file, fewer, id)
  {
    var footer := SegmentVerification.FooterPositions(FooterOf(c, file).value.records);
    forall sha | sha in SegmentVerification.BlobPositions(fewer, id)
      ensures sha in footer && footer[sha] == SegmentVerification.BlobPositions(fewer, id)[sha]
    {
      assert sha in SegmentVerification.BlobPositions(blobs, id);
    }
  }

  lemma RecoverTidy(c: Codec, st: State, shas: set<Digest>)
    requires TidyState(c, st) && st.process.Recovering?
    ensures TidyState(c, st.(db := RecoverChunk(st.db, shas)))
  {
    var fewer := RecoverChunk(st.db, shas).blobs;
    forall id | id in st.disk.files ensures SegmentVerification.Tidy(c, st.disk.files[id], fewer, id) {
      FewerRows(c, st.disk.files[id], st.db.blobs, fewer, id);
    }
  }

  /** A fresh segment id has no rows. */
  lemma AllocateTidy(c: Codec, target: nat, st: State, id: nat)
    requires Inv(c, st) && TidyState(c, st) && Enabled(c, st, AllocateRow(id))
    ensures TidyState(c, Next(c, target, st, AllocateRow(id)))
  {
    forall sha | sha in st.db.blobs ensures st.db.blobs[sha].segmentId != id {
      assert RowOk(c, st.disk, st.process, sha, st.db.blobs[sha]);
    }
  }

  lemma BufferTidy(c: Codec, target: nat, st: State, data: Bytes)
    requires TidyState(c, st) && Enabled(c, st, Buffer(data))
    ensures TidyState(c, Next(c, target, st, Buffer(data)))
  {
    var w := st.process.writer;
    IndexAdd(target, w.pack, w.id, data);
    DigestKnown(w.pack, w.id, data);
  }

  /** A row for the segment being filled concerns no sealed file, and is the writer's own. */
  lemma InsertTidy(c: Codec, files: Files, blobs: map<Digest, BlobLocation>, id: nat, pack: Pack, sha: Digest)
    requires FilesTidy(c, files, blobs) && RowsAreWriters(blobs, id, pack) && id !in files
    requires sha in IndexOf(id, PackRecords(pack))
    requires IndexOf(id, PackRecords(pack))[sha].sha256 == sha && IndexOf(id, PackRecords(pack))[sha].segmentId == id
    ensures var blobs' := InsertOrIgnore(blobs, IndexOf(id, PackRecords(pack))[sha]);
            FilesTidy(c, files, blobs') && RowsAreWriters(blobs', id, pack)
  {
    var blobs' := InsertOrIgnore(blobs, IndexOf(id, PackRecords(pack))[sha]);
    forall other | other in files ensures SegmentVerification.Tidy(c, files[other], blobs', other) {
      FewerRows(c, files[other], blobs, blobs', other);
    }
  }

  lemma IndexTidy(c: Codec, target: nat, st: State, data: Bytes)
    requires Inv(c, st) && TidyState(c, st) && Enabled(c, st, IndexBlob(data))
    ensures TidyState(c, Next(c, target, st, IndexBlob(data)))
  {
    var w := st.process.writer;
    LocationKnown(w.pack, w.id, data);
    IndexedRow(c, st.disk, st.process, data);
    InsertTidy(c, st.disk.files, st.db.blobs, w.id, w.pack, Sha256(data));
  }

  /** A segment sealed with its own rows is tidy. */
  lemma ImageTidy(c: Codec, pack: Pack, blobs: map<Digest, BlobLocation>, id: nat)
    requires Sound(c) && FitsTrailer(TrailerOf(c, AllGroups(pack))) && RowsAreWriters(blobs, id, pack)
    ensures SegmentVerification.Tidy(c, Image(c, AllGroups(pack)), blobs, id)
  {
    var gs, index := AllGroups(pack), IndexOf(id, PackRecords(pack));
    SegmentReading.RecordsOfImage(c, gs);
    SegmentVerification.LabelledHashes(Flatten(gs));
    FooterOfImage(c, gs);
    PackRecordsMatch(pack);
    SegmentVerification.IndexIsPositions(id, PackRecords(pack));
    forall sha | sha in SegmentVerification.BlobPositions(blobs, id)
      ensures sha in SegmentVerification.BlobPositions(index, id)
      ensures SegmentVerification.BlobPositions(index, id)[sha] == SegmentVerification.BlobPositions(blobs, id)[sha]
    {
      assert blobs[sha] == index[sha];
    }
  }

  lemma RenameTidy(c: Codec, target: nat, st: State)
    requires Sound(c) && TidyState(c, st) && Enabled(c, st, Rename)
    ensures TidyState(c, Next(c, target, st, Rename))
  {
    ImageTidy(c, st.process.writer.pack, st.db.blobs, st.process.writer.id);
  }

  lemma WriteTidy(c: Codec, target: nat, st: State, op: Op)
    requires TidyState(c, st) && Enabled(c, st, Write(op))
    ensures TidyState(c, Next(c, target, st, Write(op)))
  {
    OpLinks(op, st.db, st.ctr, st.process.indexed, st.process.claimed);
    assert Committed(st.db, Run(op, st.db, st.ctr)).blobs == st.db.blobs;
  }

  lemma PlanTidy(c: Codec, target: nat, st: State, plan: Reconcile.Plan, now: Time)
    requires TidyState(c, st) && Enabled(c, st, WritePlan(plan, now))
    ensures TidyState(c, Next(c, target, st, WritePlan(plan, now)))
  {
    PlanLinks(st.db, st.ctr, plan, now, st.process.claimed, st.process.indexed);
    assert Reconcile.ApplyPlan(st.db, st.ctr, plan, now).db.blobs == st.db.blobs;
  }

  lemma StepTidy(c: Codec, target: nat, st: State, step: Step)
    requires Sound(c) && Inv(c, st) && TidyState(c, st) && Enabled(c, st, step)
    ensures TidyState(c, Next(c, target, st, step))
  {
    match step
    case RecoverSome(shas) => RecoverTidy(c, st, shas);
    case AllocateRow(id) => AllocateTidy(c, target, st, id);
    case Buffer(data) => BufferTidy(c, target, st, data);
    case IndexBlob(data) => IndexTidy(c, target, st, data);
    case Rename => RenameTidy(c, target, st);
    case Write(op) => WriteTidy(c, target, st, op);
    case WritePlan(plan, now) => PlanTidy(c, target, st, plan, now);
    case _ =>
  }

  lemma {:induction false} RunTidy(c: Codec, target: nat, st: State, steps: seq<Step>)
    requires Sound(c) && Inv(c, st) && TidyState(c, st) && CanRun(c, target, st, steps)
    ensures TidyState(c, Exec(c, target, st, steps))
    decreases |steps|
  {
    if steps != [] {
      StepKeepsInv(c, target, st, steps[0]);
      StepTidy(c, target, st, steps[0]);
      RunTidy(c, target, Next(c, target, st, steps[0]), steps[1..]);
    }
  }

  /** After any run, crashes and recoveries included, the only problem verification can report of a
      sealed segment is a record without a row of that segment. */
  lemma SealedStayTidy(c: Codec, target: nat, st: State, steps: seq<Step>, id: nat)
    requires Sound(c) && Initial(c, st) && FilesTidy(c, st.disk.files, st.db.blobs) && CanRun(c, target, st, steps)
    requires id in Exec(c, target, st, steps).disk.files
    ensures var st' := Exec(c, target, st, steps); SegmentVerification.Tidy(c, st'.disk.files[id], st'.db.blobs, id)
  {
    InitialInv(c, st);
    RunTidy(c, target, st, steps);
  }

  // ---------------------------------------------------- where the missing rows are

  /** The digests a sealed file has records of. */
  ghost function RecordDigests(c: Codec, file: Bytes): set<Digest> {
    if FooterOf(c, file).Ok? then SegmentVerification.FooterPositions(FooterOf(c, file).value.records).Keys else {}
  }

  /** The digest has a row, in the segment itself or in an older sealed one. */
  predicate Serves(files: Files, blobs: map<Digest, BlobLocation>, id: nat, sha: Digest) {
    sha in blobs && blobs[sha].segmentId in files && blobs[sha].segmentId <= id
  }

  ghost predicate Kept(c: Codec, st: State, id: nat)
    requires id in st.disk.files
  {
    forall sha :: sha in RecordDigests(c, st.disk.files[id]) ==> Serves(st.disk.files, st.db.blobs, id, sha)
  }

  ghost predicate AllKept(c: Codec, st: State) { forall id :: id in st.disk.files ==> Kept(c, st, id) }

  /** The segment being filled is younger than every sealed one. */
  predicate Youngest(st: State) {
    match st.process
    case Up(Allocated(id), _, _) => Greater(st.disk.files.Keys, id)
    case Up(Open(id, _), _, _) => Greater(st.disk.files.Keys, id)
    case _ => true
  }

  lemma StepYoungest(c: Codec, target: nat, st: State, step: Step)
    requires Youngest(st) && Enabled(c, st, step)
    ensures Youngest(Next(c, target, st, step))
  {
  }

  /** Sealed files are immutable. */
  lemma StepFiles(c: Codec, target: nat, st: State, step: Step, id: nat)
    requires DiskOk(st.disk) && WriterOk(st.disk, st.process) && Enabled(c, st, step) && id in st.disk.files
    ensures var st' := Next(c, target, st, step); id in st'.disk.files && st'.disk.files[id] == st.disk.files[id]
  {
  }

  /** Recovery drops rows of partial files only. */
  lemma RecoverKeepsRow(c: Codec, st: State, shas: set<Digest>, sha: Digest)
    requires DiskOk(st.disk) && WriterOk(st.disk, st.process) && Enabled(c, st, RecoverSome(shas))
    requires sha in st.db.blobs && st.db.blobs[sha].segmentId in st.disk.files
    ensures var blobs := RecoverChunk(st.db, shas).blobs; sha in blobs && blobs[sha] == st.db.blobs[sha]
  {
  }

  /** No step drops a row that points into a sealed file. */
  lemma StepKeepsRow(c: Codec, target: nat, st: State, step: Step, sha: Digest)
    requires DiskOk(st.disk) && WriterOk(st.disk, st.process) && Enabled(c, st, step)
    requires sha in st.db.blobs && st.db.blobs[sha].segmentId in st.disk.files
    ensures var blobs := Next(c, target, st, step).db.blobs; sha in blobs && blobs[sha] == st.db.blobs[sha]
  {
    match step
    case RecoverSome(shas) => RecoverKeepsRow(c, st, shas, sha);
    case Write(op) => OpLinks(op, st.db, st.ctr, st.process.indexed, st.process.claimed);
    case WritePlan(plan, now) => PlanLinks(st.db, st.ctr, plan, now, st.process.claimed, st.process.indexed);
    case _ =>
  }

  lemma StepKept(c: Codec, target: nat, st: State, step: Step, id: nat)
    requires Inv(c, st) && Enabled(c, st, step) && id in st.disk.files && Kept(c, st, id)
    ensures var st' := Next(c, target, st, step); id in st'.disk.files && Kept(c, st', id)
  {
    var st' := Next(c, target, st, step);
    StepFiles(c, target, st, step, id);
    forall sha | sha in RecordDigests(c, st'.disk.files[id]) ensures Serves(st'.disk.files, st'.db.blobs, id, sha) {
      assert Serves(st.disk.files, st.db.blobs, id, sha);
      StepKeepsRow(c, target, st, step, sha);
      StepFiles(c, target, st, step, st.db.blobs[sha].segmentId);
    }
  }

  lemma DigestsOfImage(c: Codec, pack: Pack, id: nat, sha: Digest)
    requires Sound(c) && FitsTrailer(TrailerOf(c, AllGroups(pack)))
    ensures sha in RecordDigests(c, Image(c, AllGroups(pack))) <==> sha.preimage in Bodies(pack)
  {
    FooterOfImage(c, AllGroups(pack));
    PackRecordsMatch(pack);
    SegmentVerification.IndexIsPositions(id, PackRecords(pack));
    DigestKnown(pack, id, sha.preimage);
    assert sha == Sha256(sha.preimage);
    var index := IndexOf(id, PackRecords(pack));
    assert SegmentVerification.BlobPositions(index, id).Keys == index.Keys;
  }

  /** Every body of the segment being filled has a row, whichever segment it points to. */
  predicate AllIndexed(blobs: map<Digest, BlobLocation>, pack: Pack) {
    forall d :: d in Bodies(pack) ==> Sha256(d) in blobs
  }

  /** The rows of a segment being sealed are its own or in an older sealed segment if and only if every
      body was indexed before the rename. */
  lemma RenameKeepsIff(c: Codec, target: nat, st: State)
    requires Sound(c) && Inv(c, st) && Youngest(st) && Enabled(c, st, Rename)
    ensures var st', w := Next(c, target, st, Rename), st.process.writer;
            w.id in st'.disk.files && (Kept(c, st', w.id) <==> AllIndexed(st.db.blobs, w.pack))
  {
    var st', w := Next(c, target, st, Rename), st.process.writer;
    forall sha ensures sha in RecordDigests(c, st'.disk.files[w.id]) <==> sha.preimage in Bodies(w.pack) {
      DigestsOfImage(c, w.pack, w.id, sha);
    }
    forall sha | sha in st.db.blobs ensures Serves(st'.disk.files, st'.db.blobs, w.id, sha) {
      assert RowOk(c, st.disk, st.process, sha, st.db.blobs[sha]);
    }
    forall d | d in Bodies(w.pack) ensures Sha256(d) in RecordDigests(c, st'.disk.files[w.id]) {
      assert Sha256(d).preimage == d;
    }
    forall sha | sha in RecordDigests(c, st'.disk.files[w.id]) ensures sha == Sha256(sha.preimage) {
    }
  }

  /** `ArchiveStore.add` buffers and indexes in turn, so no segment is sealed with a body that was
      buffered and not indexed, unless the insert failed in between. */
  predicate SealsIndexed(c: Codec, target: nat, st: State, steps: seq<Step>)
    requires CanRun(c, target, st, steps)
    decreases |steps|
  {
    steps == [] ||
    (&& (steps[0].Rename? ==> AllIndexed(st.db.blobs, st.process.writer.pack))
     && SealsIndexed(c, target, Next(c, target, st, steps[0]), steps[1..]))
  }

  lemma StepAllKept(c: Codec, target: nat, st: State, step: Step)
    requires Sound(c) && Inv(c, st) && Youngest(st) && AllKept(c, st) && Enabled(c, st, step)
    requires step.Rename? ==> AllIndexed(st.db.blobs, st.process.writer.pack)
    ensures AllKept(c, Next(c, target, st, step))
  {
    var st' := Next(c, target, st, step);
    forall id | id in st'.disk.files ensures Kept(c, st', id) {
      if id in st.disk.files {
        StepKept(c, target, st, step, id);
      } else {
        RenameKeepsIff(c, target, st);
      }
    }
  }

  lemma {:induction false} RunAllKept(c: Codec, target: nat, st: State, steps: seq<Step>)
    requires Sound(c) && Inv(c, st) && Youngest(st) && AllKept(c, st)
    requires CanRun(c, target, st, steps) && SealsIndexed(c, target, st, steps)
    ensures AllKept(c, Exec(c, target, st, steps))
    decreases |steps|
  {
    if steps != [] {
      StepKeepsInv(c, target, st, steps[0]);
      StepYoungest(c, target, st, steps[0]);
      StepAllKept(c, target, st, steps[0]);
      RunAllKept(c, target, Next(c, target, st, steps[0]), steps[1..]);
    }
  }

  lemma ServedIsReadable(c: Codec, st: State, id: nat, sha: Digest)
    requires Inv(c, st) && Serves(st.disk.files, st.db.blobs, id, sha)
    ensures ReadAt(c, st.disk.files, st.db.blobs[sha]) == Ok(sha.preimage)
  {
    assert RowOk(c, st.disk, st.process, sha, st.db.blobs[sha]);
  }

  /** After any such run, crashes and recoveries included, every record of every sealed file has a row in
      that segment or in an older sealed one, and reading through the row gives the body: no archived
      record is ever lost. */
  lemma SealedStayReadable(c: Codec, target: nat, st: State, steps: seq<Step>, id: nat, sha: Digest)
    requires Sound(c) && Initial(c, st) && AllKept(c, st)
    requires CanRun(c, target, st, steps) && SealsIndexed(c, target, st, steps)
    requires var files := Exec(c, target, st, steps).disk.files; id in files && sha in RecordDigests(c, files[id])
    ensures var st' := Exec(c, target, st, steps);
            && Serves(st'.disk.files, st'.db.blobs, id, sha)
            && ReadAt(c, st'.disk.files, st'.db.blobs[sha]) == Ok(sha.preimage)
  {
    var st' := Exec(c, target, st, steps);
    InitialInv(c, st);
    RunAllKept(c, target, st, steps);
    RunKeepsInv(c, target, st, steps);
    assert Kept(c, st', id);
    ServedIsReadable(c, st', id, sha);
  }

  /** A serving process that has just created its first segment. */
  function FirstSegment(): State {
    State(DB(map[], map[], map[], map[], map[], map[], map[]), 0, Disk(map[0 := false], {0}, map[]),
          Up(Open(0, EMPTY), {}, {}))
  }

  lemma FirstSegmentOk(c: Codec)
    ensures Inv(c, FirstSegment()) && TidyState(c, FirstSegment()) && Youngest(FirstSegment())
  {
  }

  /** A body that is buffered while its insert fails is sealed without a row in any segment, though the
      segment is tidy. */
  lemma UnindexedBodyLost(c: Codec, target: nat, d: Bytes)
    requires Sound(c) && FitsTrailer(TrailerOf(c, [[d]]))
    ensures var st := FirstSegment();
            && Inv(c, st) && TidyState(c, st) && CanRun(c, target, st, [Buffer(d), Rename])
            && var st' := Exec(c, target, st, [Buffer(d), Rename]);
            && 0 in st'.disk.files && SegmentVerification.Tidy(c, st'.disk.files[0], st'.db.blobs, 0)
            && Sha256(d) in RecordDigests(c, st'.disk.files[0]) && st'.db.blobs == map[]
  {
    var st := FirstSegment();
    var mid := Next(c, target, st, Buffer(d));
    FirstSegmentOk(c);
    assert mid.process.writer.pack == Pack([], [d]) && AllGroups(Pack([], [d])) == [[d]];
    assert [Buffer(d), Rename][1..] == [Rename] && [Rename][1..] == [];
    StepKeepsInv(c, target, st, Buffer(d));
    StepTidy(c, target, st, Buffer(d));
    StepTidy(c, target, mid, Rename);
    DigestsOfImage(c, mid.process.writer.pack, 0, Sha256(d));
  }
}
