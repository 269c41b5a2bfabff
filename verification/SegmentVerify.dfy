/** `archive/verify.py`: the read-only integrity pass over one sealed segment. */
module SegmentVerification {
  import opened Prelude
  import opened SegmentFormat
  import opened SegmentPacking
  import opened SegmentWriting
  import opened SegmentReading

  datatype Position = Position(blockNo: nat, offset: nat, length: nat)

  datatype Problem =
    | Unreadable(error: ReadError)
    | HashMismatch(claimed: Digest, actual: Digest)
    | NoBlobRow(sha256: Digest)
    | WrongPosition(sha256: Digest)
    | NoFooterRecord(sha256: Digest)

  type Positions = map<Digest, Position>

  /** The dict built from the footer: the last record of a digest wins. */
  function FooterPositions(records: seq<RecordEntry>): Positions {
    if records == [] then map[]
    else
      var r := records[|records| - 1];
      FooterPositions(records[..|records| - 1])[r.sha256 := Position(r.blockNo, r.offset, r.length)]
  }

  /** The blobs rows of one segment, keyed by digest. */
  function BlobPositions(blobs: map<Digest, BlobLocation>, segmentId: nat): Positions {
    map sha | sha in blobs && blobs[sha].segmentId == segmentId ::
      Position(blobs[sha].blockNo, blobs[sha].offset, blobs[sha].length)
  }

  predicate HashesMatch(records: seq<(Digest, Bytes)>) {
    forall i :: 0 <= i < |records| ==> records[i].0 == Sha256(records[i].1)
  }

  /** What a clean report means: the footer decodes, every yielded record hashes to its claim,
      and footer and blobs table agree on digests and positions. */
  ghost predicate Clean(c: Codec, file: Bytes, blobs: map<Digest, BlobLocation>, segmentId: nat) {
    && RecordsInFile(c, file).Ok?
    && HashesMatch(RecordsInFile(c, file).value)
    && FooterPositions(FooterOf(c, file).value.records) == BlobPositions(blobs, segmentId)
  }

  /** Clean but for records without a row in this segment. */
  ghost predicate Tidy(c: Codec, file: Bytes, blobs: map<Digest, BlobLocation>, segmentId: nat) {
    && RecordsInFile(c, file).Ok?
    && HashesMatch(RecordsInFile(c, file).value)
    && RowsMatch(FooterPositions(FooterOf(c, file).value.records), BlobPositions(blobs, segmentId))
  }

  method CheckHashes(records: seq<(Digest, Bytes)>) returns (problems: seq<Problem>)
    ensures problems == [] <==> HashesMatch(records)
    ensures OnlyMissingRows(problems) <==> problems == []
  {
    problems := [];
    for i := 0 to |records|
      invariant problems == [] <==> HashesMatch(records[..i])
      invariant problems != [] ==> !problems[0].NoBlobRow?
    {
      var actual := Sha256(records[i].1);
      if actual != records[i].0 {
        problems := problems + [HashMismatch(records[i].0, actual)];
        assert records[..i + 1][i] == records[i];
      } else {
        assert forall k :: 0 <= k < i ==> records[..i + 1][k] == records[..i][k];
      }
    }
    assert records[..|records|] == records;
  }

  method BuildFooterPositions(records: seq<RecordEntry>) returns (positions: Positions)
    ensures positions == FooterPositions(records)
  {
    positions := map[];
    for i := 0 to |records|
      invariant positions == FooterPositions(records[..i])
    {
      assert records[..i + 1][..i] == records[..i];
      positions := positions[records[i].sha256 := Position(records[i].blockNo, records[i].offset, records[i].length)];
    }
    assert records[..|records|] == records;
  }

  /** Every row of the segment is at its footer position; only rows may be missing. */
  ghost predicate RowsMatch(footer: Positions, blob: Positions) {
    forall sha :: sha in blob ==> sha in footer && footer[sha] == blob[sha]
  }

  /** Nothing is wrong but that some record has no row in this segment. */
  predicate OnlyMissingRows(problems: seq<Problem>) { forall i :: 0 <= i < |problems| ==> problems[i].NoBlobRow? }

  lemma OnlyMissingConcat(a: seq<Problem>, b: seq<Problem>)
    ensures OnlyMissingRows(a + b) <==> OnlyMissingRows(a) && OnlyMissingRows(b)
  {
    if OnlyMissingRows(a + b) {
      assert forall i :: 0 <= i < |a| ==> a[i] == (a + b)[i];
      assert forall i :: 0 <= i < |b| ==> b[i] == (a + b)[|a| + i];
    }
  }

  lemma OtherProblem(p: Problem)
    requires !p.NoBlobRow?
    ensures !OnlyMissingRows([p])
  {
    assert [p][0] == p;
  }

  /** First loop: every footer record has its row, at the right position. */
  method CheckFooterSide(footer: Positions, blob: Positions) returns (problems: seq<Problem>)
    ensures problems == [] <==> forall sha :: sha in footer ==> sha in blob && blob[sha] == footer[sha]
    ensures OnlyMissingRows(problems) <==> forall sha :: sha in footer && sha in blob ==> blob[sha] == footer[sha]
  {
    problems := [];
    var todo := footer.Keys;
    while todo != {}
      invariant todo <= footer.Keys
      invariant problems == [] <==> forall sha :: sha in footer.Keys - todo ==> sha in blob && blob[sha] == footer[sha]
      invariant OnlyMissingRows(problems) <==>
              forall sha :: sha in footer.Keys - todo && sha in blob ==> blob[sha] == footer[sha]
      decreases |todo|
    {
      var sha :| sha in todo;
      if sha !in blob {
        OnlyMissingConcat(problems, [NoBlobRow(sha)]);
        problems := problems + [NoBlobRow(sha)];
      } else if blob[sha] != footer[sha] {
        OnlyMissingConcat(problems, [WrongPosition(sha)]);
        problems := problems + [WrongPosition(sha)];
        OtherProblem(WrongPosition(sha));
      }
      todo := todo - {sha};
    }
  }

  /** Second loop: every row has its footer record. */
  method CheckBlobSide(footer: Positions, blob: Positions) returns (problems: seq<Problem>)
    ensures problems == [] <==> forall sha :: sha in blob ==> sha in footer
    ensures OnlyMissingRows(problems) <==> problems == []
  {
    problems := [];
    var rest := blob.Keys;
    while rest != {}
      invariant rest <= blob.Keys
      invariant problems == [] <==> forall sha :: sha in blob.Keys - rest ==> sha in footer
      invariant problems != [] ==> !problems[0].NoBlobRow?
      decreases |rest|
    {
      var sha :| sha in rest;
      if sha !in footer {
        problems := problems + [NoFooterRecord(sha)];
      }
      rest := rest - {sha};
    }
  }

  method ComparePositions(footer: Positions, blob: Positions) returns (problems: seq<Problem>)
    ensures problems == [] <==> footer == blob
    ensures OnlyMissingRows(problems) <==> RowsMatch(footer, blob)
  {
    var first := CheckFooterSide(footer, blob);
    var second := CheckBlobSide(footer, blob);
    OnlyMissingConcat(first, second);
    problems := first + second;
  }

  /** `_verify_segment`: no problems exactly when the segment is clean. zstd and document-shape
      failures are not caught by the source and come back as `Err`. */
  method VerifySegment(reader: SegmentReader, files: Files, blobs: map<Digest, BlobLocation>, segmentId: nat)
      returns (r: Result<seq<Problem>, ReadError>)
    requires reader.FootersMatch(files)
    modifies reader`footers
    ensures r.Ok? ==> (r.value == [] <==> segmentId in files && Clean(reader.codec, files[segmentId], blobs, segmentId))
    ensures r.Ok? ==> (OnlyMissingRows(r.value) <==>
            segmentId in files && Tidy(reader.codec, files[segmentId], blobs, segmentId))
    ensures r.Err? <==> segmentId in files && RecordsInFile(reader.codec, files[segmentId]).Err?
                        && RecordsInFile(reader.codec, files[segmentId]).error != CorruptSegment
                        && RecordsInFile(reader.codec, files[segmentId]).error != FileNotFound
  {
    var footer := reader.FooterFor(files, segmentId);
    if footer.Err? {
      OtherProblem(Unreadable(footer.error));
      return if footer.error == CorruptSegment || footer.error == FileNotFound
        then Ok([Unreadable(footer.error)]) else Err(footer.error);
    }
    var records := reader.IterRecords(files, segmentId);
    if records.Err? {
      OtherProblem(Unreadable(records.error));
      return if records.error == CorruptSegment || records.error == FileNotFound
        then Ok([Unreadable(records.error)]) else Err(records.error);
    }
    var hashes := CheckHashes(records.value);
    var footerPositions := BuildFooterPositions(footer.value.records);
    var positions := ComparePositions(footerPositions, BlobPositions(blobs, segmentId));
    OnlyMissingConcat(hashes, positions);
    r := Ok(hashes + positions);
  }

  // ------------------------------------------------------------------ soundness

  lemma {:induction false} PositionFromRecord(records: seq<RecordEntry>, sha: Digest)
    requires sha in FooterPositions(records)
    ensures exists k :: 0 <= k < |records| && records[k].sha256 == sha &&
              FooterPositions(records)[sha] == Position(records[k].blockNo, records[k].offset, records[k].length)
  {
    var n := |records| - 1;
    if records[n].sha256 != sha {
      PositionFromRecord(records[..n], sha);
      var k :| 0 <= k < n && records[..n][k].sha256 == sha &&
               FooterPositions(records[..n])[sha] ==
                   Position(records[..n][k].blockNo, records[..n][k].offset, records[..n][k].length);
      assert records[k].sha256 == sha;
    }
  }

  lemma {:induction false} InBlockHas(records: seq<RecordEntry>, k: nat)
    requires k < |records|
    ensures records[k] in InBlock(records, records[k].blockNo)
  {
    if k < |records| - 1 {
      InBlockHas(records[..|records| - 1], k);
    }
  }

  lemma {:induction false} ExtractHas(payload: Bytes, records: seq<RecordEntry>, r: RecordEntry)
    requires r in records
    ensures (r.sha256, Slice(payload, r.offset, r.length)) in Extract(payload, records)
  {
    var n := |records| - 1;
    if r != records[n] {
      assert r in records[..n];
      ExtractHas(payload, records[..n], r);
    }
  }

  lemma {:induction false} WalkHas(c: Codec, file: Bytes, footer: Footer, n: nat, k: nat)
    requires n <= |footer.blocks| && Walk(c, file, footer, n).Ok?
    requires k < |footer.records| && footer.records[k].blockNo < n
    ensures var r := footer.records[k]; var payload := FramePayload(c, file, footer.blocks[r.blockNo]);
            payload.Some? && (r.sha256, Slice(payload.value, r.offset, r.length)) in Walk(c, file, footer, n).value
  {
    var r := footer.records[k];
    if r.blockNo < n - 1 {
      WalkHas(c, file, footer, n - 1, k);
    } else {
      InBlockHas(footer.records, k);
      ExtractHas(FramePayload(c, file, footer.blocks[n - 1]).value, InBlock(footer.records, n - 1), r);
    }
  }

  /** Soundness: after a clean report, for a footer whose block numbers are in range, every
      blobs row of the segment reads back and hashes to its digest. */
  lemma CleanImpliesReadable(c: Codec, files: Files, blobs: map<Digest, BlobLocation>, segmentId: nat, sha: Digest)
    requires segmentId in files && Clean(c, files[segmentId], blobs, segmentId)
    requires var f := FooterOf(c, files[segmentId]).value;
             forall k :: 0 <= k < |f.records| ==> f.records[k].blockNo < |f.blocks|
    requires sha in blobs && blobs[sha].segmentId == segmentId && blobs[sha].sha256 == sha
    ensures ReadAt(c, files, blobs[sha]) == Ok(sha.preimage)
  {
    var file := files[segmentId];
    var f := FooterOf(c, file).value;
    var out := RecordsInFile(c, file).value;
    assert sha in BlobPositions(blobs, segmentId);
    PositionFromRecord(f.records, sha);
    var k :| 0 <= k < |f.records| && f.records[k].sha256 == sha &&
             FooterPositions(f.records)[sha] ==
                 Position(f.records[k].blockNo, f.records[k].offset, f.records[k].length);
    WalkHas(c, file, f, |f.blocks|, k);
    var r := f.records[k];
    var data := Slice(FramePayload(c, file, f.blocks[r.blockNo]).value, r.offset, r.length);
    var i :| 0 <= i < |out| && out[i] == (sha, data);
    assert out[i].0 == Sha256(out[i].1);
  }

  // --------------------------------------------------------------- completeness

  lemma {:induction false} LabelledHashes(bodies: seq<Bytes>)
    ensures HashesMatch(Labelled(bodies))
  {
    if bodies != [] {
      LabelledHashes(bodies[..|bodies| - 1]);
    }
  }

  lemma {:induction false} IndexIsPositions(segmentId: nat, records: seq<RecordEntry>)
    ensures BlobPositions(IndexOf(segmentId, records), segmentId) == FooterPositions(records)
    ensures forall sha :: sha in IndexOf(segmentId, records) ==> IndexOf(segmentId, records)[sha].segmentId == segmentId
  {
    if records != [] {
      IndexIsPositions(segmentId, records[..|records| - 1]);
    }
  }

  /** A segment sealed from any sequence of adds is clean when the rows the table has for it are the
      locations its writer recorded, no more and no fewer. */
  lemma CleanIffLocations(c: Codec, target: nat, segmentId: nat, history: seq<Bytes>, file: Bytes,
                          blobs: map<Digest, BlobLocation>)
    requires Sound(c) && IsImage(c, AllGroups(PackAll(target, history)), file)
    ensures Clean(c, file, blobs, segmentId) <==>
            BlobPositions(blobs, segmentId) ==
                BlobPositions(IndexOf(segmentId, PackRecords(PackAll(target, history))), segmentId)
  {
    var p := PackAll(target, history);
    IterYieldsDedup(c, target, history);
    LabelledHashes(Dedup(history));
    FooterOfImage(c, AllGroups(p));
    PackRecordsMatch(p);
    IndexIsPositions(segmentId, PackRecords(p));
  }

  /** No row of the table points into the segment: it has not been allocated yet. */
  predicate NoRowOf(blobs: map<Digest, BlobLocation>, segmentId: nat) {
    forall sha :: sha in blobs ==> blobs[sha].segmentId != segmentId
  }

  lemma MergedPositions(index: map<Digest, BlobLocation>, earlier: map<Digest, BlobLocation>, segmentId: nat)
    requires NoRowOf(earlier, segmentId) && forall sha :: sha in index ==> index[sha].segmentId == segmentId
    ensures BlobPositions(index + earlier, segmentId) == BlobPositions(index, segmentId) <==>
            forall sha :: sha in index ==> sha !in earlier
  {
    if sha :| sha in index && sha in earlier {
      assert sha in BlobPositions(index, segmentId) && sha !in BlobPositions(index + earlier, segmentId);
    }
  }

  lemma IndexedDigests(target: nat, segmentId: nat, history: seq<Bytes>, sha: Digest)
    ensures sha in IndexOf(segmentId, PackRecords(PackAll(target, history))) <==> sha.preimage in history
  {
    assert sha == Sha256(sha.preimage);
    DigestKnown(PackAll(target, history), segmentId, sha.preimage);
    BodiesAreDedup(target, history);
    DedupDistinct(history);
  }

  /** Completeness: a segment filled by any sequence of adds, each indexed by INSERT OR IGNORE into a
      table that had no row of it, verifies clean once sealed if and only if none of its bodies had
      been indexed before. */
  lemma SealedVerifiesClean(c: Codec, target: nat, segmentId: nat, history: seq<Bytes>, file: Bytes,
                            earlier: map<Digest, BlobLocation>)
    requires Sound(c) && IsImage(c, AllGroups(PackAll(target, history)), file) && NoRowOf(earlier, segmentId)
    ensures Clean(c, file, Indexed(earlier, target, segmentId, history), segmentId) <==>
            forall d :: d in history ==> Sha256(d) !in earlier
  {
    var index := IndexOf(segmentId, PackRecords(PackAll(target, history)));
    CleanIffLocations(c, target, segmentId, history, file, Indexed(earlier, target, segmentId, history));
    IndexedIsMerge(earlier, target, segmentId, history);
    IndexIsPositions(segmentId, PackRecords(PackAll(target, history)));
    MergedPositions(index, earlier, segmentId);
    forall sha ensures sha in index <==> sha.preimage in history {
      IndexedDigests(target, segmentId, history, sha);
    }
    forall d | d in history ensures Sha256(d) in index {
      assert Sha256(d).preimage == d;
    }
    forall sha | sha in index && sha in earlier ensures sha.preimage in history && Sha256(sha.preimage) in earlier {
    }
  }

  /** A body that an earlier segment already holds: the later segment has its record but no row, and
      does not verify clean. */
  lemma RepeatedBodyNotClean(c: Codec, target: nat, file: Bytes, body: Bytes)
    requires Sound(c) && IsImage(c, AllGroups(PackAll(target, [body])), file)
    ensures var earlier := map[Sha256(body) := BlobLocation(Sha256(body), 0, 0, 0, |body|)];
            && NoRowOf(earlier, 1) && Indexed(earlier, target, 1, [body]) == earlier
            && !Clean(c, file, Indexed(earlier, target, 1, [body]), 1)
  {
    var earlier := map[Sha256(body) := BlobLocation(Sha256(body), 0, 0, 0, |body|)];
    SealedVerifiesClean(c, target, 1, [body], file, earlier);
    assert body in [body];
    RepeatedBodyIgnored(earlier, target, body);
  }

  lemma RepeatedBodyIgnored(earlier: map<Digest, BlobLocation>, target: nat, body: Bytes)
    requires Sha256(body) in earlier
    ensures Indexed(earlier, target, 1, [body]) == earlier
  {
    var index := IndexOf(1, PackRecords(PackAll(target, [body])));
    IndexedIsMerge(earlier, target, 1, [body]);
    forall sha | sha in index ensures sha in earlier {
      IndexedDigests(target, 1, [body], sha);
      assert sha == Sha256(sha.preimage);
    }
    assert index + earlier == earlier;
  }
}
