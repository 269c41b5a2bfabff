/** `archive/writer.py`: appends deduplicated records to an open segment and seals it. */
module SegmentWriting {
  import opened Prelude
  import opened SegmentFormat
  import opened SegmentPacking

  datatype SegmentStats = SegmentStats(segmentId: nat, bytes: nat, records: nat, footerSha256: Digest)

  datatype WriterError = AlreadySealed

  /** The file, buffer and index entries that a pack's bodies determine. */
  ghost predicate Rendered(c: Codec, p: Pack, file: Bytes, buffer: Bytes, blocks: seq<BlockEntry>,
                           records: seq<RecordEntry>) {
    && file == Frames(c, p.groups)
    && buffer == Concat(p.open)
    && blocks == BlocksOf(c, p.groups)
    && records == PackRecords(p)
  }

  lemma RenderFlush(c: Codec, p: Pack, file: Bytes, buffer: Bytes, blocks: seq<BlockEntry>, records: seq<RecordEntry>)
    requires Rendered(c, p, file, buffer, blocks, records)
    ensures var frame := c.compress(buffer);
            Rendered(c, Pack(p.groups + [p.open], []), file + frame, [],
                     blocks + [BlockEntry(|file|, |frame|, |buffer|)], records)
  {
    FlushAppend(c, p.groups, p.open);
    RecordsAppend(p.groups, p.open);
  }

  lemma RenderAppend(c: Codec, p: Pack, data: Bytes, file: Bytes, buffer: Bytes, blocks: seq<BlockEntry>,
                     records: seq<RecordEntry>)
    requires Rendered(c, p, file, buffer, blocks, records)
    ensures Rendered(c, p.(open := p.open + [data]), file, buffer + data, blocks,
                     records + [RecordEntry(Sha256(data), |p.groups|, |buffer|, |data|)])
  {
    ConcatAppend(p.open, data);
    GroupRecordsAppend(|p.groups|, p.open, data);
  }

  /** The file is the sealed image of these groups. */
  ghost predicate IsImage(c: Codec, gs: seq<Group>, file: Bytes) {
    FitsTrailer(TrailerOf(c, gs)) && file == Image(c, gs)
  }

  lemma RenderSealed(c: Codec, gs: seq<Group>, file: Bytes, blocks: seq<BlockEntry>, records: seq<RecordEntry>)
    requires Rendered(c, Pack(gs, []), file, [], blocks, records)
    requires FitsTrailer(TrailerOf(c, gs))
    ensures EncodeFooter(c, blocks, records) == FooterBytes(c, gs)
    ensures var footer := EncodeFooter(c, blocks, records);
            var trailer := Trailer(|file|, |footer|, c.crc32(footer));
            FitsTrailer(trailer) && IsImage(c, gs, file + footer + EncodeTrailer(trailer))
  {
    assert records == RecordsOf(gs);
  }

  function Locate(segmentId: nat, r: RecordEntry): BlobLocation {
    BlobLocation(r.sha256, segmentId, r.blockNo, r.offset, r.length)
  }

  /** The record list keyed by digest: what the writer keeps as `_locations`. */
  function IndexOf(segmentId: nat, records: seq<RecordEntry>): map<Digest, BlobLocation> {
    if records == [] then map[]
    else
      var r := records[|records| - 1];
      IndexOf(segmentId, records[..|records| - 1])[r.sha256 := Locate(segmentId, r)]
  }

  lemma IndexAppend(segmentId: nat, records: seq<RecordEntry>, r: RecordEntry)
    ensures IndexOf(segmentId, records + [r]) == IndexOf(segmentId, records)[r.sha256 := Locate(segmentId, r)]
  {
    assert (records + [r])[..|records|] == records;
  }

  lemma {:induction false} IndexLookup(segmentId: nat, records: seq<RecordEntry>, sha: Digest)
    ensures sha in IndexOf(segmentId, records) ==>
              exists k :: 0 <= k < |records| && records[k].sha256 == sha &&
                          IndexOf(segmentId, records)[sha] == Locate(segmentId, records[k])
    ensures forall k :: 0 <= k < |records| && records[k].sha256 == sha ==> sha in IndexOf(segmentId, records)
  {
    if records != [] {
      var n := |records| - 1;
      IndexLookup(segmentId, records[..n], sha);
      if records[n].sha256 != sha && sha in IndexOf(segmentId, records) {
        var k :| 0 <= k < n && records[..n][k].sha256 == sha &&
                 IndexOf(segmentId, records[..n])[sha] == Locate(segmentId, records[..n][k]);
        assert records[k].sha256 == sha;
      }
    }
  }

  /** A digest is in the location map exactly when its body is already packed. */
  lemma DigestKnown(p: Pack, segmentId: nat, data: Bytes)
    ensures Sha256(data) in IndexOf(segmentId, PackRecords(p)) <==> data in Bodies(p)
  {
    PackRecordsMatch(p);
    IndexLookup(segmentId, PackRecords(p), Sha256(data));
    forall k | 0 <= k < |Bodies(p)|
      ensures PackRecords(p)[k].sha256 == Sha256(Bodies(p)[k])
    {
      assert Describes(AllGroups(p), PackRecords(p)[k], Bodies(p)[k]);
    }
  }

  /** The location kept for a packed body is where that body sits. */
  lemma LocationKnown(p: Pack, segmentId: nat, d: Bytes)
    requires d in Bodies(p)
    ensures var index := IndexOf(segmentId, PackRecords(p));
            && Sha256(d) in index
            && index[Sha256(d)].segmentId == segmentId
            && LocatedAt(AllGroups(p), index[Sha256(d)], d)
  {
    var records := PackRecords(p);
    DigestKnown(p, segmentId, d);
    IndexLookup(segmentId, records, Sha256(d));
    PackRecordsMatch(p);
    var k :| 0 <= k < |records| && records[k].sha256 == Sha256(d) &&
             IndexOf(segmentId, records)[Sha256(d)] == Locate(segmentId, records[k]);
    assert Describes(AllGroups(p), records[k], Bodies(p)[k]);
  }

  /** One more add: the location map is unchanged, or gains the new body's digest. */
  lemma IndexAdd(target: nat, p: Pack, segmentId: nat, d: Bytes)
    ensures var before := IndexOf(segmentId, PackRecords(p));
            var after := IndexOf(segmentId, PackRecords(PackAdd(target, p, d)));
            if d in Bodies(p) then after == before
            else Sha256(d) in after && after[Sha256(d)].sha256 == Sha256(d)
                 && after == before[Sha256(d) := after[Sha256(d)]]
  {
    if d !in Bodies(p) {
      var r := RecordAdded(target, p, d);
      IndexAppend(segmentId, PackRecords(p), r);
    }
  }

  lemma FirstRecord(b: nat, d: Bytes)
    ensures GroupRecords(b, [d]) == [RecordEntry(Sha256(d), b, 0, |d|)]
  {
    GroupRecordsAppend(b, [], d);
    assert [] + [d] == [d];
  }

  /** The record of a body that starts a new block, */
  lemma RecordFlushed(p: Pack, d: Bytes)
    ensures PackRecords(Pack(p.groups + [p.open], [d])) ==
            PackRecords(p) + [RecordEntry(Sha256(d), |p.groups| + 1, 0, |d|)]
  {
    FirstRecord(|p.groups| + 1, d);
    RecordsAppend(p.groups, p.open);
  }

  /** and of one that joins the open block. */
  lemma RecordJoined(p: Pack, d: Bytes)
    ensures PackRecords(p.(open := p.open + [d])) ==
            PackRecords(p) + [RecordEntry(Sha256(d), |p.groups|, |Concat(p.open)|, |d|)]
  {
    GroupRecordsAppend(|p.groups|, p.open, d);
  }

  lemma RecordAdded(target: nat, p: Pack, d: Bytes) returns (r: RecordEntry)
    requires d !in Bodies(p)
    ensures r.sha256 == Sha256(d) && PackRecords(PackAdd(target, p, d)) == PackRecords(p) + [r]
  {
    if p.open != [] && |Concat(p.open)| + |d| > target {
      r := RecordEntry(Sha256(d), |p.groups| + 1, 0, |d|);
      assert PackAdd(target, p, d) == Pack(p.groups + [p.open], [d]);
      RecordFlushed(p, d);
    } else {
      r := RecordEntry(Sha256(d), |p.groups|, |Concat(p.open)|, |d|);
      assert PackAdd(target, p, d) == p.(open := p.open + [d]);
      RecordJoined(p, d);
    }
  }

  // ------------------------------------------------------------ the blobs table

  /** INSERT OR IGNORE INTO blobs: an older row for the digest wins. */
  function InsertOrIgnore(blobs: map<Digest, BlobLocation>, loc: BlobLocation): map<Digest, BlobLocation> {
    if loc.sha256 in blobs then blobs else blobs[loc.sha256 := loc]
  }

  /** `ArchiveStore.add` for each body in turn, from an earlier table: the writer's location for the
      body, as of that add, is inserted or ignored. */
  function Indexed(earlier: map<Digest, BlobLocation>, target: nat, segmentId: nat,
                   history: seq<Bytes>): map<Digest, BlobLocation> {
    if history == [] then earlier
    else
      var p, d := PackAll(target, history), history[|history| - 1];
      AddedIsPacked(target, history);
      LocationKnown(p, segmentId, d);
      InsertOrIgnore(Indexed(earlier, target, segmentId, history[..|history| - 1]),
                     IndexOf(segmentId, PackRecords(p))[Sha256(d)])
  }

  lemma AddedIsPacked(target: nat, history: seq<Bytes>)
    requires history != []
    ensures history[|history| - 1] in Bodies(PackAll(target, history))
  {
    BodiesAdd(target, PackAll(target, history[..|history| - 1]), history[|history| - 1]);
  }

  /** Indexing body by body leaves the earlier rows and, for every other digest, the writer's location. */
  lemma {:induction false} IndexedIsMerge(earlier: map<Digest, BlobLocation>, target: nat, segmentId: nat,
                                          history: seq<Bytes>)
    ensures Indexed(earlier, target, segmentId, history) ==
        IndexOf(segmentId, PackRecords(PackAll(target, history))) + earlier
  {
    if history == [] {
      assert PackRecords(EMPTY) == [];
    } else {
      var n := |history| - 1;
      IndexedIsMerge(earlier, target, segmentId, history[..n]);
      AddedIsPacked(target, history);
      LocationKnown(PackAll(target, history), segmentId, history[n]);
      DigestKnown(PackAll(target, history[..n]), segmentId, history[n]);
      IndexAdd(target, PackAll(target, history[..n]), segmentId, history[n]);
      MergeOne(earlier, IndexOf(segmentId, PackRecords(PackAll(target, history[..n]))),
               IndexOf(segmentId, PackRecords(PackAll(target, history))), Sha256(history[n]));
    }
  }

  lemma MergeOne(earlier: map<Digest, BlobLocation>, before: map<Digest, BlobLocation>,
                 after: map<Digest, BlobLocation>, sha: Digest)
    requires sha in after && after[sha].sha256 == sha
    requires if sha in before then after == before else after == before[sha := after[sha]]
    ensures InsertOrIgnore(before + earlier, after[sha]) == after + earlier
  {
  }

  lemma LocatedMonotone(target: nat, p: Pack, data: Bytes, loc: BlobLocation, d: Bytes)
    requires LocatedAt(AllGroups(p), loc, d)
    ensures LocatedAt(AllGroups(PackAdd(target, p, data)), loc, d)
  {
    ConcatAppend(p.open, data);
  }

  /** For any sequence of adds followed by a seal, the location kept for each added body reads it back. */
  lemma AnyRunReadsBack(c: Codec, target: nat, segmentId: nat, history: seq<Bytes>, files: Files, d: Bytes)
    requires Sound(c) && d in history && segmentId in files
    requires IsImage(c, AllGroups(PackAll(target, history)), files[segmentId])
    ensures var index := IndexOf(segmentId, PackRecords(PackAll(target, history)));
            Sha256(d) in index && ReadAt(c, files, index[Sha256(d)]) == Ok(d)
  {
    var p := PackAll(target, history);
    BodiesAreDedup(target, history);
    DedupDistinct(history);
    LocationKnown(p, segmentId, d);
    ReadBack(c, AllGroups(p), files, IndexOf(segmentId, PackRecords(p))[Sha256(d)], d);
  }

  class SegmentWriter {
    const codec: Codec
    const segmentId: nat
    const blockTargetBytes: nat
    const sealBytes: nat
    const sealAfterSeconds: real
    const start: real

    var file: Bytes
    var position: nat
    var compressedBytes: nat
    var blockNo: nat
    var blockBuffer: Bytes
    var blockRawSize: nat
    var pendingRecords: nat
    var blocks: seq<BlockEntry>
    var records: seq<RecordEntry>
    var locations: map<Digest, BlobLocation>
    var isSealed: bool

    /** The distinct bodies added so far, grouped into blocks: `PackAll` of the `Add` calls. */
    ghost var pack: Pack

    ghost predicate BufferMatches(p: Pack)
      reads this
    {
      && position == compressedBytes == |file|
      && blockNo == |p.groups|
      && blockRawSize == |blockBuffer|
      && pendingRecords == |p.open|
      && Rendered(codec, p, file, blockBuffer, blocks, records)
    }

    ghost predicate Valid()
      reads this
    {
      && records == PackRecords(pack)
      && locations == IndexOf(segmentId, records)
      && (if isSealed then IsImage(codec, AllGroups(pack), file) else BufferMatches(pack))
    }

    constructor (codec: Codec, segmentId: nat, blockTargetBytes: nat, sealBytes: nat, sealAfterSeconds: real, now: real)
      ensures Valid() && !isSealed && pack == EMPTY && file == []
      ensures this.codec == codec && this.segmentId == segmentId && this.blockTargetBytes == blockTargetBytes
      ensures this.sealBytes == sealBytes && this.sealAfterSeconds == sealAfterSeconds && start == now
    {
      this.codec, this.segmentId, this.blockTargetBytes := codec, segmentId, blockTargetBytes;
      this.sealBytes, this.sealAfterSeconds, start := sealBytes, sealAfterSeconds, now;
      file, position, compressedBytes, blockNo := [], 0, 0, 0;
      blockBuffer, blockRawSize, pendingRecords := [], 0, 0;
      blocks, records, locations := [], [], map[];
      isSealed, pack := false, EMPTY;
    }

    /** Appends one record, or returns the location of the copy already in this segment. */
    method Add(data: Bytes) returns (r: Result<BlobLocation, WriterError>)
      requires Valid()
      modifies this
      ensures Valid() && isSealed == old(isSealed)
      ensures isSealed ==> r == Err(AlreadySealed) && unchanged(this)
      ensures !isSealed ==> r.Ok? && pack == PackAdd(blockTargetBytes, old(pack), data)
      ensures r.Ok? ==> locations == old(locations)[Sha256(data) := r.value]
      ensures Sha256(data) in old(locations) ==> locations == old(locations) && file == old(file)
    {
      if isSealed {
        return Err(AlreadySealed);
      }
      DigestKnown(pack, segmentId, data);
      var sha := Sha256(data);
      if sha in locations {
        return Ok(locations[sha]);
      }
      var location := Append(data, sha);
      r := Ok(location);
    }

    /** Buffers a body that is not in the segment yet, closing the current block first if it would overflow. */
    method Append(data: Bytes, sha: Digest) returns (location: BlobLocation)
      requires sha == Sha256(data) && data !in Bodies(pack)
      requires BufferMatches(pack) && locations == IndexOf(segmentId, records) && !isSealed
      modifies `file, `position, `compressedBytes, `blockNo, `blockBuffer, `blockRawSize, `pendingRecords, `blocks,
               `records, `locations, `pack
      ensures pack == PackAdd(blockTargetBytes, old(pack), data)
      ensures BufferMatches(pack) && locations == IndexOf(segmentId, records)
      ensures locations == old(locations)[sha := location]
    {
      if pendingRecords != 0 && blockRawSize + |data| > blockTargetBytes {
        FlushBlock();
      }
      var record := RecordEntry(sha, blockNo, blockRawSize, |data|);
      location := Locate(segmentId, record);
      IndexAppend(segmentId, records, record);
      locations := locations[sha := location];
      BufferRecord(data, record);
    }

    method BufferRecord(data: Bytes, record: RecordEntry)
      requires BufferMatches(pack) && record == RecordEntry(Sha256(data), blockNo, blockRawSize, |data|)
      modifies `blockBuffer, `blockRawSize, `pendingRecords, `records, `pack
      ensures pack == old(pack).(open := old(pack).open + [data]) && BufferMatches(pack)
      ensures records == old(records) + [record]
    {
      RenderAppend(codec, pack, data, file, blockBuffer, blocks, records);
      blockBuffer := blockBuffer + data;
      blockRawSize := blockRawSize + |data|;
      pendingRecords := pendingRecords + 1;
      records := records + [record];
      pack := pack.(open := pack.open + [data]);
    }

    method FlushBlock()
      requires BufferMatches(pack)
      modifies `file, `position, `compressedBytes, `blockNo, `blockBuffer, `blockRawSize,
               `pendingRecords, `blocks, `pack
      ensures pack == Pack(old(pack.groups + [pack.open]), []) && BufferMatches(pack)
    {
      RenderFlush(codec, pack, file, blockBuffer, blocks, records);
      var compressed := codec.compress(blockBuffer);
      file := file + compressed;
      blocks := blocks + [BlockEntry(position, |compressed|, blockRawSize)];
      position := position + |compressed|;
      compressedBytes := compressedBytes + |compressed|;
      blockNo := blockNo + 1;
      blockBuffer := [];
      blockRawSize := 0;
      pendingRecords := 0;
      pack := Pack(pack.groups + [pack.open], []);
    }

    /** True once the flushed size or the age crosses its threshold. */
    method ShouldSeal(now: real) returns (r: bool)
      requires Valid() && !isSealed
      ensures r <==> |Frames(codec, pack.groups)| >= sealBytes || now - start >= sealAfterSeconds
    {
      r := compressedBytes >= sealBytes || now - start >= sealAfterSeconds;
    }

    /** Flushes, writes footer and trailer, and turns the file into the sealed image of its bodies. */
    method Seal() returns (r: Result<SegmentStats, WriterError>)
      requires Valid()
      requires !isSealed ==> FitsTrailer(TrailerOf(codec, AllGroups(pack)))
      modifies this
      ensures Valid() && isSealed && pack == old(pack) && locations == old(locations)
      ensures old(isSealed) ==> r == Err(AlreadySealed) && file == old(file)
      ensures !old(isSealed) ==>
                && r.Ok? && r.value.segmentId == segmentId
                && r.value.bytes == |file|
                && r.value.records == |Bodies(pack)|
                && r.value.footerSha256 == Sha256(FooterBytes(codec, AllGroups(pack)))
    {
      if isSealed {
        return Err(AlreadySealed);
      }
      ghost var p := pack;
      if pendingRecords != 0 {
        FlushBlock();
      }
      RenderSealed(codec, AllGroups(p), file, blocks, records);
      var footerOffset := position;
      var footer := EncodeFooter(codec, blocks, records);
      var trailer := EncodeTrailer(Trailer(footerOffset, |footer|, codec.crc32(footer)));
      file := file + footer + trailer;
      isSealed := true;
      pack := p;
      PackRecordsMatch(p);
      r := Ok(SegmentStats(segmentId, footerOffset + |footer| + |trailer|, |records|, Sha256(footer)));
    }

    /** Round trip: once sealed, the location handed out for any added body reads that body back. */
    lemma ReadsBack(files: Files, d: Bytes)
      requires Sound(codec) && Valid() && isSealed && d in Bodies(pack)
      requires segmentId in files && files[segmentId] == file
      ensures Sha256(d) in locations && ReadAt(codec, files, locations[Sha256(d)]) == Ok(d)
    {
      LocationKnown(pack, segmentId, d);
      ReadBack(codec, AllGroups(pack), files, locations[Sha256(d)], d);
    }
  }
}
