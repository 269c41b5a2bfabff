/** `archive/reader.py`: reads records back through a footer cache and an LRU block cache. */
module SegmentReading {
  import opened Prelude
  import opened SegmentFormat
  import opened SegmentPacking

  datatype Key = Key(segmentId: nat, blockNo: nat)

  // ------------------------------------------------------------ recency order

  function Without(s: seq<Key>, k: Key): seq<Key> {
    if s == [] then []
    else Without(s[..|s| - 1], k) + (if s[|s| - 1] == k then [] else [s[|s| - 1]])
  }

  /** The distinct keys of an access history, ordered by last use, most recent last. */
  function LastUses(history: seq<Key>): seq<Key> {
    if history == [] then []
    else Without(LastUses(history[..|history| - 1]), history[|history| - 1]) + [history[|history| - 1]]
  }

  function Suffix(s: seq<Key>, n: nat): seq<Key> {
    if |s| <= n then s else s[|s| - n..]
  }

  lemma {:induction false} WithoutAbsent(s: seq<Key>, k: Key)
    requires k !in s
    ensures Without(s, k) == s
  {
    if s != [] {
      WithoutAbsent(s[..|s| - 1], k);
      assert s == s[..|s| - 1] + [s[|s| - 1]];
    }
  }

  lemma {:induction false} WithoutConcat(s: seq<Key>, t: seq<Key>, k: Key)
    ensures Without(s + t, k) == Without(s, k) + Without(t, k)
  {
    if t == [] {
      assert s + t == s;
    } else {
      WithoutConcat(s, t[..|t| - 1], k);
      assert (s + t)[..|s + t| - 1] == s + t[..|t| - 1];
    }
  }

  predicate Distinct(s: seq<Key>) {
    s == [] || (s[|s| - 1] !in s[..|s| - 1] && Distinct(s[..|s| - 1]))
  }

  lemma {:induction false} WithoutMembers(s: seq<Key>, k: Key)
    ensures forall x :: x in Without(s, k) <==> x in s && x != k
  {
    if s != [] {
      WithoutMembers(s[..|s| - 1], k);
      assert s == s[..|s| - 1] + [s[|s| - 1]];
    }
  }

  lemma {:induction false} WithoutDistinct(s: seq<Key>, k: Key)
    requires Distinct(s)
    ensures Distinct(Without(s, k)) && |Without(s, k)| == if k in s then |s| - 1 else |s|
  {
    if s != [] {
      var init, x := s[..|s| - 1], s[|s| - 1];
      assert s == init + [x];
      WithoutDistinct(init, k);
      WithoutMembers(init, k);
      if x != k {
        assert Without(s, k)[..|Without(init, k)|] == Without(init, k);
      } else {
        assert Without(s, k) == Without(init, k);
      }
    }
  }

  lemma {:induction false} DistinctSplit(s: seq<Key>, t: seq<Key>)
    requires Distinct(s + t)
    ensures Distinct(s) && Distinct(t) && forall k :: k in t ==> k !in s
  {
    if t == [] {
      assert s + t == s;
    } else {
      assert (s + t)[..|s + t| - 1] == s + t[..|t| - 1];
      DistinctSplit(s, t[..|t| - 1]);
    }
  }

  lemma LastUsesAppend(history: seq<Key>, k: Key)
    ensures LastUses(history + [k]) == Without(LastUses(history), k) + [k]
  {
    assert (history + [k])[..|history|] == history;
  }

  lemma {:induction false} LastUsesDistinct(history: seq<Key>)
    ensures Distinct(LastUses(history))
  {
    if history != [] {
      var init, k := history[..|history| - 1], history[|history| - 1];
      LastUsesDistinct(init);
      WithoutDistinct(LastUses(init), k);
      WithoutMembers(LastUses(init), k);
      var w := Without(LastUses(init), k);
      assert (w + [k])[..|w|] == w;
    }
  }

  lemma SuffixConcat(older: seq<Key>, cached: seq<Key>, n: nat)
    requires |cached| == n || (older == [] && |cached| <= n)
    ensures Suffix(older + cached, n) == cached
  {
  }

  /** A hit on an LRU cache that holds the n most recent keys leaves the n most recent keys. */
  lemma HitKeepsSuffix(older: seq<Key>, cached: seq<Key>, n: nat, k: Key)
    requires |cached| == n || (older == [] && |cached| <= n)
    requires Distinct(older + cached) && k in cached
    ensures Suffix(Without(older + cached, k) + [k], n) == Without(cached, k) + [k]
  {
    DistinctSplit(older, cached);
    WithoutConcat(older, cached, k);
    WithoutAbsent(older, k);
    WithoutDistinct(cached, k);
    var moved := Without(cached, k) + [k];
    assert Without(older + cached, k) + [k] == older + moved;
    SuffixConcat(older, moved, n);
  }

  /** A miss appends the key and drops the least recently used one when the cache overflows. */
  lemma MissKeepsSuffix(older: seq<Key>, cached: seq<Key>, n: nat, k: Key)
    requires |cached| == n || (older == [] && |cached| <= n)
    requires k !in cached
    ensures var grown := cached + [k];
            Suffix(Without(older + cached, k) + [k], n) == if |grown| > n then grown[1..] else grown
  {
    WithoutConcat(older, cached, k);
    WithoutAbsent(cached, k);
    var grown := cached + [k];
    var w := Without(older, k);
    if |grown| > n {
      assert Without(older + cached, k) + [k] == (w + [grown[0]]) + grown[1..];
      SuffixConcat(w + [grown[0]], grown[1..], n);
    } else {
      assert w == [];
      assert Without(older + cached, k) + [k] == grown;
    }
  }

  // ------------------------------------------------ the block cache as a value

  /** An `OrderedDict`: insertion order, oldest first, and the stored values. */
  datatype Cache = Cache(order: seq<Key>, blocks: map<Key, Bytes>) {
    function MoveToEnd(k: Key): Cache {
      this.(order := Without(order, k) + [k])
    }

    /** Insert a new key, then pop the oldest entry when over size. */
    function Store(k: Key, data: Bytes, size: nat): Cache {
      var grown := Cache(order + [k], blocks[k := data]);
      if |grown.order| > size then Cache(grown.order[1..], grown.blocks - {grown.order[0]}) else grown
    }
  }

  ghost predicate SameKeys(cache: Cache) {
    forall k :: k in cache.order <==> k in cache.blocks
  }

  ghost predicate Faithful(c: Codec, files: Files, cache: Cache) {
    forall k :: k in cache.blocks ==> BlockIn(c, files, k.segmentId, k.blockNo) == Ok(cache.blocks[k])
  }

  /** The cache holds exactly the `size` most recently used blocks. */
  ghost predicate Recent(history: seq<Key>, size: nat, cache: Cache) {
    cache.order == Suffix(LastUses(history), size) && SameKeys(cache)
  }

  lemma MoveSameKeys(cache: Cache, k: Key)
    requires SameKeys(cache) && k in cache.blocks
    ensures SameKeys(cache.MoveToEnd(k))
  {
    WithoutMembers(cache.order, k);
  }

  lemma SuffixSplits(uses: seq<Key>, size: nat)
    ensures var recent := Suffix(uses, size);
            |recent| <= |uses| && uses[..|uses| - |recent|] + recent == uses
  {
  }

  lemma HitKeepsOrder(uses: seq<Key>, size: nat, order: seq<Key>, k: Key)
    requires Distinct(uses) && order == Suffix(uses, size) && k in order
    ensures Suffix(Without(uses, k) + [k], size) == Without(order, k) + [k]
  {
    SuffixSplits(uses, size);
    HitKeepsSuffix(uses[..|uses| - |order|], order, size, k);
  }

  lemma HitKeepsRecent(history: seq<Key>, size: nat, cache: Cache, k: Key)
    requires Recent(history, size, cache) && k in cache.blocks
    ensures Recent(history + [k], size, cache.MoveToEnd(k))
  {
    var uses := LastUses(history);
    LastUsesDistinct(history);
    LastUsesAppend(history, k);
    HitKeepsOrder(uses, size, cache.order, k);
    MoveSameKeys(cache, k);
  }

  lemma MissKeepsRecent(history: seq<Key>, size: nat, cache: Cache, k: Key, data: Bytes)
    requires Recent(history, size, cache) && k !in cache.blocks
    ensures Recent(history + [k], size, cache.Store(k, data, size))
  {
    var uses := LastUses(history);
    LastUsesAppend(history, k);
    SuffixSplits(uses, size);
    var older := uses[..|uses| - |cache.order|];
    MissKeepsSuffix(older, cache.order, size, k);
    LastUsesDistinct(history);
    DistinctSplit(older, cache.order);
    StoreSameKeys(cache, k, data, size);
  }

  lemma StoreSameKeys(cache: Cache, k: Key, data: Bytes, size: nat)
    requires SameKeys(cache) && Distinct(cache.order) && k !in cache.blocks
    ensures SameKeys(cache.Store(k, data, size))
  {
    var grown := cache.order + [k];
    assert grown[..|cache.order|] == cache.order;
    assert grown == [grown[0]] + grown[1..];
    DistinctSplit([grown[0]], grown[1..]);
  }

  // ------------------------------------------------------------- the reader

  class SegmentReader {
    const codec: Codec
    const blockCacheSize: nat

    var footers: map<nat, Footer>
    var cache: Cache

    /** Every block access that succeeded, oldest first. */
    ghost var history: seq<Key>

    ghost predicate FootersMatch(files: Files)
      reads this
    {
      forall s :: s in footers ==> s in files && FooterOf(codec, files[s]) == Ok(footers[s])
    }

    ghost predicate Valid(files: Files)
      reads this
    {
      FootersMatch(files) && Faithful(codec, files, cache) && Recent(history, blockCacheSize, cache)
    }

    constructor (codec: Codec, blockCacheSize: nat)
      ensures this.codec == codec && this.blockCacheSize == blockCacheSize && history == []
      ensures forall files: Files :: Valid(files)
    {
      this.codec, this.blockCacheSize := codec, blockCacheSize;
      footers, cache, history := map[], Cache([], map[]), [];
    }

    /** Sealing more segments leaves the caches valid: sealed files never change. */
    lemma ValidGrows(files: Files, more: Files)
      requires Valid(files) && forall s :: s in files ==> s in more && more[s] == files[s]
      ensures Valid(more)
    {
      forall k | k in cache.blocks
        ensures BlockIn(codec, more, k.segmentId, k.blockNo) == Ok(cache.blocks[k])
      {
        assert BlockIn(codec, files, k.segmentId, k.blockNo) == Ok(cache.blocks[k]);
      }
    }

    method FooterFor(files: Files, segmentId: nat) returns (r: Result<Footer, ReadError>)
      requires FootersMatch(files)
      modifies `footers
      ensures FootersMatch(files)
      ensures r == if segmentId in files then FooterOf(codec, files[segmentId]) else Err(FileNotFound)
    {
      if segmentId in footers {
        return Ok(footers[segmentId]);
      }
      if segmentId !in files {
        return Err(FileNotFound);
      }
      r := FooterOf(codec, files[segmentId]);
      if r.Ok? {
        footers := footers[segmentId := r.value];
      }
    }

    /** One block through the caches: the uncached answer, and the cache stays the most recent blocks. */
    method BlockBytes(files: Files, segmentId: nat, blockNo: nat) returns (r: Result<Bytes, ReadError>)
      requires Valid(files)
      modifies this
      ensures Valid(files) && |cache.order| <= blockCacheSize
      ensures r == BlockIn(codec, files, segmentId, blockNo)
      ensures history == if r.Ok? then old(history) + [Key(segmentId, blockNo)] else old(history)
    {
      var key := Key(segmentId, blockNo);
      if key in cache.blocks {
        HitKeepsRecent(history, blockCacheSize, cache, key);
        cache := cache.MoveToEnd(key);
        history := history + [key];
        return Ok(cache.blocks[key]);
      }
      var f := FooterFor(files, segmentId);
      if f.Err? {
        return Err(f.error);
      }
      if blockNo >= |f.value.blocks| {
        return Err(BlockIndexError);
      }
      var entry := f.value.blocks[blockNo];
      var d := codec.decompress(Slice(files[segmentId], entry.offset, entry.length));
      if d.None? {
        return Err(BadFrame);
      }
      MissKeepsRecent(history, blockCacheSize, cache, key, d.value);
      cache := cache.Store(key, d.value, blockCacheSize);
      history := history + [key];
      r := Ok(d.value);
    }

    /** `read`: the same answer as an uncached read, errors included. */
    method Read(files: Files, loc: BlobLocation) returns (r: Result<Bytes, ReadError>)
      requires Valid(files)
      modifies this
      ensures Valid(files) && |cache.order| <= blockCacheSize
      ensures r == ReadAt(codec, files, loc)
      ensures history == if BlockIn(codec, files, loc.segmentId, loc.blockNo).Ok?
                         then old(history) + [Key(loc.segmentId, loc.blockNo)] else old(history)
    {
      var block := BlockBytes(files, loc.segmentId, loc.blockNo);
      if block.Err? {
        return Err(block.error);
      }
      var data := Slice(block.value, loc.offset, loc.length);
      if Sha256(data) != loc.sha256 {
        return Err(CorruptSegment);
      }
      r := Ok(data);
    }

    /** `iter_records`: groups the footer's records by block, then decompresses each block once. */
    method IterRecords(files: Files, segmentId: nat) returns (r: Result<seq<(Digest, Bytes)>, ReadError>)
      requires FootersMatch(files)
      modifies `footers
      ensures FootersMatch(files)
      ensures r == if segmentId in files then RecordsInFile(codec, files[segmentId]) else Err(FileNotFound)
    {
      var f := FooterFor(files, segmentId);
      if f.Err? {
        return Err(f.error);
      }
      var footer := f.value;
      r := WalkBlocks(files[segmentId], footer);
    }

    /** The blocks in turn, each with its own records. */
    method WalkBlocks(file: Bytes, footer: Footer) returns (r: Result<seq<(Digest, Bytes)>, ReadError>)
      ensures r == Walk(codec, file, footer, |footer.blocks|)
    {
      var byBlock := GroupByBlock(footer.records);
      var out: seq<(Digest, Bytes)> := [];
      var blockNo := 0;
      while blockNo < |footer.blocks|
        invariant 0 <= blockNo <= |footer.blocks|
        invariant Walk(codec, file, footer, blockNo) == Ok(out)
      {
        var payload := FramePayload(codec, file, footer.blocks[blockNo]);
        if payload.None? {
          WalkFails(codec, file, footer, blockNo + 1, |footer.blocks|);
          return Err(BadFrame);
        }
        WalkStep(codec, file, footer, blockNo, out, payload.value);
        var mine := if blockNo in byBlock then byBlock[blockNo] else [];
        out := out + Extract(payload.value, mine);
        blockNo := blockNo + 1;
      }
      r := Ok(out);
    }
  }

  // --------------------------------------------------- records in file order

  function InBlock(records: seq<RecordEntry>, b: nat): seq<RecordEntry> {
    if records == [] then []
    else
      var r := records[|records| - 1];
      InBlock(records[..|records| - 1], b) + (if r.blockNo == b then [r] else [])
  }

  function Extract(payload: Bytes, records: seq<RecordEntry>): seq<(Digest, Bytes)> {
    if records == [] then []
    else
      var r := records[|records| - 1];
      Extract(payload, records[..|records| - 1]) + [(r.sha256, Slice(payload, r.offset, r.length))]
  }

  function FramePayload(c: Codec, file: Bytes, entry: BlockEntry): Option<Bytes> {
    c.decompress(Slice(file, entry.offset, entry.length))
  }

  /** The records of the first `n` blocks, block by block, in footer order within a block. */
  function Walk(c: Codec, file: Bytes, footer: Footer, n: nat): Result<seq<(Digest, Bytes)>, ReadError>
    requires n <= |footer.blocks|
  {
    if n == 0 then Ok([])
    else
      match Walk(c, file, footer, n - 1)
      case Err(e) => Err(e)
      case Ok(out) =>
        match FramePayload(c, file, footer.blocks[n - 1])
        case None => Err(BadFrame)
        case Some(payload) => Ok(out + Extract(payload, InBlock(footer.records, n - 1)))
  }

  function RecordsInFile(c: Codec, file: Bytes): Result<seq<(Digest, Bytes)>, ReadError> {
    match FooterOf(c, file)
    case Err(e) => Err(e)
    case Ok(footer) => Walk(c, file, footer, |footer.blocks|)
  }

  lemma {:induction false} WalkFails(c: Codec, file: Bytes, footer: Footer, n: nat, m: nat)
    requires n <= m <= |footer.blocks| && Walk(c, file, footer, n) == Err(BadFrame)
    ensures Walk(c, file, footer, m) == Err(BadFrame)
  {
    if n < m {
      WalkFails(c, file, footer, n, m - 1);
    }
  }

  lemma WalkStep(c: Codec, file: Bytes, footer: Footer, n: nat, out: seq<(Digest, Bytes)>, payload: Bytes)
    requires n < |footer.blocks| && Walk(c, file, footer, n) == Ok(out)
    requires FramePayload(c, file, footer.blocks[n]) == Some(payload)
    ensures Walk(c, file, footer, n + 1) == Ok(out + Extract(payload, InBlock(footer.records, n)))
  {
  }

  method GroupByBlock(records: seq<RecordEntry>) returns (byBlock: map<nat, seq<RecordEntry>>)
    ensures forall b: nat :: (if b in byBlock then byBlock[b] else []) == InBlock(records, b)
  {
    byBlock := map[];
    for i := 0 to |records|
      invariant forall b: nat :: (if b in byBlock then byBlock[b] else []) == InBlock(records[..i], b)
    {
      var r := records[i];
      assert records[..i + 1][..i] == records[..i];
      var sofar := if r.blockNo in byBlock then byBlock[r.blockNo] else [];
      byBlock := byBlock[r.blockNo := sofar + [r]];
    }
    assert records[..|records|] == records;
  }

  // ------------------------------------- a sealed image yields its bodies once

  function Labelled(bodies: seq<Bytes>): seq<(Digest, Bytes)> {
    if bodies == [] then []
    else Labelled(bodies[..|bodies| - 1]) + [(Sha256(bodies[|bodies| - 1]), bodies[|bodies| - 1])]
  }

  lemma {:induction false} LabelledConcat(s: seq<Bytes>, t: seq<Bytes>)
    ensures Labelled(s + t) == Labelled(s) + Labelled(t)
  {
    if t == [] {
      assert s + t == s;
    } else {
      LabelledConcat(s, t[..|t| - 1]);
      assert (s + t)[..|s + t| - 1] == s + t[..|t| - 1];
    }
  }

  lemma {:induction false} InBlockConcat(s: seq<RecordEntry>, t: seq<RecordEntry>, b: nat)
    ensures InBlock(s + t, b) == InBlock(s, b) + InBlock(t, b)
  {
    if t == [] {
      assert s + t == s;
    } else {
      InBlockConcat(s, t[..|t| - 1], b);
      assert (s + t)[..|s + t| - 1] == s + t[..|t| - 1];
    }
  }

  lemma {:induction false} InOwnBlock(blockNo: nat, g: Group, b: nat)
    ensures InBlock(GroupRecords(blockNo, g), b) == if b == blockNo then GroupRecords(blockNo, g) else []
  {
    if g != [] {
      InOwnBlock(blockNo, g[..|g| - 1], b);
      var rs := GroupRecords(blockNo, g);
      assert rs[..|rs| - 1] == GroupRecords(blockNo, g[..|g| - 1]);
    }
  }

  lemma {:induction false} InBlockOfImage(gs: seq<Group>, b: nat)
    ensures InBlock(RecordsOf(gs), b) == if b < |gs| then GroupRecords(b, gs[b]) else []
  {
    if gs != [] {
      InBlockOfImage(gs[..|gs| - 1], b);
      InBlockConcat(RecordsOf(gs[..|gs| - 1]), GroupRecords(|gs| - 1, gs[|gs| - 1]), b);
      InOwnBlock(|gs| - 1, gs[|gs| - 1], b);
    }
  }

  lemma {:induction false} ExtractGroup(b: nat, g: Group, i: nat)
    requires i <= |g|
    ensures Extract(Concat(g), GroupRecords(b, g)[..i]) == Labelled(g[..i])
  {
    if i > 0 {
      ExtractGroup(b, g, i - 1);
      GroupRecordAt(b, g, i - 1);
      assert GroupRecords(b, g)[..i][..i - 1] == GroupRecords(b, g)[..i - 1];
      assert g[..i][..i - 1] == g[..i - 1];
    }
  }

  lemma ExtractWholeGroup(b: nat, g: Group)
    ensures Extract(Concat(g), GroupRecords(b, g)) == Labelled(g)
  {
    ExtractGroup(b, g, |g|);
    assert GroupRecords(b, g)[..|g|] == GroupRecords(b, g);
    assert g[..|g|] == g;
  }

  function FooterFor(c: Codec, gs: seq<Group>): Footer {
    Footer(FOOTER_VERSION, BlocksOf(c, gs), RecordsOf(gs))
  }

  lemma LabelledPrefix(gs: seq<Group>, n: nat)
    requires 0 < n <= |gs|
    ensures Labelled(Flatten(gs[..n])) == Labelled(Flatten(gs[..n - 1])) + Labelled(gs[n - 1])
  {
    assert gs[..n] == gs[..n - 1] + [gs[n - 1]];
    FlattenAppend(gs[..n - 1], gs[n - 1]);
    LabelledConcat(Flatten(gs[..n - 1]), gs[n - 1]);
  }

  lemma {:induction false} WalkImage(c: Codec, gs: seq<Group>, n: nat)
    requires Sound(c) && FitsTrailer(TrailerOf(c, gs)) && n <= |gs|
    ensures Walk(c, Image(c, gs), FooterFor(c, gs), n) == Ok(Labelled(Flatten(gs[..n])))
  {
    if n > 0 {
      WalkImage(c, gs, n - 1);
      FrameOfImage(c, gs, n - 1);
      InBlockOfImage(gs, n - 1);
      ExtractWholeGroup(n - 1, gs[n - 1]);
      WalkStep(c, Image(c, gs), FooterFor(c, gs), n - 1, Labelled(Flatten(gs[..n - 1])), Concat(gs[n - 1]));
      LabelledPrefix(gs, n);
    }
  }

  /** Iterating the image of any groups yields their bodies in order, each under its own digest. */
  lemma RecordsOfImage(c: Codec, gs: seq<Group>)
    requires Sound(c) && FitsTrailer(TrailerOf(c, gs))
    ensures RecordsInFile(c, Image(c, gs)) == Ok(Labelled(Flatten(gs)))
  {
    FooterOfImage(c, gs);
    WalkImage(c, gs, |gs|);
    assert gs[..|gs|] == gs;
  }

  /** Iterating a sealed segment yields each distinct body once, in the order it was first added. */
  lemma IterYieldsDedup(c: Codec, target: nat, history: seq<Bytes>)
    requires var gs := AllGroups(PackAll(target, history)); Sound(c) && FitsTrailer(TrailerOf(c, gs))
    ensures RecordsInFile(c, Image(c, AllGroups(PackAll(target, history)))) == Ok(Labelled(Dedup(history)))
  {
    var p := PackAll(target, history);
    var gs := AllGroups(p);
    RecordsOfImage(c, gs);
    BodiesAreDedup(target, history);
    PackRecordsMatch(p);
  }
}
