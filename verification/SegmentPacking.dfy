/** The abstract contents of a segment: distinct bodies grouped into blocks, and
    the file image those groups determine. */
module SegmentPacking {
  import opened Prelude
  import opened SegmentFormat

  type Group = seq<Bytes>

  /** Flushed blocks, then the bodies of the block still being buffered. */
  datatype Pack = Pack(groups: seq<Group>, open: Group)

  const EMPTY := Pack([], [])

  function Concat(g: seq<Bytes>): Bytes {
    if g == [] then [] else Concat(g[..|g| - 1]) + g[|g| - 1]
  }

  function Flatten(gs: seq<Group>): seq<Bytes> {
    if gs == [] then [] else Flatten(gs[..|gs| - 1]) + gs[|gs| - 1]
  }

  function Bodies(p: Pack): seq<Bytes> { Flatten(p.groups) + p.open }

  /** Each distinct body once, in order of first occurrence. */
  function Dedup(history: seq<Bytes>): seq<Bytes> {
    if history == [] then []
    else
      var rest := Dedup(history[..|history| - 1]);
      var d := history[|history| - 1];
      if d in rest then rest else rest + [d]
  }

  function PackAdd(target: nat, p: Pack, data: Bytes): Pack {
    if data in Bodies(p) then p
    else if p.open != [] && |Concat(p.open)| + |data| > target then Pack(p.groups + [p.open], [data])
    else p.(open := p.open + [data])
  }

  function PackAll(target: nat, history: seq<Bytes>): Pack {
    if history == [] then EMPTY
    else PackAdd(target, PackAll(target, history[..|history| - 1]), history[|history| - 1])
  }

  function AllGroups(p: Pack): seq<Group> {
    if p.open == [] then p.groups else p.groups + [p.open]
  }

  // --------------------------------------------------- properties of packing

  /** A block is within the target size or holds exactly one record. */
  predicate BlockSizeOk(target: nat, g: Group) {
    g != [] && (|Concat(g)| <= target || |g| == 1)
  }

  lemma FlattenAppend(gs: seq<Group>, g: Group)
    ensures Flatten(gs + [g]) == Flatten(gs) + g
  {
    assert (gs + [g])[..|gs|] == gs;
  }

  lemma ConcatAppend(g: Group, d: Bytes)
    ensures Concat(g + [d]) == Concat(g) + d
  {
    assert (g + [d])[..|g|] == g;
  }

  lemma BodiesAdd(target: nat, p: Pack, data: Bytes)
    ensures Bodies(PackAdd(target, p, data)) == if data in Bodies(p) then Bodies(p) else Bodies(p) + [data]
  {
    FlattenAppend(p.groups, p.open);
  }

  /** Packing keeps each distinct body once, in first-add order. */
  lemma {:induction false} BodiesAreDedup(target: nat, history: seq<Bytes>)
    ensures Bodies(PackAll(target, history)) == Dedup(history)
  {
    if history != [] {
      BodiesAreDedup(target, history[..|history| - 1]);
      BodiesAdd(target, PackAll(target, history[..|history| - 1]), history[|history| - 1]);
    }
  }

  lemma {:induction false} DedupDistinct(history: seq<Bytes>)
    ensures forall d :: d in Dedup(history) <==> d in history
    ensures forall i, j :: 0 <= i < j < |Dedup(history)| ==> Dedup(history)[i] != Dedup(history)[j]
  {
    if history != [] {
      DedupDistinct(history[..|history| - 1]);
      assert history == history[..|history| - 1] + [history[|history| - 1]];
    }
  }

  ghost predicate SizesOk(target: nat, p: Pack) {
    (forall g :: g in p.groups ==> BlockSizeOk(target, g)) && (p.open != [] ==> BlockSizeOk(target, p.open))
  }

  lemma AddWithinTarget(target: nat, p: Pack, d: Bytes)
    requires SizesOk(target, p)
    ensures SizesOk(target, PackAdd(target, p, d))
  {
    ConcatAppend(p.open, d);
    assert Concat([d]) == d;
  }

  /** Every block is at most the target size or a single record, oversized and empty records included. */
  lemma {:induction false} BlocksWithinTarget(target: nat, history: seq<Bytes>)
    ensures SizesOk(target, PackAll(target, history))
            && forall g :: g in AllGroups(PackAll(target, history)) ==> BlockSizeOk(target, g)
  {
    if history != [] {
      BlocksWithinTarget(target, history[..|history| - 1]);
      AddWithinTarget(target, PackAll(target, history[..|history| - 1]), history[|history| - 1]);
    }
  }

  predicate Overflows(target: nat, gs: seq<Group>, b: nat)
    requires b + 1 < |gs|
  {
    gs[b + 1] != [] && |Concat(gs[b])| + |gs[b + 1][0]| > target
  }

  ghost predicate Greedy(target: nat, gs: seq<Group>) {
    forall b: nat :: b + 1 < |gs| ==> Overflows(target, gs, b)
  }

  lemma GreedyStep(target: nat, p: Pack, data: Bytes)
    requires p.open == [] ==> p.groups == []
    requires Greedy(target, AllGroups(p))
    ensures Greedy(target, AllGroups(PackAdd(target, p, data)))
  {
    var before, after := AllGroups(p), AllGroups(PackAdd(target, p, data));
    if after != before {
      forall b: nat | b + 1 < |after|
        ensures Overflows(target, after, b)
      {
        if b + 1 < |before| {
          assert Overflows(target, before, b);
        }
      }
    }
  }

  lemma {:induction false} OpenGroupNonempty(target: nat, history: seq<Bytes>)
    ensures PackAll(target, history).open == [] ==> PackAll(target, history).groups == []
  {
    if history != [] {
      OpenGroupNonempty(target, history[..|history| - 1]);
    }
  }

  /** Greedy: a block was closed only because the next body would have overflowed it. */
  lemma {:induction false} BlocksAreGreedy(target: nat, history: seq<Bytes>)
    ensures Greedy(target, AllGroups(PackAll(target, history)))
  {
    if history != [] {
      var p := PackAll(target, history[..|history| - 1]);
      BlocksAreGreedy(target, history[..|history| - 1]);
      OpenGroupNonempty(target, history[..|history| - 1]);
      GreedyStep(target, p, history[|history| - 1]);
    }
  }

  // ---------------------------------------------------------- the file image

  function Frames(c: Codec, gs: seq<Group>): Bytes {
    if gs == [] then [] else Frames(c, gs[..|gs| - 1]) + c.compress(Concat(gs[|gs| - 1]))
  }

  function BlocksOf(c: Codec, gs: seq<Group>): (bs: seq<BlockEntry>)
    ensures |bs| == |gs|
  {
    if gs == [] then []
    else
      var before, raw := gs[..|gs| - 1], Concat(gs[|gs| - 1]);
      BlocksOf(c, before) + [BlockEntry(|Frames(c, before)|, |c.compress(raw)|, |raw|)]
  }

  function GroupRecords(blockNo: nat, g: Group): (rs: seq<RecordEntry>)
    ensures |rs| == |g|
  {
    if g == [] then []
    else
      var before, d := g[..|g| - 1], g[|g| - 1];
      GroupRecords(blockNo, before) + [RecordEntry(Sha256(d), blockNo, |Concat(before)|, |d|)]
  }

  function RecordsOf(gs: seq<Group>): seq<RecordEntry> {
    if gs == [] then []
    else RecordsOf(gs[..|gs| - 1]) + GroupRecords(|gs| - 1, gs[|gs| - 1])
  }

  function FooterBytes(c: Codec, gs: seq<Group>): Bytes {
    EncodeFooter(c, BlocksOf(c, gs), RecordsOf(gs))
  }

  function TrailerOf(c: Codec, gs: seq<Group>): Trailer {
    var footer := FooterBytes(c, gs);
    Trailer(|Frames(c, gs)|, |footer|, c.crc32(footer))
  }

  /** The sealed file: block frames back to back, then footer, then trailer. */
  function Image(c: Codec, gs: seq<Group>): Bytes
    requires FitsTrailer(TrailerOf(c, gs))
  {
    Frames(c, gs) + FooterBytes(c, gs) + EncodeTrailer(TrailerOf(c, gs))
  }

  /** The body `d` sits at the given position of the groups. */
  predicate Holds(gs: seq<Group>, blockNo: nat, offset: nat, d: Bytes) {
    && blockNo < |gs|
    && offset + |d| <= |Concat(gs[blockNo])|
    && Concat(gs[blockNo])[offset..offset + |d|] == d
  }

  predicate LocatedAt(gs: seq<Group>, loc: BlobLocation, d: Bytes) {
    && loc.sha256 == Sha256(d)
    && loc.length == |d|
    && Holds(gs, loc.blockNo, loc.offset, d)
  }

  // -------------------------------------------------- where the parts are

  lemma {:induction false} FramesPrefix(c: Codec, gs: seq<Group>, b: nat)
    requires b < |gs|
    ensures var at := |Frames(c, gs[..b])|; var frame := c.compress(Concat(gs[b]));
            at + |frame| <= |Frames(c, gs)| && Frames(c, gs)[at..at + |frame|] == frame
  {
    var at, frame := |Frames(c, gs[..b])|, c.compress(Concat(gs[b]));
    var init := gs[..|gs| - 1];
    assert Frames(c, gs) == Frames(c, init) + c.compress(Concat(gs[|gs| - 1]));
    if b < |gs| - 1 {
      FramesPrefix(c, init, b);
      assert init[..b] == gs[..b] && init[b] == gs[b];
      assert Frames(c, gs)[at..at + |frame|] == Frames(c, init)[at..at + |frame|];
    } else {
      assert gs[..b] == init;
    }
  }

  lemma {:induction false} BlockEntryAt(c: Codec, gs: seq<Group>, b: nat)
    requires b < |gs|
    ensures BlocksOf(c, gs)[b] ==
            BlockEntry(|Frames(c, gs[..b])|, |c.compress(Concat(gs[b]))|, |Concat(gs[b])|)
  {
    if b < |gs| - 1 {
      BlockEntryAt(c, gs[..|gs| - 1], b);
      assert gs[..|gs| - 1][..b] == gs[..b];
    }
  }

  lemma BlockSpan(c: Codec, gs: seq<Group>, b: nat)
    requires b < |gs|
    ensures BlocksOf(c, gs)[b].offset == |Frames(c, gs[..b])|
    ensures BlocksOf(c, gs)[b].offset + BlocksOf(c, gs)[b].length == |Frames(c, gs[..b + 1])|
  {
    BlockEntryAt(c, gs, b);
    assert gs[..b + 1][..b] == gs[..b];
  }

  /** Blocks tile the file: each starts where the previous one ends and the last ends at the footer. */
  lemma BlocksTile(c: Codec, gs: seq<Group>)
    ensures var bs := BlocksOf(c, gs);
            && (gs == [] ==> |Frames(c, gs)| == 0)
            && (gs != [] ==> bs[0].offset == 0 && bs[|gs| - 1].offset + bs[|gs| - 1].length == |Frames(c, gs)|)
            && forall b :: 0 <= b < |gs| - 1 ==> bs[b].offset + bs[b].length == bs[b + 1].offset
  {
    forall b | 0 <= b < |gs|
      ensures BlocksOf(c, gs)[b].offset == |Frames(c, gs[..b])|
      ensures BlocksOf(c, gs)[b].offset + BlocksOf(c, gs)[b].length == |Frames(c, gs[..b + 1])|
    {
      BlockSpan(c, gs, b);
    }
    assert gs[..|gs|] == gs;
  }

  lemma FooterOfImage(c: Codec, gs: seq<Group>)
    requires Sound(c) && FitsTrailer(TrailerOf(c, gs))
    ensures FooterOf(c, Image(c, gs)) == Ok(Footer(1, BlocksOf(c, gs), RecordsOf(gs)))
  {
    var t, image := TrailerOf(c, gs), Image(c, gs);
    TrailerRoundTrip(t);
    assert image[|image| - TRAILER_SIZE..] == EncodeTrailer(t);
    assert image[t.footerOffset..t.footerOffset + t.footerLength] == FooterBytes(c, gs);
  }

  lemma SliceOfPrefix(head: Bytes, mid: Bytes, tail: Bytes, offset: nat, length: nat)
    requires offset + length <= |head|
    ensures Slice(head + mid + tail, offset, length) == head[offset..offset + length]
  {
  }

  lemma FrameOfImage(c: Codec, gs: seq<Group>, b: nat)
    requires Sound(c) && FitsTrailer(TrailerOf(c, gs)) && b < |gs|
    ensures var e := BlocksOf(c, gs)[b]; c.decompress(Slice(Image(c, gs), e.offset, e.length)) == Some(Concat(gs[b]))
  {
    BlockEntryAt(c, gs, b);
    FramesPrefix(c, gs, b);
    var e := BlocksOf(c, gs)[b];
    SliceOfPrefix(Frames(c, gs), FooterBytes(c, gs), EncodeTrailer(TrailerOf(c, gs)), e.offset, e.length);
  }

  lemma BlockOfImage(c: Codec, gs: seq<Group>, b: nat)
    requires Sound(c) && FitsTrailer(TrailerOf(c, gs)) && b < |gs|
    ensures BlockOf(c, Image(c, gs), b) == Ok(Concat(gs[b]))
  {
    FooterOfImage(c, gs);
    FrameOfImage(c, gs, b);
  }

  /** Reading a location from the sealed image gives back exactly the body stored there. */
  lemma ReadBack(c: Codec, gs: seq<Group>, files: Files, loc: BlobLocation, d: Bytes)
    requires Sound(c) && FitsTrailer(TrailerOf(c, gs))
    requires loc.segmentId in files && files[loc.segmentId] == Image(c, gs)
    requires LocatedAt(gs, loc, d)
    ensures ReadAt(c, files, loc) == Ok(d)
  {
    BlockOfImage(c, gs, loc.blockNo);
  }

  // ----------------------------------------------------------- growing packs

  function PackRecords(p: Pack): seq<RecordEntry> {
    RecordsOf(p.groups) + GroupRecords(|p.groups|, p.open)
  }

  lemma FlushAppend(c: Codec, gs: seq<Group>, g: Group)
    ensures Frames(c, gs + [g]) == Frames(c, gs) + c.compress(Concat(g))
    ensures BlocksOf(c, gs + [g]) == BlocksOf(c, gs) +
            [BlockEntry(|Frames(c, gs)|, |c.compress(Concat(g))|, |Concat(g)|)]
  {
    assert (gs + [g])[..|gs|] == gs;
  }

  lemma RecordsAppend(gs: seq<Group>, g: Group)
    ensures RecordsOf(gs + [g]) == RecordsOf(gs) + GroupRecords(|gs|, g)
  {
    assert (gs + [g])[..|gs|] == gs;
  }

  lemma GroupRecordsAppend(b: nat, g: Group, d: Bytes)
    ensures GroupRecords(b, g + [d]) == GroupRecords(b, g) + [RecordEntry(Sha256(d), b, |Concat(g)|, |d|)]
  {
    assert (g + [d])[..|g|] == g;
  }

  /** The record describes the body `d` and its position among the groups. */
  predicate Describes(gs: seq<Group>, r: RecordEntry, d: Bytes) {
    r.sha256 == Sha256(d) && r.length == |d| && Holds(gs, r.blockNo, r.offset, d)
  }

  lemma {:induction false} ConcatPrefix(g: Group, i: nat)
    requires i <= |g|
    ensures Concat(g[..i]) <= Concat(g)
  {
    if i < |g| {
      ConcatPrefix(g[..|g| - 1], i);
      assert g[..|g| - 1][..i] == g[..i];
    } else {
      assert g[..i] == g;
    }
  }

  lemma {:induction false} GroupRecordAt(b: nat, g: Group, i: nat)
    requires i < |g|
    ensures GroupRecords(b, g)[i] == RecordEntry(Sha256(g[i]), b, |Concat(g[..i])|, |g[i]|)
    ensures var r := GroupRecords(b, g)[i];
            r.offset + r.length <= |Concat(g)| && Concat(g)[r.offset..r.offset + r.length] == g[i]
  {
    if i < |g| - 1 {
      GroupRecordAt(b, g[..|g| - 1], i);
      assert g[..|g| - 1][..i] == g[..i];
    }
  }

  /** The k-th record of a segment describes its k-th distinct body. */
  lemma {:induction false} RecordsMatch(gs: seq<Group>)
    ensures |RecordsOf(gs)| == |Flatten(gs)|
    ensures forall k :: 0 <= k < |Flatten(gs)| ==> Describes(gs, RecordsOf(gs)[k], Flatten(gs)[k])
  {
    if gs != [] {
      var before, g := gs[..|gs| - 1], gs[|gs| - 1];
      RecordsMatch(before);
      var n := |Flatten(before)|;
      forall k | 0 <= k < |Flatten(gs)|
        ensures Describes(gs, RecordsOf(gs)[k], Flatten(gs)[k])
      {
        if k < n {
          assert Describes(before, RecordsOf(before)[k], Flatten(before)[k]);
        } else {
          GroupRecordAt(|gs| - 1, g, k - n);
        }
      }
    }
  }

  lemma PackRecordsMatch(p: Pack)
    ensures PackRecords(p) == RecordsOf(AllGroups(p)) && Bodies(p) == Flatten(AllGroups(p))
    ensures |PackRecords(p)| == |Bodies(p)|
    ensures forall k :: 0 <= k < |Bodies(p)| ==> Describes(AllGroups(p), PackRecords(p)[k], Bodies(p)[k])
  {
    RecordsAppend(p.groups, p.open);
    FlattenAppend(p.groups, p.open);
    RecordsMatch(AllGroups(p));
  }
}
