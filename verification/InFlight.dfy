/** `fetch.py` and `daemon/stages/fetch.py`: what becomes of every claimed item. The in-flight set of
    the dispatcher is the account that has to balance. */
module InFlight {
  import opened Prelude
  import opened Ordering
  import opened SegmentFormat
  import opened Schema
  import opened WriteOps
  import Dispatch
  import Reprocess
  import CrashRecovery

  // ---------------------------------------------------------- one item's fate

  /** What the bulk reader sees: the rows and locations it loads, and the segment files. */
  datatype World = World(codec: Codec, files: Files, wheels: Wheels, blobs: map<Digest, BlobLocation>)

  /** `sha256` is the key of `blobs`, and no read fails in a way the loop does not catch. */
  predicate ValidWorld(w: World) {
    forall sha :: sha in w.blobs ==> w.blobs[sha].sha256 == sha && Caught(ReadAt(w.codec, w.files, w.blobs[sha]))
  }

  predicate Caught(r: Result<Bytes, ReadError>) { r.Ok? || r.error == FileNotFound || r.error == CorruptSegment }

  datatype Fate = Ready(data: Bytes) | ToRetry | ToSkip | LetGo

  function BlobOf(w: World, id: int): Option<Digest> { if id in w.wheels then w.wheels[id].blob else None }

  predicate Located(w: World, id: int) { BlobOf(w, id).Some? && BlobOf(w, id).value in w.blobs }

  function BlockOf(w: World, id: int): Key {
    if Located(w, id) then Key(w.blobs[BlobOf(w, id).value].segmentId, "", w.blobs[BlobOf(w, id).value].blockNo)
    else ById(0)
  }

  function BlobKey(w: World): int -> Option<Digest> { id => BlobOf(w, id) }

  function BlockKey(w: World): int -> Key { id => BlockOf(w, id) }

  /** No blob: released. No location or no file: retried. Unreadable: skipped. */
  function FateOf(w: World, id: int): Fate {
    if BlobOf(w, id).None? then LetGo
    else if !Located(w, id) then ToRetry
    else
      match ReadAt(w.codec, w.files, w.blobs[BlobOf(w, id).value])
      case Ok(data) => Ready(data)
      case Err(FileNotFound) => ToRetry
      case Err(_) => ToSkip
  }

  // ------------------------------------------- what crash safety says about reads

  /** What a bulk claim sees of the archive protocol's state. */
  function WorldOf(c: Codec, st: CrashRecovery.State): World { World(c, st.disk.files, st.db.wheels, st.db.blobs) }

  /** A live wheel's bytes come back, unless they still sit in the segment being filled; then it is retried. */
  ghost predicate ReadsBack(c: Codec, st: CrashRecovery.State, id: int)
    requires id in st.db.wheels
  {
    var blob, fate := st.db.wheels[id].blob, FateOf(WorldOf(c, st), id);
    && fate != ToSkip && (blob.None? <==> fate == LetGo)
    && (fate.Ready? ==> fate.data == blob.value.preimage)
    && (CrashRecovery.Linked(st.db.wheels[id], false) && fate == ToRetry ==>
          blob.value in st.db.blobs && CrashRecovery.Filling(st.process, blob.value, st.db.blobs[blob.value]))
  }

  lemma ServingReadsBack(c: Codec, st: CrashRecovery.State, id: int)
    requires CrashRecovery.Inv(c, st) && st.process.Up? && id in st.db.wheels
    ensures ReadsBack(c, st, id)
  {
    if Located(WorldOf(c, st), id) {
      var sha := st.db.wheels[id].blob.value;
      assert CrashRecovery.RowOk(c, st.disk, st.process, sha, st.db.blobs[sha]);
    }
  }

  /** After any run of the archive protocol, a bulk claim of the serving process reads the right bytes:
      no wheel is skipped as corrupt, and every read ends in one of the ways the loop handles. */
  lemma ServingWorld(c: Codec, target: nat, st: CrashRecovery.State, steps: seq<CrashRecovery.Step>)
    requires Sound(c) && CrashRecovery.Initial(c, st) && CrashRecovery.CanRun(c, target, st, steps)
    ensures var st' := CrashRecovery.Exec(c, target, st, steps);
            st'.process.Up? ==>
              ValidWorld(WorldOf(c, st')) && forall id :: id in st'.db.wheels ==> ReadsBack(c, st', id)
  {
    var st' := CrashRecovery.Exec(c, target, st, steps);
    CrashRecovery.InitialInv(c, st);
    CrashRecovery.RunKeepsInv(c, target, st, steps);
    if st'.process.Up? {
      forall sha | sha in st'.db.blobs
        ensures st'.db.blobs[sha].sha256 == sha && Caught(ReadAt(c, st'.disk.files, st'.db.blobs[sha]))
      {
        assert CrashRecovery.RowOk(c, st'.disk, st'.process, sha, st'.db.blobs[sha]);
      }
      forall id | id in st'.db.wheels ensures ReadsBack(c, st', id) {
        ServingReadsBack(c, st', id);
      }
    }
  }

  // ------------------------------------------------------------- grouping dicts

  /** A dictionary of lists: every id of the pool is in the list of its key, once. */
  ghost predicate Grouped<K(!new)>(groups: map<K, seq<int>>, pool: set<int>, keyOf: int -> K) {
    && (forall k, id :: k in groups && id in groups[k] ==> id in pool && keyOf(id) == k)
    && (forall id :: id in pool ==> keyOf(id) in groups && id in groups[keyOf(id)])
    && (forall k :: k in groups ==> groups[k] != [] && Reprocess.Distinct(groups[k]))
  }

  lemma InGroup<K(!new)>(groups: map<K, seq<int>>, pool: set<int>, keyOf: int -> K, k: K, i: nat)
    requires Grouped(groups, pool, keyOf) && k in groups && i < |groups[k]|
    ensures groups[k][i] in pool && keyOf(groups[k][i]) == k
  {
    assert forall k, id :: k in groups && id in groups[k] ==> id in pool && keyOf(id) == k;
    assert groups[k][i] in groups[k];
  }

  /** `setdefault(k, []).append(id)`. */
  function Add<K>(groups: map<K, seq<int>>, k: K, id: int): map<K, seq<int>> {
    groups[k := (if k in groups then groups[k] else []) + [id]]
  }

  lemma AddGrouped<K(!new)>(groups: map<K, seq<int>>, pool: set<int>, keyOf: int -> K, id: int)
    requires Grouped(groups, pool, keyOf) && id !in pool
    ensures Grouped(Add(groups, keyOf(id), id), pool + {id}, keyOf)
  {
    var groups' := Add(groups, keyOf(id), id);
    var was := if keyOf(id) in groups then groups[keyOf(id)] else [];
    assert id !in was;
    assert groups'[keyOf(id)] == was + [id];
    assert id in groups'[keyOf(id)] by {
      assert (was + [id])[|was|] == id;
    }
  }

  // ---------------------------------------------------------------- the account

  /** What has been decided so far, and the in-flight set that goes with it. */
  ghost predicate Balanced(w: World, claimed: set<int>, log: map<int, Fate>, held: set<int>, start: set<int>) {
    && log.Keys <= claimed
    && (forall id :: id in log ==> log[id] == FateOf(w, id))
    && held == start - (set id | id in log && !log[id].Ready?)
  }

  /** Deciding one more item: everything but `Ready` gives it back. */
  method Settle(d: Dispatch.Dispatcher, log: map<int, Fate>, id: int, fate: Fate,
                ghost w: World, ghost claimed: set<int>, ghost start: set<int>) returns (log': map<int, Fate>)
    requires d.Valid() && Balanced(w, claimed, log, d.Queue(CONVERT).inFlight, start)
    requires id in claimed && id !in log && fate == FateOf(w, id)
    modifies d
    ensures d.Valid() && Balanced(w, claimed, log', d.Queue(CONVERT).inFlight, start)
    ensures log' == log[id := fate]
    ensures d.Queue(FETCH) == old(d.Queue(FETCH)) && d.Queue(CONVERT).cursor == old(d.Queue(CONVERT)).cursor
  {
    if !fate.Ready? {
      d.Release(CONVERT, id);
    }
    log' := log[id := fate];
  }

  function Blobless(w: World, ids: set<int>): set<int> { set id | id in ids && BlobOf(w, id).None? }

  function Prefix(ids: seq<int>, i: nat): set<int>
    requires i <= |ids|
  {
    set j | 0 <= j < i :: ids[j]
  }

  /** First loop: items without a blob are released, the others grouped by digest. */
  method GroupByDigest(d: Dispatch.Dispatcher, ids: seq<int>, w: World, ghost start: set<int>)
    returns (log: map<int, Fate>, groups: map<Option<Digest>, seq<int>>)
    requires d.Valid() && d.Queue(CONVERT).inFlight == start && Reprocess.Distinct(ids)
    modifies d
    ensures d.Valid() && Balanced(w, Prefix(ids, |ids|), log, d.Queue(CONVERT).inFlight, start)
    ensures d.Queue(FETCH) == old(d.Queue(FETCH)) && d.Queue(CONVERT).cursor == old(d.Queue(CONVERT)).cursor
    ensures log.Keys == Blobless(w, Prefix(ids, |ids|))
    ensures Grouped(groups, Prefix(ids, |ids|) - log.Keys, BlobKey(w))
  {
    log, groups := map[], map[];
    ghost var claimed := Prefix(ids, |ids|);
    for i := 0 to |ids|
      invariant d.Valid() && Balanced(w, claimed, log, d.Queue(CONVERT).inFlight, start)
      invariant d.Queue(FETCH) == old(d.Queue(FETCH)) && d.Queue(CONVERT).cursor == old(d.Queue(CONVERT)).cursor
      invariant log.Keys == Blobless(w, Prefix(ids, i))
      invariant Grouped(groups, Prefix(ids, i) - log.Keys, BlobKey(w))
    {
      var id := ids[i];
      assert id in claimed && id !in Prefix(ids, i);
      assert Prefix(ids, i + 1) == Prefix(ids, i) + {id};
      if BlobOf(w, id).None? {
        ghost var pool := Prefix(ids, i) - log.Keys;
        log := Settle(d, log, id, LetGo, w, claimed, start);
        assert Prefix(ids, i + 1) - log.Keys == pool;
      } else {
        ghost var pool := Prefix(ids, i) - log.Keys;
        AddGrouped(groups, pool, BlobKey(w), id);
        groups := Add(groups, BlobOf(w, id), id);
        assert Prefix(ids, i + 1) - log.Keys == pool + {id};
      }
    }
  }

  function Unlocated(w: World, ids: set<int>): set<int> { set id | id in ids && !Located(w, id) }

  /** The claimed items whose digest is no longer pending. */
  function Past(w: World, claimed: set<int>, pending: set<Option<Digest>>): set<int> {
    set id | id in claimed && BlobOf(w, id) !in pending
  }

  /** No `blobs` row: every item of the digest is retried. */
  method RetryAll(d: Dispatch.Dispatcher, ids: seq<int>, log: map<int, Fate>, ghost w: World,
                  ghost claimed: set<int>, ghost start: set<int>)
    returns (log': map<int, Fate>)
    requires d.Valid() && Balanced(w, claimed, log, d.Queue(CONVERT).inFlight, start) && Reprocess.Distinct(ids)
    requires forall i :: 0 <= i < |ids| ==> ids[i] in claimed && ids[i] !in log && FateOf(w, ids[i]) == ToRetry
    modifies d
    ensures d.Valid() && Balanced(w, claimed, log', d.Queue(CONVERT).inFlight, start)
    ensures log'.Keys == log.Keys + Prefix(ids, |ids|)
    ensures d.Queue(FETCH) == old(d.Queue(FETCH)) && d.Queue(CONVERT).cursor == old(d.Queue(CONVERT)).cursor
  {
    log' := log;
    for i := 0 to |ids|
      invariant d.Valid() && Balanced(w, claimed, log', d.Queue(CONVERT).inFlight, start)
      invariant log'.Keys == log.Keys + Prefix(ids, i)
      invariant d.Queue(FETCH) == old(d.Queue(FETCH)) && d.Queue(CONVERT).cursor == old(d.Queue(CONVERT)).cursor
    {
      assert Prefix(ids, i + 1) == Prefix(ids, i) + {ids[i]};
      log' := Settle(d, log', ids[i], ToRetry, w, claimed, start);
    }
  }

  method GroupAll(blocks: map<Key, seq<int>>, ids: seq<int>, w: World,
                  ghost pool: set<int>) returns (blocks': map<Key, seq<int>>)
    requires Grouped(blocks, pool, BlockKey(w)) && Reprocess.Distinct(ids)
    requires forall i :: 0 <= i < |ids| ==> ids[i] !in pool
    ensures Grouped(blocks', pool + Prefix(ids, |ids|), BlockKey(w))
  {
    blocks' := blocks;
    assert pool + Prefix(ids, 0) == pool;
    for i := 0 to |ids|
      invariant Grouped(blocks', pool + Prefix(ids, i), BlockKey(w))
    {
      assert pool + Prefix(ids, i + 1) == pool + Prefix(ids, i) + {ids[i]};
      AddGrouped(blocks', pool + Prefix(ids, i), BlockKey(w), ids[i]);
      blocks' := Add(blocks', BlockOf(w, ids[i]), ids[i]);
    }
  }

  /** One digest's list is exactly the claimed items with that digest. */
  lemma DigestList(w: World, claimed: set<int>, groups: map<Option<Digest>, seq<int>>, pending: set<Option<Digest>>,
                   sha: Option<Digest>)
    requires Grouped(groups, claimed - Blobless(w, claimed), BlobKey(w)) && sha in groups && sha in pending
    ensures sha.Some?
    ensures Past(w, claimed, pending - {sha}) == Past(w, claimed, pending) + Prefix(groups[sha], |groups[sha]|)
    ensures forall i :: 0 <= i < |groups[sha]| ==>
          groups[sha][i] in claimed && BlobOf(w, groups[sha][i]) == sha && groups[sha][i] !in Past(w, claimed, pending)
  {
    var ids := groups[sha];
    forall i | 0 <= i < |ids| ensures ids[i] in claimed - Blobless(w, claimed) && BlobOf(w, ids[i]) == sha {
      InGroup(groups, claimed - Blobless(w, claimed), BlobKey(w), sha, i);
    }
    assert ids[0] in claimed - Blobless(w, claimed);
    forall id | id in claimed && BlobOf(w, id) == sha ensures id in Prefix(ids, |ids|) {
      assert id in claimed - Blobless(w, claimed);
      assert BlobKey(w)(id) == sha;
    }
  }

  /** The items of one digest are all located, or none is. */
  lemma PlaceDigest(w: World, before: set<int>, after: set<int>, ids: seq<int>, sha: Option<Digest>, logged: set<int>)
    requires after == before + Prefix(ids, |ids|) && logged == Unlocated(w, before) && sha.Some?
    requires forall i :: 0 <= i < |ids| ==> BlobOf(w, ids[i]) == sha && ids[i] !in before
    ensures sha.value !in w.blobs ==>
          Unlocated(w, after) == logged + Prefix(ids, |ids|) && after - (logged + Prefix(ids, |ids|)) == before - logged
    ensures sha.value in w.blobs ==>
          Unlocated(w, after) == logged && after - logged == before - logged + Prefix(ids, |ids|)
  {
    forall id | id in Prefix(ids, |ids|) ensures BlobOf(w, id) == sha && id !in before {
    }
  }

  /** Second loop, in any order of the digests: regroup by segment and block, or retry. */
  method GroupByBlock(d: Dispatch.Dispatcher, groups: map<Option<Digest>, seq<int>>, log0: map<int, Fate>, w: World,
                      ghost claimed: set<int>, ghost start: set<int>)
    returns (log: map<int, Fate>, blocks: map<Key, seq<int>>)
    requires d.Valid() && Balanced(w, claimed, log0, d.Queue(CONVERT).inFlight, start)
    requires log0.Keys == Blobless(w, claimed) && Grouped(groups, claimed - log0.Keys, BlobKey(w))
    modifies d
    ensures d.Valid() && Balanced(w, claimed, log, d.Queue(CONVERT).inFlight, start)
    ensures d.Queue(FETCH) == old(d.Queue(FETCH)) && d.Queue(CONVERT).cursor == old(d.Queue(CONVERT)).cursor
    ensures log.Keys == Unlocated(w, claimed) && Grouped(blocks, claimed - log.Keys, BlockKey(w))
  {
    log, blocks := log0, map[];
    var pending := groups.Keys;
    AllPending(w, claimed, groups);
    while pending != {}
      invariant d.Valid() && Balanced(w, claimed, log, d.Queue(CONVERT).inFlight, start) && pending <= groups.Keys
      invariant d.Queue(FETCH) == old(d.Queue(FETCH)) && d.Queue(CONVERT).cursor == old(d.Queue(CONVERT)).cursor
      invariant log.Keys == Unlocated(w, Past(w, claimed, pending))
      invariant Grouped(blocks, Past(w, claimed, pending) - log.Keys, BlockKey(w))
      decreases |pending|
    {
      var sha :| sha in pending;
      var ids := groups[sha];
      DigestList(w, claimed, groups, pending, sha);
      ghost var pool := Past(w, claimed, pending) - log.Keys;
      PlaceDigest(w, Past(w, claimed, pending), Past(w, claimed, pending - {sha}), ids, sha, log.Keys);
      if sha.value !in w.blobs {
        log := RetryAll(d, ids, log, w, claimed, start);
      } else {
        blocks := GroupAll(blocks, ids, w, pool);
      }
      pending := pending - {sha};
    }
    assert Past(w, claimed, {}) == claimed;
  }

  lemma AllPending(w: World, claimed: set<int>, groups: map<Option<Digest>, seq<int>>)
    requires Grouped(groups, claimed - Blobless(w, claimed), BlobKey(w))
    ensures Past(w, claimed, groups.Keys) == Blobless(w, claimed) == Unlocated(w, Past(w, claimed, groups.Keys))
    ensures Grouped(map[], {}, BlockKey(w))
  {
    forall id | id in claimed ensures BlobOf(w, id) in groups <==> BlobOf(w, id).Some? {
      if BlobOf(w, id).Some? {
        assert BlobKey(w)(id) in groups;
      } else if None in groups {
        InGroup(groups, claimed - Blobless(w, claimed), BlobKey(w), None, 0);
        assert false;
      }
    }
  }

  // ------------------------------------------------------------ reading back

  datatype ReadyItem = ReadyItem(id: int, filename: string, data: Bytes)

  function ReadyIds(ready: seq<ReadyItem>): set<int> { set i | 0 <= i < |ready| :: ready[i].id }

  /** The batch returned so far: each ready item once, with its bytes. */
  ghost predicate Listed(w: World, ready: seq<ReadyItem>, log: map<int, Fate>) {
    && ReadyIds(ready) == (set id | id in log && log[id].Ready?)
    && (forall i, j :: 0 <= i < j < |ready| ==> ready[i].id != ready[j].id)
    && (forall i :: 0 <= i < |ready| ==>
          ready[i].id in log && log[ready[i].id] == Ready(ready[i].data) && IsBodyOf(w, ready[i]))
  }

  /** The bytes hash to the wheel's blob, and the filename is the wheel's. */
  predicate IsBodyOf(w: World, r: ReadyItem) {
    r.id in w.wheels && w.wheels[r.id].blob == Some(Sha256(r.data)) && w.wheels[r.id].filename == r.filename
  }

  lemma ReadyIsBody(w: World, id: int)
    requires ValidWorld(w) && FateOf(w, id).Ready?
    ensures id in w.wheels && IsBodyOf(w, ReadyItem(id, w.wheels[id].filename, FateOf(w, id).data))
  {
  }

  /** Everything new comes from this block. */
  ghost predicate FromBlock(ready0: seq<ReadyItem>, ready: seq<ReadyItem>, ids: set<int>) {
    ready0 <= ready && forall i :: |ready0| <= i < |ready| ==> ready[i].id in ids
  }

  /** The items come block by block, in (segment, block) order. */
  ghost predicate InBlockOrder(w: World, ready: seq<ReadyItem>) {
    forall i, j :: 0 <= i < j < |ready| ==> !Less(BlockOf(w, ready[j].id), BlockOf(w, ready[i].id))
  }

  /** None of them is in a block still to come. */
  ghost predicate Before(w: World, ready: seq<ReadyItem>, keys: set<Key>) {
    forall i, k :: 0 <= i < |ready| && k in keys ==> Less(BlockOf(w, ready[i].id), k)
  }

  lemma BlockOrderKept(w: World, ready0: seq<ReadyItem>, ready: seq<ReadyItem>, keys: set<Key>, key: Key, ids: set<int>)
    requires InBlockOrder(w, ready0) && Before(w, ready0, keys) && FromBlock(ready0, ready, ids)
    requires IsMin(keys, key) && forall id :: id in ids ==> BlockOf(w, id) == key
    ensures InBlockOrder(w, ready) && Before(w, ready, keys - {key})
  {
    forall i | 0 <= i < |ready|
      ensures i < |ready0| ==> ready[i] == ready0[i] && Less(BlockOf(w, ready[i].id), key)
      ensures i >= |ready0| ==> BlockOf(w, ready[i].id) == key
    {
    }
    forall i, j | 0 <= i < j < |ready| ensures !Less(BlockOf(w, ready[j].id), BlockOf(w, ready[i].id)) {
      if Less(BlockOf(w, ready[j].id), BlockOf(w, ready[i].id)) && j >= |ready0| {
        if i < |ready0| {
          LessTransitive(key, BlockOf(w, ready[i].id), key);
        }
        LessIrreflexive(key);
      }
    }
  }

  /** In terms of the locations: segments ascend, and blocks within a segment. */
  lemma BlockOrderIs(w: World, ready: seq<ReadyItem>, i: nat, j: nat)
    requires InBlockOrder(w, ready) && i < j < |ready| && Located(w, ready[i].id) && Located(w, ready[j].id)
    ensures var a := w.blobs[w.wheels[ready[i].id].blob.value];
            var b := w.blobs[w.wheels[ready[j].id].blob.value];
            a.segmentId < b.segmentId || (a.segmentId == b.segmentId && a.blockNo <= b.blockNo)
  {
    LexIrreflexive("");
    var a, b := BlockOf(w, ready[i].id), BlockOf(w, ready[j].id);
    assert !Less(b, a);
    LessTotal(a, b);
  }

  /** One block's items, each read through the block cache. */
  method ReadBlock(d: Dispatch.Dispatcher, ids: seq<int>, log0: map<int, Fate>, ready0: seq<ReadyItem>, w: World,
                   ghost claimed: set<int>, ghost start: set<int>)
    returns (log: map<int, Fate>, ready: seq<ReadyItem>)
    requires ValidWorld(w) && d.Valid() && Balanced(w, claimed, log0, d.Queue(CONVERT).inFlight, start)
    requires Listed(w, ready0, log0) && Reprocess.Distinct(ids)
    requires forall i :: 0 <= i < |ids| ==> ids[i] in claimed && ids[i] !in log0 && Located(w, ids[i])
    modifies d
    ensures d.Valid() && Balanced(w, claimed, log, d.Queue(CONVERT).inFlight, start) && Listed(w, ready, log)
    ensures log.Keys == log0.Keys + Prefix(ids, |ids|) && FromBlock(ready0, ready, Prefix(ids, |ids|))
    ensures d.Queue(FETCH) == old(d.Queue(FETCH)) && d.Queue(CONVERT).cursor == old(d.Queue(CONVERT)).cursor
  {
    log, ready := log0, ready0;
    for i := 0 to |ids|
      invariant d.Valid() && Balanced(w, claimed, log, d.Queue(CONVERT).inFlight, start) && Listed(w, ready, log)
      invariant log.Keys == log0.Keys + Prefix(ids, i) && FromBlock(ready0, ready, Prefix(ids, i))
      invariant d.Queue(FETCH) == old(d.Queue(FETCH)) && d.Queue(CONVERT).cursor == old(d.Queue(CONVERT)).cursor
    {
      var id := ids[i];
      assert Prefix(ids, i + 1) == Prefix(ids, i) + {id};
      log, ready := ReadOne(d, id, log, ready, w, claimed, start);
    }
  }

  /** One item: read it, and hand it on, retry or skip it. */
  method ReadOne(d: Dispatch.Dispatcher, id: int, log0: map<int, Fate>, ready0: seq<ReadyItem>, w: World,
                 ghost claimed: set<int>, ghost start: set<int>)
    returns (log: map<int, Fate>, ready: seq<ReadyItem>)
    requires ValidWorld(w) && d.Valid() && Balanced(w, claimed, log0, d.Queue(CONVERT).inFlight, start)
    requires Listed(w, ready0, log0)
    requires id in claimed && id !in log0 && Located(w, id)
    modifies d
    ensures d.Valid() && Balanced(w, claimed, log, d.Queue(CONVERT).inFlight, start) && Listed(w, ready, log)
    ensures log.Keys == log0.Keys + {id} && FromBlock(ready0, ready, {id})
    ensures d.Queue(FETCH) == old(d.Queue(FETCH)) && d.Queue(CONVERT).cursor == old(d.Queue(CONVERT)).cursor
  {
    var r := ReadAt(w.codec, w.files, w.blobs[BlobOf(w, id).value]);
    match r {
      case Ok(data) =>
        ReadyIsBody(w, id);
        var item := ReadyItem(id, w.wheels[id].filename, data);
        log := Settle(d, log0, id, Ready(data), w, claimed, start);
        ListReady(w, ready0, log0, log, item);
        ready := ready0 + [item];
      case Err(e) =>
        var fate := if e == FileNotFound then ToRetry else ToSkip;
        log := Settle(d, log0, id, fate, w, claimed, start);
        ListOther(w, ready0, log0, log, id, fate);
        ready := ready0;
    }
  }

  lemma ListReady(w: World, ready: seq<ReadyItem>, log: map<int, Fate>, log': map<int, Fate>, r: ReadyItem)
    requires Listed(w, ready, log) && r.id !in log && log' == log[r.id := Ready(r.data)] && IsBodyOf(w, r)
    ensures Listed(w, ready + [r], log')
  {
    var ready' := ready + [r];
    assert forall i :: 0 <= i < |ready| ==> ready'[i] == ready[i];
    forall id | id in log' && log'[id].Ready? ensures id in ReadyIds(ready') {
      if id == r.id {
        assert ready'[|ready|].id == id;
      } else {
        assert id in ReadyIds(ready);
        var i :| 0 <= i < |ready| && ready[i].id == id;
        assert ready'[i].id == id;
      }
    }
  }

  lemma ListOther(w: World, ready: seq<ReadyItem>, log: map<int, Fate>, log': map<int, Fate>, id: int, fate: Fate)
    requires Listed(w, ready, log) && id !in log && !fate.Ready? && log' == log[id := fate]
    ensures Listed(w, ready, log')
  {
  }

  /** The claimed items whose block is no longer to come. */
  function Through(w: World, claimed: set<int>, keys: set<Key>): set<int> {
    set id | id in claimed && (!Located(w, id) || BlockOf(w, id) !in keys)
  }

  lemma BlockList(w: World, claimed: set<int>, blocks: map<Key, seq<int>>, keys: set<Key>, key: Key)
    requires Grouped(blocks, claimed - Unlocated(w, claimed), BlockKey(w)) && key in blocks && key in keys
    ensures Through(w, claimed, keys - {key}) == Through(w, claimed, keys) + Prefix(blocks[key], |blocks[key]|)
    ensures forall i :: 0 <= i < |blocks[key]| ==>
          blocks[key][i] in claimed && Located(w, blocks[key][i]) && blocks[key][i] !in Through(w, claimed, keys)
          && BlockOf(w, blocks[key][i]) == key
  {
    var ids := blocks[key];
    forall i | 0 <= i < |ids| ensures ids[i] in claimed - Unlocated(w, claimed) && BlockOf(w, ids[i]) == key {
      InGroup(blocks, claimed - Unlocated(w, claimed), BlockKey(w), key, i);
    }
    forall id | id in claimed && Located(w, id) && BlockOf(w, id) == key ensures id in Prefix(ids, |ids|) {
      assert id in claimed - Unlocated(w, claimed);
      assert BlockKey(w)(id) == key;
    }
  }

  /** Third loop, in (segment, block) order. */
  method ReadBlocks(d: Dispatch.Dispatcher, blocks: map<Key, seq<int>>, log0: map<int, Fate>, w: World,
                    ghost claimed: set<int>, ghost start: set<int>)
    returns (log: map<int, Fate>, ready: seq<ReadyItem>)
    requires ValidWorld(w) && d.Valid() && Balanced(w, claimed, log0, d.Queue(CONVERT).inFlight, start)
    requires log0.Keys == Unlocated(w, claimed) && Grouped(blocks, claimed - log0.Keys, BlockKey(w))
    modifies d
    ensures d.Valid() && Balanced(w, claimed, log, d.Queue(CONVERT).inFlight, start) && log.Keys == claimed
    ensures Listed(w, ready, log) && InBlockOrder(w, ready)
    ensures d.Queue(FETCH) == old(d.Queue(FETCH)) && d.Queue(CONVERT).cursor == old(d.Queue(CONVERT)).cursor
  {
    log, ready := log0, [];
    var keys := blocks.Keys;
    AllToCome(w, claimed, blocks);
    while keys != {}
      invariant d.Valid() && Balanced(w, claimed, log, d.Queue(CONVERT).inFlight, start) && Listed(w, ready, log)
      invariant keys <= blocks.Keys && log.Keys == Through(w, claimed, keys)
      invariant InBlockOrder(w, ready) && Before(w, ready, keys)
      invariant d.Queue(FETCH) == old(d.Queue(FETCH)) && d.Queue(CONVERT).cursor == old(d.Queue(CONVERT)).cursor
      decreases |keys|
    {
      var key := Min(keys);
      BlockList(w, claimed, blocks, keys, key);
      ghost var ready0 := ready;
      log, ready := ReadBlock(d, blocks[key], log, ready, w, claimed, start);
      BlockOrderKept(w, ready0, ready, keys, key, Prefix(blocks[key], |blocks[key]|));
      keys := keys - {key};
    }
    assert Through(w, claimed, {}) == claimed;
  }

  lemma AllToCome(w: World, claimed: set<int>, blocks: map<Key, seq<int>>)
    requires Grouped(blocks, claimed - Unlocated(w, claimed), BlockKey(w))
    ensures Through(w, claimed, blocks.Keys) == Unlocated(w, claimed)
  {
    forall id | id in claimed && Located(w, id) ensures BlockOf(w, id) in blocks {
      assert id in claimed - Unlocated(w, claimed);
      assert BlockKey(w)(id) in blocks;
    }
  }

  // ------------------------------------------------------------- the whole batch

  lemma ClaimedIds(db: DB, now: Time, q: Dispatch.Lane, limit: nat)
    ensures var rows := Dispatch.ClaimRows(db, CONVERT, now, q, limit);
            var ids := Reprocess.RowIds(rows);
            Reprocess.Distinct(ids) && Prefix(ids, |ids|) == Dispatch.IdSet(Elements(rows))
  {
    Dispatch.ClaimSound(db, CONVERT, now, q, limit);
    Reprocess.RowIdsOf(Dispatch.ClaimRows(db, CONVERT, now, q, limit));
  }

  /** `claim_batch`: every claimed item meets exactly one fate, only the ready ones are still in flight,
      and those are returned once each with bytes that hash to their blob. */
  method ClaimBatch(d: Dispatch.Dispatcher, db: DB, limit: nat, now: Time, w: World) returns (ready: seq<ReadyItem>,
                    log: map<int, Fate>)
    requires d.Valid() && limit >= 1 && ValidWorld(w)
    modifies d
    ensures var claimed := Dispatch.IdSet(Elements(Dispatch.ClaimRows(db, CONVERT, now, old(d.Queue(CONVERT)), limit)));
            && log.Keys == claimed && (forall id :: id in claimed ==> log[id] == FateOf(w, id))
            && Listed(w, ready, log) && InBlockOrder(w, ready)
            && d.Valid() && d.Queue(CONVERT).inFlight == old(d.Queue(CONVERT)).inFlight + ReadyIds(ready)
            && d.Queue(FETCH) == old(d.Queue(FETCH))
  {
    ghost var q := d.Queue(CONVERT);
    var items := d.Claim(db, CONVERT, limit, now);
    ghost var rows := Dispatch.ClaimRows(db, CONVERT, now, q, limit);
    ghost var start, claimed := d.Queue(CONVERT).inFlight, Dispatch.IdSet(Elements(rows));
    ClaimedIds(db, now, q, limit);
    var ids := seq(|items|, i requires 0 <= i < |items| => items[i].id);
    assert ids == Reprocess.RowIds(rows);
    var groups, blocks;
    log, groups := GroupByDigest(d, ids, w, start);
    log, blocks := GroupByBlock(d, groups, log, w, claimed, start);
    log, ready := ReadBlocks(d, blocks, log, w, claimed, start);
    Dispatch.ClaimSound(db, CONVERT, now, q, limit);
    StillHeld(q.inFlight, claimed, log, ready, w);
  }

  lemma StillHeld(before: set<int>, claimed: set<int>, log: map<int, Fate>, ready: seq<ReadyItem>, w: World)
    requires before !! claimed && log.Keys == claimed && Listed(w, ready, log)
    ensures before + claimed - (set id | id in log && !log[id].Ready?) == before + ReadyIds(ready)
  {
  }

  // ----------------------------------------------------------- the fetch stage

  /** Where the items of one fetch batch went. */
  datatype Batch = Batch(handedOff: set<int>, applied: set<int>, abandoned: set<int>, released: set<int>)

  ghost predicate Partition(b: Batch, all: set<int>) {
    && b.handedOff + b.applied + b.abandoned + b.released == all
    && b.handedOff !! b.applied && b.handedOff !! b.abandoned && b.handedOff !! b.released
    && b.applied !! b.abandoned && b.applied !! b.released && b.abandoned !! b.released
  }

  /** First loop of `_dispatch_batch`: an item without a row is released. */
  method ReleaseRowless(d: Dispatch.Dispatcher, ids: seq<int>, wheels: Wheels) returns (released: set<int>)
    requires d.Valid()
    modifies d
    ensures d.Valid() && released == Prefix(ids, |ids|) - wheels.Keys
    ensures d.Queue(FETCH).inFlight == old(d.Queue(FETCH)).inFlight - released
    ensures d.Queue(CONVERT) == old(d.Queue(CONVERT))
  {
    released := {};
    for i := 0 to |ids|
      invariant d.Valid() && released == Prefix(ids, i) - wheels.Keys
      invariant d.Queue(FETCH).inFlight == old(d.Queue(FETCH)).inFlight - released
      invariant d.Queue(CONVERT) == old(d.Queue(CONVERT))
    {
      assert Prefix(ids, i + 1) == Prefix(ids, i) + {ids[i]};
      if ids[i] !in wheels {
        d.Release(FETCH, ids[i]);
        released := released + {ids[i]};
      }
    }
  }

  /** The futures that completed before the loop was left, and the rest. */
  ghost predicate Collected(futures: set<int>, ok: int -> bool, handedOff: set<int>, applied: set<int>,
                            pending: set<int>) {
    && handedOff + applied + pending == futures && handedOff !! pending && applied !! pending
    && (forall id :: id in handedOff ==> ok(id)) && (forall id :: id in applied ==> !ok(id))
  }

  /** The loop over completed futures: `ok` says which fetched their bytes, `shutdown` is read after each. */
  method Collect(d: Dispatch.Dispatcher, completion: seq<int>, ok: int -> bool, shutdown: nat -> bool)
    returns (handedOff: set<int>, applied: set<int>, pending: set<int>)
    requires d.Valid() && Reprocess.Distinct(completion)
    modifies d
    ensures d.Valid() && d.Queue(CONVERT) == old(d.Queue(CONVERT))
    ensures Collected(Prefix(completion, |completion|), ok, handedOff, applied, pending)
    ensures d.Queue(FETCH).inFlight == old(d.Queue(FETCH)).inFlight - applied
    ensures (forall i :: 0 <= i < |completion| ==> !shutdown(i)) ==> pending == {}
  {
    handedOff, applied, pending := {}, {}, Prefix(completion, |completion|);
    for n := 0 to |completion|
      invariant d.Valid() && d.Queue(CONVERT) == old(d.Queue(CONVERT))
      invariant Collected(Prefix(completion, |completion|), ok, handedOff, applied, pending)
      invariant forall i :: n <= i < |completion| ==> completion[i] in pending
      invariant pending <= set i | n <= i < |completion| :: completion[i]
      invariant d.Queue(FETCH).inFlight == old(d.Queue(FETCH)).inFlight - applied
    {
      var id := completion[n];
      pending := pending - {id};
      if ok(id) {
        handedOff := handedOff + {id};
      } else {
        d.Release(FETCH, id);
        applied := applied + {id};
      }
      if shutdown(n) {
        break;
      }
    }
  }

  /** `_abandon_pending`, in any order. */
  method AbandonPending(d: Dispatch.Dispatcher, pending: set<int>)
    requires d.Valid()
    modifies d
    ensures d.Valid() && d.Queue(CONVERT) == old(d.Queue(CONVERT))
    ensures d.Queue(FETCH).inFlight == old(d.Queue(FETCH)).inFlight - pending
  {
    var left := pending;
    while left != {}
      invariant d.Valid() && d.Queue(CONVERT) == old(d.Queue(CONVERT)) && left <= pending
      invariant d.Queue(FETCH).inFlight == old(d.Queue(FETCH)).inFlight - (pending - left)
      decreases |left|
    {
      SomeElement(left);
      var id :| id in left;
      d.Release(FETCH, id);
      left := left - {id};
    }
  }

  /** `_dispatch_batch`: futures complete in any order. Every item is handed off, answered, abandoned or
      released, exactly one of them, and only what was handed off stays in flight. */
  method DispatchBatch(d: Dispatch.Dispatcher, ids: seq<int>, wheels: Wheels, completion: seq<int>, ok: int -> bool,
                       shutdown: nat -> bool)
    returns (b: Batch)
    requires d.Valid() && Prefix(ids, |ids|) <= d.Queue(FETCH).inFlight
    requires Reprocess.Distinct(completion) && Prefix(completion, |completion|) == Prefix(ids, |ids|) * wheels.Keys
    modifies d
    ensures d.Valid() && Partition(b, Prefix(ids, |ids|))
    ensures d.Queue(FETCH).inFlight == old(d.Queue(FETCH)).inFlight - (Prefix(ids, |ids|) - b.handedOff)
    ensures d.Queue(CONVERT) == old(d.Queue(CONVERT))
    ensures (forall id :: id in b.handedOff ==> ok(id)) && (forall id :: id in b.applied ==> !ok(id))
    ensures (forall i :: 0 <= i < |completion| ==> !shutdown(i)) ==> b.abandoned == {}
  {
    var released := ReleaseRowless(d, ids, wheels);
    var handedOff, applied, pending := Collect(d, completion, ok, shutdown);
    AbandonPending(d, pending);
    b := Batch(handedOff, applied, pending, released);
    Accounted(Prefix(ids, |ids|), wheels.Keys, Prefix(completion, |completion|), ok, b, old(d.Queue(FETCH)).inFlight);
  }

  lemma Accounted(all: set<int>, present: set<int>, futures: set<int>, ok: int -> bool, b: Batch, before: set<int>)
    requires futures == all * present && b.released == all - present
    requires Collected(futures, ok, b.handedOff, b.applied, b.abandoned)
    ensures Partition(b, all) && before - b.released - b.applied - b.abandoned == before - (all - b.handedOff)
  {
    assert all == b.released + futures;
    forall id | id in b.handedOff ensures id !in b.applied {
    }
    assert all - b.handedOff == b.released + b.applied + b.abandoned;
  }
}
