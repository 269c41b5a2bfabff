/** `dispatcher.py`: reprocess campaigns over a quiescent database, and the preview that counts them. */
module Reprocess {
  import opened Prelude
  import opened Ordering
  import opened Schema
  import opened WriteOps
  import Dispatch

  datatype Selector =
    | VersionBelow(version: string)
    | InState(state: WheelState)
    | InProject(project: string)
    | SkippedOnly

  predicate Live(wheels: Wheels, id: int) { id in wheels && wheels[id].state != DELETED }

  // ------------------------------------------------------------- the preview

  function InProjectIds(wheels: Wheels, project: string): set<int> {
    set id | id in wheels && wheels[id].project == project && wheels[id].state != DELETED
  }

  function InStateIds(wheels: Wheels, state: WheelState): set<int> {
    set id | id in wheels && wheels[id].state == state && wheels[id].state != DELETED
  }

  function RepodataBelow(db: DB, version: string): set<int> {
    set id | id in db.repodata && LexLess(db.repodata[id], version) && Live(db.wheels, id)
  }

  function SkipsBelow(db: DB, version: string): set<StageKey> {
    set k | k in db.skips && StaleSkip(db.skips[k], version) && Live(db.wheels, k.id)
  }

  function IdsOf(keys: set<StageKey>): set<int> { set k | k in keys :: k.id }

  /** The wheels `preview_selector` counts. */
  function Matching(db: DB, selector: Selector): set<int> {
    match selector
    case VersionBelow(version) => RepodataBelow(db, version) + IdsOf(SkipsBelow(db, version))
    case InState(state) => InStateIds(db.wheels, state)
    case InProject(project) => InProjectIds(db.wheels, project)
    case SkippedOnly => InStateIds(db.wheels, SKIPPED)
  }

  datatype Preview = Preview(wheelCount: nat, skipsToClear: nat)

  function PreviewOf(db: DB, selector: Selector): Preview {
    Preview(|Matching(db, selector)|, if selector.VersionBelow? then |SkipsBelow(db, selector.version)| else 0)
  }

  // ---------------------------------------------------- what a campaign has done

  predicate RequeuedFrom(before: Wheel, after: Wheel) {
    after == before.(state := NEED_CONVERT, lane := 1, changeSeq := after.changeSeq, updatedAt := after.updatedAt)
  }

  ghost predicate WheelsDone(before: Wheels, after: Wheels, done: set<int>) {
    && after.Keys == before.Keys
    && forall id :: id in before ==> if id in done then RequeuedFrom(before[id], after[id]) else after[id] == before[id]
  }

  function WithoutIds(m: map<int, string>, done: set<int>): map<int, string> {
    map id | id in m && id !in done :: m[id]
  }

  function WithoutWork(m: map<StageKey, Work>, done: set<int>): map<StageKey, Work> {
    map k | k in m && k.id !in done :: m[k]
  }

  function WithoutStale(m: map<StageKey, Skip>, done: set<int>, below: Option<string>): map<StageKey, Skip> {
    map k | k in m && !(below.Some? && k.id in done && StaleSkip(m[k], below.value)) :: m[k]
  }

  /** Exactly the wheels in `done` are back in the queue, and exactly their side rows are gone. */
  ghost predicate Handled(before: DB, after: DB, done: set<int>, below: Option<string>) {
    && WheelsDone(before.wheels, after.wheels, done)
    && after == before.(wheels := after.wheels,
                        repodata := WithoutIds(before.repodata, done),
                        skips := WithoutStale(before.skips, done, below),
                        work := WithoutWork(before.work, done))
  }

  /** The wheel is back in the convert queue, in lane 1, without repodata or work rows. */
  predicate PutBack(before: DB, after: DB, id: int)
    requires id in before.wheels
  {
    && id in after.wheels && id !in after.repodata
    && StageKey(id, FETCH) !in after.work && StageKey(id, CONVERT) !in after.work
    && var w := after.wheels[id];
       w == before.wheels[id].(state := NEED_CONVERT, lane := 1, changeSeq := w.changeSeq, updatedAt := w.updatedAt)
  }

  predicate SameWork(before: DB, after: DB, key: StageKey) {
    (key in after.work <==> key in before.work) && (key in before.work ==> after.work[key] == before.work[key])
  }

  predicate SameSkip(before: DB, after: DB, key: StageKey) {
    (key in after.skips <==> key in before.skips) && (key in before.skips ==> after.skips[key] == before.skips[key])
  }

  /** The wheel and all its side rows are as they were. */
  predicate LeftAlone(before: DB, after: DB, id: int)
    requires id in before.wheels
  {
    && id in after.wheels && after.wheels[id] == before.wheels[id]
    && (id in after.repodata <==> id in before.repodata)
    && (id in before.repodata ==> after.repodata[id] == before.repodata[id])
    && SameWork(before, after, StageKey(id, FETCH)) && SameWork(before, after, StageKey(id, CONVERT))
    && SameSkip(before, after, StageKey(id, FETCH)) && SameSkip(before, after, StageKey(id, CONVERT))
  }

  lemma HandledRows(before: DB, after: DB, done: set<int>, below: Option<string>)
    requires Handled(before, after, done, below)
    ensures after.wheels.Keys == before.wheels.Keys
    ensures forall id :: id in before.wheels ==>
              if id in done then PutBack(before, after, id) else LeftAlone(before, after, id)
    ensures below.None? ==> after.skips == before.skips
  {
  }

  function Members(rows: seq<int>): set<int> { set i | 0 <= i < |rows| :: rows[i] }

  ghost predicate Distinct(rows: seq<int>) {
    forall i, j :: 0 <= i < j < |rows| ==> rows[i] != rows[j]
  }

  lemma {:induction false} MembersCount(rows: seq<int>)
    requires Distinct(rows)
    ensures |Members(rows)| == |rows|
  {
    if rows != [] {
      var init, last := rows[..|rows| - 1], rows[|rows| - 1];
      MembersCount(init);
      assert Members(rows) == Members(init) + {last};
      assert last !in Members(init);
    }
  }

  lemma {:induction false} CountAll(wheels: Wheels, ids: seq<int>)
    requires forall i :: 0 <= i < |ids| ==> ids[i] in wheels
    ensures CountIn(wheels, ids) == |ids|
  {
    if ids != [] {
      CountAll(wheels, ids[1..]);
    }
  }

  lemma ChunkWheels(before: Wheels, wheels: Wheels, done: set<int>, ids: seq<int>, ctr: nat, now: Time)
    requires WheelsDone(before, wheels, done)
    ensures WheelsDone(before, RequeueRows(wheels, ids, ctr, now), done + Members(ids))
  {
    var after := RequeueRows(wheels, ids, ctr, now);
    RequeueRowsEffect(wheels, ids, ctr, now, 0);
    forall id | id in before
      ensures if id in done + Members(ids) then RequeuedFrom(before[id], after[id]) else after[id] == before[id]
    {
      RequeueRowsEffect(wheels, ids, ctr, now, id);
      assert id in ids <==> id in Members(ids);
    }
  }

  /** A chunk adds its ids to what the campaign has done. */
  lemma ChunkDone(before: DB, db: DB, done: set<int>, ids: seq<int>, ctr: nat, below: Option<string>, now: Time)
    requires Handled(before, db, done, below)
    ensures Handled(before, ReprocessChunk(db, ctr, ids, below, now).db, done + Members(ids), below)
  {
    var after := ReprocessChunk(db, ctr, ids, below, now).db;
    ChunkWheels(before.wheels, db.wheels, done, ids, ctr, now);
    assert forall id :: id in ids <==> id in Members(ids);
    assert after.repodata == WithoutIds(before.repodata, done + Members(ids));
    assert after.work == WithoutWork(before.work, done + Members(ids));
    assert after.skips == WithoutStale(before.skips, done + Members(ids), below);
  }

  lemma NothingDone(db: DB, below: Option<string>)
    ensures Handled(db, db, {}, below)
  {
    assert WithoutIds(db.repodata, {}) == db.repodata;
    assert WithoutWork(db.work, {}) == db.work;
    assert WithoutStale(db.skips, {}, below) == db.skips;
  }

  // --------------------------------------------------------------- chunk reads

  /** At most `limit` of the matching ids, all of them if there are fewer. */
  ghost predicate IsPage(s: set<int>, limit: nat, rows: seq<int>) {
    && |rows| == (if |s| < limit then |s| else limit)
    && Distinct(rows) && Members(rows) <= s
  }

  /** The campaign so far: `done` is handled, `left` is not, and the total counts `done`. */
  ghost predicate Underway(before: DB, db: DB, all: set<int>, done: set<int>, below: Option<string>, total: nat) {
    done <= all && Handled(before, db, done, below) && total == |done|
  }

  /** One chunk of rows not handled yet. */
  lemma ChunkUnderway(before: DB, db: DB, ctr: nat, all: set<int>, done: set<int>, below: Option<string>, total: nat,
                      ids: seq<int>, now: Time)
    requires Underway(before, db, all, done, below, total)
    requires Distinct(ids) && Members(ids) <= all - done && all <= before.wheels.Keys
    ensures var r := ReprocessChunk(db, ctr, ids, below, now);
            Underway(before, r.db, all, done + Members(ids), below, total + r.reply.n) && r.reply.n == |ids|
  {
    assert forall i :: 0 <= i < |ids| ==> ids[i] in Members(ids);
    CountAll(db.wheels, ids);
    MembersCount(ids);
    ChunkDone(before, db, done, ids, ctr, below, now);
    assert |done + Members(ids)| == |done| + |Members(ids)|;
  }

  lemma SubsetOfSameSize(a: set<int>, b: set<int>)
    requires a <= b && |a| == |b|
    ensures a == b
  {
    assert a + (b - a) == b;
    assert |b - a| == 0;
  }

  lemma PageEnds(s: set<int>, limit: nat, rows: seq<int>)
    requires IsPage(s, limit, rows) && |rows| < limit
    ensures Members(rows) == s
  {
    MembersCount(rows);
    SubsetOfSameSize(Members(rows), s);
  }

  // -------------------------------------------------- the version campaign

  /** Up to `limit` of the matching skips rows. */
  ghost predicate IsSkipsPage(s: set<StageKey>, limit: nat, rows: seq<StageKey>) {
    && |rows| == (if |s| < limit then |s| else limit)
    && (forall i, j :: 0 <= i < j < |rows| ==> rows[i] != rows[j])
    && (forall i :: 0 <= i < |rows| ==> rows[i] in s)
  }

  /** `list(dict.fromkeys(...))`: a wheel may be skipped at both stages. */
  function FirstSeen(rows: seq<StageKey>): seq<int> {
    if rows == [] then []
    else
      var init := FirstSeen(rows[..|rows| - 1]);
      var id := rows[|rows| - 1].id;
      if id in init then init else init + [id]
  }

  lemma {:induction false} FirstSeenIs(rows: seq<StageKey>)
    ensures Distinct(FirstSeen(rows)) && Members(FirstSeen(rows)) == set i | 0 <= i < |rows| :: rows[i].id
    ensures rows != [] ==> FirstSeen(rows) != []
  {
    if rows != [] {
      var init, last := rows[..|rows| - 1], rows[|rows| - 1];
      var seen := FirstSeen(init);
      FirstSeenIs(init);
      var ids := set i | 0 <= i < |rows| :: rows[i].id;
      assert ids == (set i | 0 <= i < |init| :: init[i].id) + {last.id};
      assert last.id in seen <==> last.id in Members(seen);
      assert Members(seen + [last.id]) == Members(seen) + {last.id} by {
        assert forall i :: 0 <= i < |seen| ==> (seen + [last.id])[i] == seen[i];
        assert (seen + [last.id])[|seen|] == last.id;
      }
    }
  }

  lemma SkipsPageEnds(s: set<StageKey>, limit: nat, rows: seq<StageKey>)
    requires IsSkipsPage(s, limit, rows) && |rows| < limit
    ensures forall k :: k in s ==> k in rows
  {
    var got := set i | 0 <= i < |rows| :: rows[i];
    KeysCount(rows);
    assert got <= s;
    assert got + (s - got) == s;
    assert |s - got| == 0;
    assert s <= got;
  }

  lemma {:induction false} KeysCount(rows: seq<StageKey>)
    requires forall i, j :: 0 <= i < j < |rows| ==> rows[i] != rows[j]
    ensures |set i | 0 <= i < |rows| :: rows[i]| == |rows|
  {
    if rows != [] {
      var init, last := rows[..|rows| - 1], rows[|rows| - 1];
      KeysCount(init);
      var got := set i | 0 <= i < |init| :: init[i];
      assert (set i | 0 <= i < |rows| :: rows[i]) == got + {last};
      assert last !in got;
    }
  }

  /** What still matches is what has not been handled: the campaign's own deletions are its cursor. */
  lemma VersionLeft(before: DB, db: DB, done: set<int>, version: string)
    requires Handled(before, db, done, Some(version))
    ensures RepodataBelow(db, version) == RepodataBelow(before, version) - done
    ensures SkipsBelow(db, version) == set k | k in SkipsBelow(before, version) && k.id !in done
  {
  }

  ghost predicate Campaign(before: DB, db: DB, version: string, done: set<int>, total: nat) {
    Underway(before, db, Matching(before, VersionBelow(version)), done, Some(version), total)
  }

  lemma RowsShrink(all: set<int>, done: set<int>, left: set<int>, left': set<int>, rows: seq<int>, limit: nat)
    requires IsPage(left, limit, rows) && rows != [] && left == all - done && left' == all - (done + Members(rows))
    ensures |left'| < |left| && (|rows| < limit ==> left' == {})
  {
    assert rows[0] in Members(rows);
    Shrinks(left, left', rows[0]);
    if |rows| < limit {
      PageEnds(left, limit, rows);
    }
  }

  /** A page of the first phase. */
  lemma RepodataChunk(before: DB, db: DB, ctr: nat, version: string, done: set<int>, total: nat, rows: seq<int>,
                      limit: nat, now: Time)
    requires Campaign(before, db, version, done, total) && IsPage(RepodataBelow(db, version), limit, rows) && rows != []
    ensures var r := ReprocessChunk(db, ctr, rows, Some(version), now);
            && Campaign(before, r.db, version, done + Members(rows), total + r.reply.n)
            && r.reply.n == |rows|
            && |RepodataBelow(r.db, version)| < |RepodataBelow(db, version)|
            && (|rows| < limit ==> RepodataBelow(r.db, version) == {})
  {
    var left, db' := RepodataBelow(db, version), ReprocessChunk(db, ctr, rows, Some(version), now).db;
    VersionLeft(before, db, done, version);
    ChunkUnderway(before, db, ctr, Matching(before, VersionBelow(version)), done, Some(version), total, rows, now);
    VersionLeft(before, db', done + Members(rows), version);
    RowsShrink(RepodataBelow(before, version), done, left, RepodataBelow(db', version), rows, limit);
  }

  /** A page of the second phase. */
  lemma SkipsChunk(before: DB, db: DB, ctr: nat, version: string, done: set<int>, total: nat, rows: seq<StageKey>,
                   limit: nat, now: Time)
    requires Campaign(before, db, version, done, total) && IsSkipsPage(SkipsBelow(db, version), limit, rows)
    requires rows != []
    ensures var r := ReprocessChunk(db, ctr, FirstSeen(rows), Some(version), now);
            && Campaign(before, r.db, version, done + Members(FirstSeen(rows)), total + r.reply.n)
            && r.reply.n == |FirstSeen(rows)|
            && |SkipsBelow(r.db, version)| < |SkipsBelow(db, version)|
            && (|rows| < limit ==> SkipsBelow(r.db, version) == {})
  {
    var ids := FirstSeen(rows);
    var left, db' := SkipsBelow(db, version), ReprocessChunk(db, ctr, ids, Some(version), now).db;
    FirstSeenIs(rows);
    VersionLeft(before, db, done, version);
    ChunkUnderway(before, db, ctr, Matching(before, VersionBelow(version)), done, Some(version), total, ids, now);
    VersionLeft(before, db', done + Members(ids), version);
    assert rows[0].id in Members(ids);
    ShrinksKeys(left, SkipsBelow(db', version), rows[0]);
    if |rows| < limit {
      SkipsPageEnds(left, limit, rows);
    }
  }

  lemma CampaignEnds(before: DB, db: DB, version: string, done: set<int>, total: nat)
    requires Campaign(before, db, version, done, total) && RepodataBelow(before, version) <= done
    requires SkipsBelow(db, version) == {}
    ensures done == Matching(before, VersionBelow(version))
  {
    VersionLeft(before, db, done, version);
    forall k | k in SkipsBelow(before, version) ensures k.id in done {
      assert k !in SkipsBelow(db, version);
    }
  }

  /** First phase: `wheel_repodata` below the version. */
  method RepodataPhase(before: DB, start: nat, version: string, chunkSize: nat, clock: nat -> Time,
                       page: (set<int>, nat) -> seq<int>)
    returns (db: DB, ctr: nat, total: nat, ghost done: set<int>)
    requires chunkSize >= 1
    requires forall s: set<int>, n: nat :: IsPage(s, n, page(s, n))
    ensures Campaign(before, db, version, done, total) && RepodataBelow(before, version) <= done && ctr == start + total
  {
    db, ctr, total, done := before, start, 0, {};
    NothingDone(before, Some(version));
    while true
      invariant Campaign(before, db, version, done, total) && ctr == start + total
      decreases |RepodataBelow(db, version)|
    {
      var rows := page(RepodataBelow(db, version), chunkSize);
      if rows == [] {
        assert RepodataBelow(db, version) == {};
        break;
      }
      var now := clock(ctr);
      RepodataChunk(before, db, ctr, version, done, total, rows, chunkSize, now);
      done := done + Members(rows);
      var r := ReprocessChunk(db, ctr, rows, Some(version), now);
      db, ctr, total := r.db, r.ctr, total + r.reply.n;
      if |rows| < chunkSize {
        break;
      }
    }
    VersionLeft(before, db, done, version);
  }

  /** A retryable skip of the wheel, at either stage, is older than the version; NULL never compares. */
  predicate SkippedBelow(db: DB, id: int, stage: Stage, version: string) {
    var key := StageKey(id, stage);
    key in db.skips && !db.skips[key].permanent && db.skips[key].version.Some?
    && LexLess(db.skips[key].version.value, version)
  }

  /** The campaign's selection, row by row. */
  predicate Selected(db: DB, id: int, version: string) {
    && id in db.wheels && db.wheels[id].state != DELETED
    && ((id in db.repodata && LexLess(db.repodata[id], version))
        || SkippedBelow(db, id, FETCH, version) || SkippedBelow(db, id, CONVERT, version))
  }

  lemma SelectedIff(db: DB, id: int, version: string)
    ensures id in Matching(db, VersionBelow(version)) <==> Selected(db, id, version)
  {
    forall k | k in SkipsBelow(db, version) && k.id == id
      ensures SkippedBelow(db, id, FETCH, version) || SkippedBelow(db, id, CONVERT, version)
    {
      assert k == StageKey(id, FETCH) || k == StageKey(id, CONVERT) by {
        match k.stage
        case FETCH =>
        case CONVERT =>
      }
    }
    assert SkippedBelow(db, id, FETCH, version) && Live(db.wheels, id) ==>
        StageKey(id, FETCH) in SkipsBelow(db, version);
    assert SkippedBelow(db, id, CONVERT, version) && Live(db.wheels, id) ==>
        StageKey(id, CONVERT) in SkipsBelow(db, version);
  }

  /** What the campaign leaves, read off the rows: the selected wheels are put back, their stale skips are
      gone and nothing else is. */
  lemma VersionRows(before: DB, db: DB, version: string)
    requires Handled(before, db, Matching(before, VersionBelow(version)), Some(version))
    ensures forall id :: id in before.wheels ==>
              if Selected(before, id, version) then PutBack(before, db, id) else LeftAlone(before, db, id)
    ensures forall id, stage :: id in before.wheels ==>
              (StageKey(id, stage) in db.skips <==>
                 StageKey(id, stage) in before.skips &&
                 !(before.wheels[id].state != DELETED && SkippedBelow(before, id, stage, version)))
    ensures Matching(before, VersionBelow(version)) == set id | id in before.wheels && Selected(before, id, version)
  {
    HandledRows(before, db, Matching(before, VersionBelow(version)), Some(version));
    forall id ensures id in Matching(before, VersionBelow(version)) <==> Selected(before, id, version) {
      SelectedIff(before, id, version);
    }
  }

  /** `_reroll_version_below_chunks`: no cursor, any choice of rows per page, two phases over two
      shrinking tables. Every matching wheel is handled once and the total is the previewed count. */
  method ReprocessVersion(before: DB, start: nat, version: string, chunkSize: nat, clock: nat -> Time,
                          repodataPage: (set<int>, nat) -> seq<int>, skipsPage: (set<StageKey>, nat) -> seq<StageKey>)
    returns (db: DB, ctr: nat, total: nat)
    requires chunkSize >= 1
    requires forall s: set<int>, n: nat :: IsPage(s, n, repodataPage(s, n))
    requires forall s: set<StageKey>, n: nat :: IsSkipsPage(s, n, skipsPage(s, n))
    ensures Handled(before, db, Matching(before, VersionBelow(version)), Some(version))
    ensures total == PreviewOf(before, VersionBelow(version)).wheelCount && ctr == start + total
    ensures |before.skips| - |db.skips| == PreviewOf(before, VersionBelow(version)).skipsToClear
    ensures forall id :: id in before.wheels ==>
              if Selected(before, id, version) then PutBack(before, db, id) else LeftAlone(before, db, id)
    ensures forall id, stage :: id in before.wheels ==>
              (StageKey(id, stage) in db.skips <==>
                 StageKey(id, stage) in before.skips &&
                 !(before.wheels[id].state != DELETED && SkippedBelow(before, id, stage, version)))
    ensures total == |set id | id in before.wheels && Selected(before, id, version)|
  {
    ghost var done;
    db, ctr, total, done := RepodataPhase(before, start, version, chunkSize, clock, repodataPage);
    while true
      invariant Campaign(before, db, version, done, total) && RepodataBelow(before, version) <= done
      invariant ctr == start + total
      decreases |SkipsBelow(db, version)|
    {
      var rows := skipsPage(SkipsBelow(db, version), chunkSize);
      if rows == [] {
        assert SkipsBelow(db, version) == {};
        break;
      }
      var now := clock(ctr);
      SkipsChunk(before, db, ctr, version, done, total, rows, chunkSize, now);
      done := done + Members(FirstSeen(rows));
      var r := ReprocessChunk(db, ctr, FirstSeen(rows), Some(version), now);
      db, ctr, total := r.db, r.ctr, total + r.reply.n;
      if |rows| < chunkSize {
        break;
      }
    }
    CampaignEnds(before, db, version, done, total);
    SkipsCleared(before, db, version);
    VersionRows(before, db, version);
  }

  lemma Shrinks(a: set<int>, b: set<int>, x: int)
    requires b <= a && x in a && x !in b
    ensures |b| < |a|
  {
    assert b + (a - b) == a;
    assert x in a - b;
  }

  lemma ShrinksKeys(a: set<StageKey>, b: set<StageKey>, x: StageKey)
    requires b <= a && x in a && x !in b
    ensures |b| < |a|
  {
    assert b + (a - b) == a;
    assert x in a - b;
  }

  lemma Complement(whole: map<StageKey, Skip>, kept: map<StageKey, Skip>, gone: set<StageKey>)
    requires kept.Keys <= whole.Keys && gone <= whole.Keys
    requires forall k :: k in whole ==> (k in kept <==> k !in gone)
    ensures whole.Keys - kept.Keys == gone && |whole| - |kept| == |gone|
  {
    assert whole.Keys == kept.Keys + gone;
    assert |whole.Keys| == |whole| && |kept.Keys| == |kept|;
  }

  /** The previewed skips rows are exactly those the campaign deletes. */
  lemma SkipsCleared(before: DB, db: DB, version: string)
    requires Handled(before, db, Matching(before, VersionBelow(version)), Some(version))
    ensures before.skips.Keys - db.skips.Keys == SkipsBelow(before, version)
    ensures |before.skips| - |db.skips| == |SkipsBelow(before, version)|
  {
    var gone := SkipsBelow(before, version);
    forall k | k in before.skips ensures k in db.skips <==> k !in gone {
      if k in gone {
        assert k.id in IdsOf(gone);
      }
    }
    Complement(before.skips, db.skips, gone);
  }

  // -------------------------------------------------------- keyed pages of ids

  function RowIds(rows: seq<Key>): seq<int> { seq(|rows|, i requires 0 <= i < |rows| => rows[i].id) }

  ghost predicate OneKeyPerId(keys: set<Key>) {
    forall a, b :: a in keys && b in keys && a.id == b.id ==> a == b
  }

  lemma MembersCons(x: int, rest: seq<int>)
    ensures Members([x] + rest) == {x} + Members(rest)
  {
    var ids := [x] + rest;
    assert forall i :: 0 <= i < |rest| ==> ids[i + 1] == rest[i];
    forall y | y in Members(rest) ensures y in Members(ids) {
      var i :| 0 <= i < |rest| && rest[i] == y;
      assert ids[i + 1] == y;
    }
    assert ids[0] == x;
  }

  lemma {:induction false} RowIdsOf(rows: seq<Key>)
    requires Ascending(rows) && OneKeyPerId(Elements(rows))
    ensures Distinct(RowIds(rows)) && Members(RowIds(rows)) == Dispatch.IdSet(Elements(rows))
  {
    var ids := RowIds(rows);
    if rows != [] {
      RowIdsOf(rows[1..]);
      var rest := RowIds(rows[1..]);
      assert ids == [rows[0].id] + rest;
      MembersCons(rows[0].id, rest);
      if rows[0].id in Members(rest) {
        var k :| k in Elements(rows[1..]) && k.id == rows[0].id;
        LessIrreflexive(k);
        assert false;
      }
      assert forall i :: 0 <= i < |rest| ==> rest[i] in Members(rest);
    }
  }

  /** A page past a cursor, as ids: a short page ends the scan, a full one leaves the rest past its last row. */
  lemma NextPage(keys: set<Key>, cursor: Option<Key>, limit: nat)
    requires OneKeyPerId(keys) && limit >= 1
    ensures var todo := Past(keys, cursor);
            var rows := Page(todo, limit);
            var ids := RowIds(rows);
            && Distinct(ids) && Members(ids) <= Dispatch.IdSet(todo)
            && (|rows| < limit ==> Members(ids) == Dispatch.IdSet(todo))
            && (|rows| >= limit ==>
                 var last := rows[|rows| - 1];
                 && last in keys && After(keys, last) == Rest(todo, limit) && |After(keys, last)| < |todo|
                 && Dispatch.IdSet(After(keys, last)) == Dispatch.IdSet(todo) - Members(ids))
  {
    var todo := Past(keys, cursor);
    var rows := Page(todo, limit);
    PageElements(todo, limit);
    PageAscending(todo, limit);
    PageSize(todo, limit);
    RowIdsOf(rows);
    if |rows| < limit {
      PageWhole(todo, limit);
    } else {
      ScanSplits(todo, limit);
      LastInPage(rows);
      PastTransitive(keys, cursor, rows[limit - 1]);
    }
  }

  // ------------------------------------------------------ the project campaign

  function Above(ids: set<int>, lastId: int): set<int> { set id | id in ids && id > lastId }

  function IdKeys(ids: set<int>): set<Key> { set id | id in ids :: ById(id) }

  lemma IdKeysAbove(ids: set<int>, lastId: int)
    ensures After(IdKeys(ids), ById(lastId)) == IdKeys(Above(ids, lastId))
  {
    forall id | id in ids
      ensures ById(id) in IdKeys(ids) && (ById(id) in After(IdKeys(ids), ById(lastId)) <==> id > lastId)
    {
      LessById(lastId, id);
    }
  }

  lemma IdKeysSet(ids: set<int>)
    ensures Dispatch.IdSet(IdKeys(ids)) == ids && OneKeyPerId(IdKeys(ids))
  {
    forall id | id in ids ensures id in Dispatch.IdSet(IdKeys(ids)) {
      var k := ById(id);
      assert k in IdKeys(ids) && k.id == id;
    }
  }

  lemma PastIds(ids: set<int>, lastId: int)
    ensures Dispatch.IdSet(After(IdKeys(ids), ById(lastId))) == Above(ids, lastId)
  {
    IdKeysAbove(ids, lastId);
    IdKeysSet(Above(ids, lastId));
  }

  /** A page of ascending ids past `lastId`. */
  lemma IdPage(ids: set<int>, lastId: int, limit: nat)
    requires limit >= 1
    ensures IsNextPage(ids, lastId, limit, RowIds(Page(After(IdKeys(ids), ById(lastId)), limit)))
  {
    var keys, todo := IdKeys(ids), After(IdKeys(ids), ById(lastId));
    IdKeysSet(ids);
    PastIds(ids, lastId);
    NextPage(keys, Some(ById(lastId)), limit);
    PageSize(todo, limit);
    var page := Page(todo, limit);
    if |page| == limit {
      var last := page[limit - 1];
      assert last == ById(last.id);
      PastIds(ids, last.id);
      assert RowIds(page)[limit - 1] == last.id;
    }
  }

  /** A reprocessed wheel still belongs to its project. */
  lemma ProjectIdsStay(before: Wheels, wheels: Wheels, done: set<int>, project: string)
    requires WheelsDone(before, wheels, done) && done <= InProjectIds(before, project)
    ensures InProjectIds(wheels, project) == InProjectIds(before, project)
  {
    forall id | id in before
      ensures id in InProjectIds(wheels, project) <==> id in InProjectIds(before, project)
    {
    }
  }

  /** The rows past the last id are exactly those not handled yet. */
  ghost predicate ProjectUnderway(before: DB, db: DB, all: set<int>, lastId: int, done: set<int>, total: nat) {
    Underway(before, db, all, done, None, total) && Above(all, lastId) == all - done
  }

  /** What a page past `lastId` must be. */
  ghost predicate IsNextPage(all: set<int>, lastId: int, limit: nat, ids: seq<int>) {
    && Distinct(ids) && Members(ids) <= Above(all, lastId) && |ids| <= limit
    && (|ids| < limit ==> Members(ids) == Above(all, lastId))
    && (|ids| == limit > 0 ==> Above(all, ids[limit - 1]) == Above(all, lastId) - Members(ids))
  }

  lemma ProjectEnds(before: DB, db: DB, project: string, all: set<int>, done: set<int>, total: nat)
    requires all == InProjectIds(before.wheels, project) && Underway(before, db, all, done, None, total) && all <= done
    ensures Handled(before, db, Matching(before, InProject(project)), None)
    ensures total == PreviewOf(before, InProject(project)).wheelCount
  {
    assert done == all;
  }

  lemma ProjectChunk(before: DB, db: DB, ctr: nat, all: set<int>, lastId: int, done: set<int>, total: nat,
                     ids: seq<int>, limit: nat, now: Time)
    requires ProjectUnderway(before, db, all, lastId, done, total) && all <= before.wheels.Keys && limit >= 1
    requires IsNextPage(all, lastId, limit, ids) && ids != []
    ensures var r := ReprocessChunk(db, ctr, ids, None, now);
            && r.reply.n == |ids| && |all - (done + Members(ids))| < |all - done|
            && Underway(before, r.db, all, done + Members(ids), None, total + r.reply.n)
            && (|ids| == limit ==> Above(all, ids[limit - 1]) == all - (done + Members(ids)))
            && (|ids| < limit ==> done + Members(ids) == all)
  {
    ChunkUnderway(before, db, ctr, all, done, None, total, ids, now);
    PageAdvances(all, done, Members(ids), ids[0]);
  }

  lemma PageAdvances(all: set<int>, done: set<int>, page: set<int>, x: int)
    requires page <= all - done && x in page
    ensures |all - (done + page)| < |all - done| && all - (done + page) == all - done - page
  {
    Shrinks(all - done, all - (done + page), x);
  }

  /** `_project_chunk_query`. */
  method ProjectPage(wheels: Wheels, project: string, lastId: int, limit: nat,
                     ghost all: set<int>) returns (ids: seq<int>)
    requires limit >= 1 && InProjectIds(wheels, project) == all
    ensures IsNextPage(all, lastId, limit, ids)
  {
    IdPage(all, lastId, limit);
    ids := RowIds(Page(After(IdKeys(InProjectIds(wheels, project)), ById(lastId)), limit));
  }

  /** What the campaign leaves, read off the rows. */
  lemma ProjectRows(before: DB, db: DB, project: string)
    requires Handled(before, db, Matching(before, InProject(project)), None)
    ensures forall id :: id in before.wheels ==>
              if before.wheels[id].project == project && before.wheels[id].state != DELETED
              then PutBack(before, db, id) else LeftAlone(before, db, id)
    ensures PreviewOf(before, InProject(project)).wheelCount
         == |set id | id in before.wheels && before.wheels[id].project == project && before.wheels[id].state != DELETED|
    ensures db.wheels.Keys == before.wheels.Keys && db.skips == before.skips
  {
    HandledRows(before, db, InProjectIds(before.wheels, project), None);
    assert InProjectIds(before.wheels, project) ==
        set id | id in before.wheels && before.wheels[id].project == project && before.wheels[id].state != DELETED;
  }

  /** `_project_chunks`: ascending ids. Row ids are positive. */
  method ProjectChunks(before: DB, start: nat, project: string, chunkSize: nat, clock: nat -> Time)
    returns (db: DB, ctr: nat, total: nat)
    requires chunkSize >= 1 && forall id :: id in before.wheels ==> id > 0
    ensures Handled(before, db, Matching(before, InProject(project)), None)
    ensures total == PreviewOf(before, InProject(project)).wheelCount && ctr == start + total
  {
    var lastId := 0;
    ghost var all, done: set<int> := InProjectIds(before.wheels, project), {};
    db, ctr, total := before, start, 0;
    NothingDone(before, None);
    while true
      invariant ProjectUnderway(before, db, all, lastId, done, total) && ctr == start + total
      decreases |all - done|
    {
      ProjectIdsStay(before.wheels, db.wheels, done, project);
      var ids := ProjectPage(db.wheels, project, lastId, chunkSize, all);
      if ids == [] {
        assert all - done == {};
        break;
      }
      var now := clock(ctr);
      ProjectChunk(before, db, ctr, all, lastId, done, total, ids, chunkSize, now);
      done := done + Members(ids);
      var r := ReprocessChunk(db, ctr, ids, None, now);
      db, ctr, total := r.db, r.ctr, total + r.reply.n;
      if |ids| < chunkSize {
        break;
      }
      lastId := ids[|ids| - 1];
    }
    ProjectEnds(before, db, project, all, done, total);
  }

  /** `reprocess` with a project selector: exactly the project's wheels that are not DELETED are put back,
      and the total is their number, as the preview says. */
  method ReprocessProject(before: DB, start: nat, project: string, chunkSize: nat, clock: nat -> Time)
    returns (db: DB, ctr: nat, total: nat)
    requires chunkSize >= 1 && forall id :: id in before.wheels ==> id > 0
    ensures Handled(before, db, Matching(before, InProject(project)), None)
    ensures total == PreviewOf(before, InProject(project)).wheelCount && ctr == start + total
    ensures forall id :: id in before.wheels ==>
              if before.wheels[id].project == project && before.wheels[id].state != DELETED
              then PutBack(before, db, id) else LeftAlone(before, db, id)
    ensures total
         == |set id | id in before.wheels && before.wheels[id].project == project && before.wheels[id].state != DELETED|
    ensures db.wheels.Keys == before.wheels.Keys && db.skips == before.skips
  {
    db, ctr, total := ProjectChunks(before, start, project, chunkSize, clock);
    ProjectRows(before, db, project);
  }
}
