/** `dispatcher.py`: the campaign for one wheel state, paged by (lane, project, id) while the chunks
    move rows to lane 1 of NEED_CONVERT. */
module StateCampaign {
  import opened Prelude
  import opened Ordering
  import opened Schema
  import opened WriteOps
  import opened Reprocess
  import Dispatch

  function StateKeys(wheels: Wheels, state: WheelState): set<Key> {
    set id | id in InStateIds(wheels, state) :: Dispatch.KeyOf(id, wheels[id])
  }

  /** Where a reprocessed row ends up. */
  function Rekey(k: Key): Key { Key(1, k.project, k.id) }

  function Moved(keys: set<Key>): set<Key> { set k | k in keys :: Rekey(k) }

  function Low(keys: set<Key>): set<Key> { set k | k in keys && k.lane < 1 }

  function Reseen(keys: set<Key>, last: Key): set<Key> { After(Moved(keys), last) }

  lemma StateKeysOf(wheels: Wheels, state: WheelState)
    ensures OneKeyPerId(StateKeys(wheels, state))
    ensures Dispatch.IdSet(StateKeys(wheels, state)) == InStateIds(wheels, state)
    ensures |StateKeys(wheels, state)| == |InStateIds(wheels, state)|
  {
    forall id | id in InStateIds(wheels, state) ensures id in Dispatch.IdSet(StateKeys(wheels, state)) {
      var k := Dispatch.KeyOf(id, wheels[id]);
      assert k in StateKeys(wheels, state) && k.id == id;
    }
    IdSetSize(StateKeys(wheels, state));
  }

  lemma {:induction false} IdSetSize(keys: set<Key>)
    requires OneKeyPerId(keys)
    ensures |Dispatch.IdSet(keys)| == |keys|
    decreases |keys|
  {
    if keys != {} {
      var k :| k in keys;
      IdSetSize(keys - {k});
      assert Dispatch.IdSet(keys) == Dispatch.IdSet(keys - {k}) + {k.id};
    }
  }

  /** A chunk takes its rows out of the state, or moves them within NEED_CONVERT. */
  lemma KeysAfter(wheels: Wheels, wheels': Wheels, state: WheelState, page: set<Key>)
    requires WheelsDone(wheels, wheels', Dispatch.IdSet(page)) && page <= StateKeys(wheels, state)
    ensures StateKeys(wheels', state) == (StateKeys(wheels,
                                                    state) - page) + (if state == NEED_CONVERT then Moved(page) else {})
  {
    var keys, keys' := StateKeys(wheels, state), StateKeys(wheels', state);
    forall k | k in keys' ensures k in keys - page || (state == NEED_CONVERT && k in Moved(page)) {
      if k.id in Dispatch.IdSet(page) {
        var was :| was in page && was.id == k.id;
        assert k == Rekey(was);
      }
    }
    forall k | k in page && state == NEED_CONVERT ensures Rekey(k) in keys' {
      assert Dispatch.KeyOf(k.id, wheels'[k.id]) == Rekey(k);
      assert k.id in InStateIds(wheels', state);
    }
    forall k | k in keys - page ensures k in keys' {
      assert Dispatch.KeyOf(k.id, wheels'[k.id]) == k;
      assert k.id in InStateIds(wheels', state);
    }
    if state != NEED_CONVERT {
      forall k | k in keys' ensures k in keys - page {
      }
    }
  }

  // --------------------------------------------------------------- one page

  /** A page of the rows to come: the whole of them, or all up to its last row. */
  ghost predicate IsKeyPage(todo: set<Key>, limit: nat, rows: seq<Key>) {
    && |rows| <= limit && Distinct(RowIds(rows)) && Members(RowIds(rows)) == Dispatch.IdSet(Elements(rows))
    && Elements(rows) <= todo && |Elements(rows)| == |rows|
    && (|rows| < limit ==> Elements(rows) == todo)
    && (|rows| == limit > 0 ==>
          rows[limit - 1] in Elements(rows) && After(todo, rows[limit - 1]) == todo - Elements(rows))
  }

  lemma PageRows(todo: set<Key>, limit: nat)
    requires OneKeyPerId(todo)
    ensures var rows := Page(todo, limit);
            && |rows| <= limit && Distinct(RowIds(rows)) && Members(RowIds(rows)) == Dispatch.IdSet(Elements(rows))
            && Elements(rows) <= todo && |Elements(rows)| == |rows|
  {
    var rows := Page(todo, limit);
    PageElements(todo, limit);
    PageAscending(todo, limit);
    PageSize(todo, limit);
    RowIdsOf(rows);
    MembersCount(RowIds(rows));
    IdSetSize(Elements(rows));
  }

  lemma PageEnd(todo: set<Key>, limit: nat)
    ensures var rows := Page(todo, limit);
            && (|rows| < limit ==> Elements(rows) == todo)
            && (|rows| == limit > 0 ==>
                  rows[limit - 1] in Elements(rows) && After(todo, rows[limit - 1]) == todo - Elements(rows))
  {
    var rows := Page(todo, limit);
    PageElements(todo, limit);
    PageSize(todo, limit);
    if |rows| < limit {
      PageWhole(todo, limit);
    } else if limit > 0 {
      ScanSplits(todo, limit);
      LastInPage(rows);
    }
  }

  lemma PageIsKeyPage(todo: set<Key>, limit: nat)
    requires OneKeyPerId(todo)
    ensures IsKeyPage(todo, limit, Page(todo, limit))
  {
    PageRows(todo, limit);
    PageEnd(todo, limit);
  }

  /** The rows past the cursor after a full page. */
  function NextTodo(todo: set<Key>, page: set<Key>, last: Key, state: WheelState): set<Key> {
    (todo - page) + (if state == NEED_CONVERT then Reseen(page, last) else {})
  }

  lemma TodoAfter(keys: set<Key>, keys': set<Key>, cursor: Option<Key>, page: set<Key>, last: Key, state: WheelState)
    requires page <= Past(keys, cursor) && last in page
    requires After(Past(keys, cursor), last) == Past(keys, cursor) - page
    requires keys' == (keys - page) + (if state == NEED_CONVERT then Moved(page) else {})
    ensures After(keys', last) == NextTodo(Past(keys, cursor), page, last, state)
  {
    PastTransitive(keys, cursor, last);
  }

  /** Every row passed over twice was in a lane below 1. */
  lemma ReseenAreLow(page: set<Key>, last: Key)
    requires forall k :: k in page ==> !Less(last, k)
    ensures Reseen(page, last) == Reseen(Low(page), last)
  {
    forall k | k in page && Less(last, Rekey(k)) ensures k in Low(page) {
    }
    forall x | x in Reseen(page, last) ensures x in Reseen(Low(page), last) {
      var k :| k in page && x == Rekey(k);
    }
  }

  lemma {:induction false} MovedSize(keys: set<Key>)
    ensures |Moved(keys)| <= |keys|
    decreases |keys|
  {
    if keys != {} {
      var k :| k in keys;
      MovedSize(keys - {k});
      assert Moved(keys) == Moved(keys - {k}) + {Rekey(k)};
    }
  }

  lemma SubsetSize(a: set<Key>, b: set<Key>)
    requires a <= b
    ensures |a| <= |b|
  {
    assert a + (b - a) == b;
  }

  /** Rows still to come, those that may come twice counted twice. */
  function Weight(todo: set<Key>): nat { |todo| + |Low(todo)| }

  lemma Partition(whole: set<Key>, part: set<Key>)
    requires part <= whole
    ensures |whole| == |whole - part| + |part|
  {
    assert whole == (whole - part) + part;
  }

  lemma UnionSize(a: set<Key>, b: set<Key>)
    ensures |a + b| <= |a| + |b|
  {
    assert a + b == a + (b - a);
    SubsetSize(b - a, b);
  }

  lemma ReseenSize(page: set<Key>, last: Key)
    requires forall k :: k in page ==> !Less(last, k)
    ensures |Reseen(page, last)| <= |Low(page)| && Low(Reseen(page, last)) == {}
  {
    ReseenAreLow(page, last);
    SubsetSize(Reseen(page, last), Moved(Low(page)));
    MovedSize(Low(page));
  }

  lemma NextTodoLighter(todo: set<Key>, page: set<Key>, last: Key, state: WheelState)
    requires page <= todo && last in page && After(todo, last) == todo - page
    ensures Weight(NextTodo(todo, page, last, state)) < Weight(todo)
  {
    var next, rest, again := NextTodo(todo, page, last, state), todo - page, Reseen(page, last);
    ReseenSize(page, last);
    UnionSize(rest, again);
    assert Low(next) == Low(rest);
    Partition(todo, page);
    Partition(Low(todo), Low(page));
    assert Low(todo) - Low(page) == Low(rest);
    SubsetSize({last}, page);
  }

  /** A full page takes its rows off the list, and each row seen again puts one back. */
  lemma NextTodoSize(todo: set<Key>, page: set<Key>, last: Key, state: WheelState)
    requires page <= todo && OneKeyPerId(todo)
    ensures var next := NextTodo(todo, page, last, state);
            |next| >= |todo| - |page|
            && (state == NEED_CONVERT && Reseen(page, last) != {} ==> |next| > |todo| - |page|)
  {
    var rest, again := todo - page, Reseen(page, last);
    assert todo == rest + page;
    forall x | x in again ensures x !in rest {
      var k :| k in page && x == Rekey(k);
    }
    assert |rest + again| == |rest| + |again|;
  }

  // ---------------------------------------------------------- the exact condition

  ghost predicate NoneReseen(keys: set<Key>, last: Key) {
    forall k :: k in keys && k.lane < 1 ==> !Less(last, Rekey(k))
  }

  /** When the campaign counts each wheel once: always outside NEED_CONVERT; there, if one page holds
      them all, or if no row below lane 1 lands past the end of the first page. */
  ghost predicate CountsOnce(wheels: Wheels, state: WheelState, limit: nat)
    requires limit >= 1
  {
    var keys := StateKeys(wheels, state);
    PageSize(keys, limit);
    state == NEED_CONVERT && |keys| >= limit ==> NoneReseen(keys, Page(keys, limit)[limit - 1])
  }

  /** If none lands past the first page, the first page held every low row. */
  lemma FirstPage(keys: set<Key>, page: set<Key>, last: Key)
    requires page <= keys && last in page && After(keys, last) == keys - page
    ensures NoneReseen(keys, last) ==> Reseen(page, last) == {} && Low(keys - page) == {}
    ensures !NoneReseen(keys, last) ==> Reseen(page, last) != {}
  {
    ReseenAreLow(page, last);
    if NoneReseen(keys, last) {
      forall k | k in keys - page ensures k.lane >= 1 {
        assert Less(last, k);
      }
    } else {
      var k :| k in keys && k.lane < 1 && Less(last, Rekey(k));
      if k in page {
        assert Rekey(k) in Reseen(page, last);
      } else {
        assert k in After(keys, last);
        assert last.lane < 1;
        assert Rekey(last) in Reseen(page, last);
      }
    }
  }

  // ------------------------------------------------------------- the campaign

  /** What holds whether or not rows come twice. */
  ghost predicate Covering(before: DB, db: DB, all: set<int>, todo: set<Key>, done: set<int>) {
    && OneKeyPerId(todo) && Dispatch.IdSet(todo) <= all
    && Handled(before, db, done, None) && done <= all && all - done <= Dispatch.IdSet(todo)
  }

  /** The count so far: exact, or already too high. */
  ghost predicate Counting(all: set<int>, state: WheelState, started: bool, exact: bool, todo: set<Key>,
                           done: set<int>, total: nat) {
    if exact
    then total == |done| && Dispatch.IdSet(todo) !! done && (state == NEED_CONVERT && started ==> Low(todo) == {})
    else total + |todo| >= |all| + (if started then 1 else 0)
  }

  /** A page's chunk, seen from the tables. */
  lemma ChunkCovers(before: DB, db: DB, ctr: nat, all: set<int>, todo: set<Key>, done: set<int>, rows: seq<Key>,
                    limit: nat, now: Time)
    requires Covering(before, db, all, todo, done) && all <= before.wheels.Keys && IsKeyPage(todo, limit, rows)
    ensures var r := ReprocessChunk(db, ctr, RowIds(rows), None, now);
            && r.reply.n == |rows| && WheelsDone(db.wheels, r.db.wheels, Dispatch.IdSet(Elements(rows)))
            && Handled(before, r.db, done + Dispatch.IdSet(Elements(rows)), None)
  {
    var ids := RowIds(rows);
    forall i | 0 <= i < |ids| ensures ids[i] in db.wheels {
      assert ids[i] in Members(ids);
    }
    CountAll(db.wheels, ids);
    ChunkDone(before, db, done, ids, ctr, None, now);
    NothingDone(db, None);
    ChunkDone(db, db, {}, ids, ctr, None, now);
    assert {} + Members(ids) == Members(ids);
  }

  lemma StateStep(before: DB, db: DB, ctr: nat, state: WheelState, cursor: Option<Key>, rows: seq<Key>, limit: nat,
                  now: Time)
    requires IsKeyPage(Past(StateKeys(db.wheels, state), cursor), limit, rows) && |rows| == limit >= 1
    requires WheelsDone(db.wheels, ReprocessChunk(db, ctr, RowIds(rows), None, now).db.wheels,
                        Dispatch.IdSet(Elements(rows)))
    ensures var todo := Past(StateKeys(db.wheels, state), cursor);
            var next := After(StateKeys(ReprocessChunk(db, ctr, RowIds(rows), None, now).db.wheels, state),
                              rows[limit - 1]);
            next == NextTodo(todo, Elements(rows), rows[limit - 1], state)
  {
    var keys := StateKeys(db.wheels, state);
    var wheels' := ReprocessChunk(db, ctr, RowIds(rows), None, now).db.wheels;
    KeysAfter(db.wheels, wheels', state, Elements(rows));
    TodoAfter(keys, StateKeys(wheels', state), cursor, Elements(rows), rows[limit - 1], state);
  }

  lemma CoverStep(all: set<int>, todo: set<Key>, done: set<int>, page: set<Key>, last: Key, state: WheelState)
    requires OneKeyPerId(todo) && Dispatch.IdSet(todo) <= all && done <= all && all - done <= Dispatch.IdSet(todo)
    requires page <= todo
    ensures var next := NextTodo(todo, page, last, state);
            var done' := done + Dispatch.IdSet(page);
            OneKeyPerId(next) && Dispatch.IdSet(next) <= all && done' <= all && all - done' <= Dispatch.IdSet(next)
  {
    var next := NextTodo(todo, page, last, state);
    forall k | k in next ensures k in todo - page || (exists was :: was in page && k == Rekey(was)) {
    }
    forall id | id in all - (done + Dispatch.IdSet(page)) ensures id in Dispatch.IdSet(next) {
      assert id in Dispatch.IdSet(todo);
      var k :| k in todo && k.id == id;
      assert k in next;
    }
  }

  lemma CountStep(all: set<int>, state: WheelState, started: bool, exact: bool, todo: set<Key>, done: set<int>,
                  total: nat, page: set<Key>, last: Key)
    requires Counting(all, state, started, exact, todo, done, total) && OneKeyPerId(todo)
    requires page <= todo && last in page && After(todo, last) == todo - page
    requires state == NEED_CONVERT && !started ==> (exact <==> NoneReseen(todo, last))
    requires state != NEED_CONVERT ==> exact
    ensures Counting(all, state, true, exact, NextTodo(todo, page, last, state),
                     done + Dispatch.IdSet(page), total + |page|)
  {
    NextTodoSize(todo, page, last, state);
    assert OneKeyPerId(page);
    IdSetSize(page);
    if exact {
      assert Dispatch.IdSet(page) !! done;
      assert |done + Dispatch.IdSet(page)| == |done| + |page|;
      if state == NEED_CONVERT {
        if started {
          ReseenAreLow(page, last);
          assert Low(page) == {};
        } else {
          FirstPage(todo, page, last);
        }
        assert Reseen(page, last) == {};
      }
      assert NextTodo(todo, page, last, state) == todo - page;
    } else if !started {
      FirstPage(todo, page, last);
    }
  }

  ghost predicate StateUnderway(before: DB, db: DB, state: WheelState, cursor: Option<Key>, exact: bool,
                                todo: set<Key>, done: set<int>, total: nat) {
    && todo == Past(StateKeys(db.wheels, state), cursor)
    && Covering(before, db, InStateIds(before.wheels, state), todo, done)
    && Counting(InStateIds(before.wheels, state), state, cursor.Some?, exact, todo, done, total)
    && (cursor.None? ==> todo == StateKeys(before.wheels, state))
  }

  /** The first page decides whether rows will come twice. */
  ghost predicate Decides(state: WheelState, cursor: Option<Key>, exact: bool, todo: set<Key>, limit: nat,
                          rows: seq<Key>) {
    && (state != NEED_CONVERT ==> exact)
    && (cursor.None? && |rows| < limit ==> exact)
    && (cursor.None? && |rows| == limit > 0 && state == NEED_CONVERT ==> (exact <==> NoneReseen(todo, rows[limit - 1])))
  }

  lemma FullPage(before: DB, db: DB, ctr: nat, state: WheelState, cursor: Option<Key>, exact: bool, todo: set<Key>,
                 done: set<int>, total: nat,
                 rows: seq<Key>, limit: nat, now: Time)
    requires StateUnderway(before, db, state, cursor, exact, todo, done, total)
    requires Decides(state, cursor, exact, todo, limit, rows)
    requires IsKeyPage(todo, limit, rows) && |rows| == limit >= 1
    ensures var r := ReprocessChunk(db, ctr, RowIds(rows), None, now);
            var next := NextTodo(todo, Elements(rows), rows[limit - 1], state);
            && r.reply.n == |rows| && Weight(next) < Weight(todo)
            && StateUnderway(before, r.db, state, Some(rows[limit - 1]), exact, next,
                             done + Dispatch.IdSet(Elements(rows)), total + r.reply.n)
  {
    var all, page, last := InStateIds(before.wheels, state), Elements(rows), rows[limit - 1];
    ChunkCovers(before, db, ctr, all, todo, done, rows, limit, now);
    StateStep(before, db, ctr, state, cursor, rows, limit, now);
    CoverStep(all, todo, done, page, last, state);
    CountStep(all, state, cursor.Some?, exact, todo, done, total, page, last);
    NextTodoLighter(todo, page, last, state);
  }

  lemma ShortPage(before: DB, db: DB, ctr: nat, state: WheelState, cursor: Option<Key>, exact: bool, todo: set<Key>,
                  done: set<int>, total: nat,
                  rows: seq<Key>, limit: nat, now: Time)
    requires StateUnderway(before, db, state, cursor, exact, todo, done, total)
    requires Decides(state, cursor, exact, todo, limit, rows)
    requires IsKeyPage(todo, limit, rows) && |rows| < limit
    ensures var r := ReprocessChunk(db, ctr, RowIds(rows), None, now);
            var all := InStateIds(before.wheels, state);
            && r.reply.n == |rows| && Handled(before, r.db, all, None)
            && total + |rows| >= |all| && (total + |rows| == |all| <==> exact)
            && (rows == [] ==> Handled(before, db, all, None))
  {
    var all, page := InStateIds(before.wheels, state), Elements(rows);
    ChunkCovers(before, db, ctr, all, todo, done, rows, limit, now);
    assert done + Dispatch.IdSet(page) == all;
    IdSetSize(todo);
    if exact {
      assert |done + Dispatch.IdSet(page)| == |done| + |todo|;
    }
    if rows == [] {
      assert done == all;
    }
  }

  /** `_state_chunk_query`. */
  method StatePage(wheels: Wheels, state: WheelState, cursor: Option<Key>, limit: nat, ghost before: Wheels,
                   ghost todo: set<Key>) returns (rows: seq<Key>)
    requires limit >= 1 && todo == Past(StateKeys(wheels, state), cursor) && OneKeyPerId(todo)
    requires cursor.None? ==> todo == StateKeys(before, state)
    ensures IsKeyPage(todo, limit, rows) && Decides(state, cursor, CountsOnce(before, state, limit), todo, limit, rows)
  {
    PageIsKeyPage(todo, limit);
    PageSize(todo, limit);
    rows := Page(Past(StateKeys(wheels, state), cursor), limit);
  }

  /** Every matching wheel is handled, and the total is their number if and only if `exact`. */
  ghost predicate StateFinished(before: DB, db: DB, state: WheelState, exact: bool, total: nat) {
    && Handled(before, db, InStateIds(before.wheels, state), None)
    && total >= |InStateIds(before.wheels, state)| && (total == |InStateIds(before.wheels, state)| <==> exact)
  }

  /** One chunk of `_state_chunks`: read a page, apply it, and go on unless it was short. */
  method StateChunk(ghost before: DB, db: DB, ctr: nat, state: WheelState, cursor: Option<Key>, limit: nat, now: Time,
                    ghost exact: bool, ghost todo: set<Key>, ghost done: set<int>, ghost total: nat)
    returns (db': DB, ctr': nat, updated: nat, cursor': Option<Key>, more: bool, ghost todo': set<Key>,
             ghost done': set<int>)
    requires limit >= 1 && exact == CountsOnce(before.wheels, state, limit)
    requires StateUnderway(before, db, state, cursor, exact, todo, done, total)
    ensures ctr' == ctr + updated
    ensures more ==>
          StateUnderway(before, db', state, cursor', exact, todo', done', total + updated)
          && Weight(todo') < Weight(todo)
    ensures !more ==> StateFinished(before, db', state, exact, total + updated)
  {
    var rows := StatePage(db.wheels, state, cursor, limit, before.wheels, todo);
    var r := ReprocessChunk(db, ctr, RowIds(rows), None, now);
    todo', done', cursor', more := todo, done, cursor, |rows| == limit;
    if more {
      FullPage(before, db, ctr, state, cursor, exact, todo, done, total, rows, limit, now);
      cursor' := Some(rows[limit - 1]);
      todo' := NextTodo(todo, Elements(rows), rows[limit - 1], state);
      done' := done + Dispatch.IdSet(Elements(rows));
    } else {
      ShortPage(before, db, ctr, state, cursor, exact, todo, done, total, rows, limit, now);
    }
    if rows == [] {
      db', ctr', updated := db, ctr, 0;
    } else {
      db', ctr', updated := r.db, r.ctr, r.reply.n;
    }
  }

  /** What the campaign leaves, read off the rows. */
  lemma StateRows(before: DB, db: DB, state: WheelState)
    requires Handled(before, db, Matching(before, InState(state)), None)
    ensures forall id :: id in before.wheels ==>
              if before.wheels[id].state == state && state != DELETED
              then PutBack(before, db, id) else LeftAlone(before, db, id)
    ensures PreviewOf(before, InState(state)).wheelCount
         == |set id | id in before.wheels && before.wheels[id].state == state && state != DELETED|
    ensures db.wheels.Keys == before.wheels.Keys && db.skips == before.skips
  {
    HandledRows(before, db, InStateIds(before.wheels, state), None);
    assert InStateIds(before.wheels, state) ==
        set id | id in before.wheels && before.wheels[id].state == state && state != DELETED;
  }

  /** `_state_chunks`: pages past the cursor until a short one. */
  method StateChunks(before: DB, start: nat, state: WheelState, chunkSize: nat, clock: nat -> Time)
    returns (db: DB, ctr: nat, total: nat)
    requires chunkSize >= 1
    ensures StateFinished(before, db, state, CountsOnce(before.wheels, state, chunkSize), total) && ctr == start + total
  {
    var cursor: Option<Key>, more := None, true;
    ghost var exact, todo, done := CountsOnce(before.wheels, state, chunkSize), StateKeys(before.wheels, state), {};
    db, ctr, total := before, start, 0;
    NothingDone(before, None);
    StateKeysOf(before.wheels, state);
    while more
      invariant more ==> StateUnderway(before, db, state, cursor, exact, todo, done, total)
      invariant !more ==> StateFinished(before, db, state, exact, total)
      invariant ctr == start + total
      decreases more, Weight(todo)
    {
      var updated;
      db, ctr, updated, cursor, more, todo, done :=
          StateChunk(before, db, ctr, state, cursor, chunkSize, clock(ctr), exact, todo, done, total);
      total := total + updated;
    }
  }

  /** `reprocess` with a state selector: exactly the wheels of that state are put back, DELETED matching
      none, and the total is the previewed count if and only if `CountsOnce`. `SkippedOnly` is this
      campaign for SKIPPED. */
  method ReprocessState(before: DB, start: nat, state: WheelState, chunkSize: nat, clock: nat -> Time)
    returns (db: DB, ctr: nat, total: nat)
    requires chunkSize >= 1
    ensures Handled(before, db, Matching(before, InState(state)), None)
    ensures total >= PreviewOf(before, InState(state)).wheelCount && ctr == start + total
    ensures total == PreviewOf(before, InState(state)).wheelCount <==> CountsOnce(before.wheels, state, chunkSize)
    ensures forall id :: id in before.wheels ==>
              if before.wheels[id].state == state && state != DELETED
              then PutBack(before, db, id) else LeftAlone(before, db, id)
    ensures total >= |set id | id in before.wheels && before.wheels[id].state == state && state != DELETED|
    ensures db.wheels.Keys == before.wheels.Keys && db.skips == before.skips
  {
    db, ctr, total := StateChunks(before, start, state, chunkSize, clock);
    StateRows(before, db, state);
  }

  /** `reprocess` with the skipped-only selector: exactly the SKIPPED wheels are put back, each counted once
      as the preview says. Their skips rows stay. */
  method ReprocessSkipped(before: DB, start: nat, chunkSize: nat, clock: nat -> Time)
    returns (db: DB, ctr: nat, total: nat)
    requires chunkSize >= 1
    ensures forall id :: id in before.wheels ==>
              if before.wheels[id].state == SKIPPED then PutBack(before, db, id) else LeftAlone(before, db, id)
    ensures total == |set id | id in before.wheels && before.wheels[id].state == SKIPPED|
    ensures total == PreviewOf(before, SkippedOnly).wheelCount && ctr == start + total && db.skips == before.skips
  {
    db, ctr, total := ReprocessState(before, start, SKIPPED, chunkSize, clock);
    StateRows(before, db, SKIPPED);
    assert (set id | id in before.wheels && before.wheels[id].state == SKIPPED && SKIPPED != DELETED)
        == set id | id in before.wheels && before.wheels[id].state == SKIPPED;
  }

  /** The page of one row past the cursor, and the chunk applied to it. */
  function OnePage(db: DB, cursor: Option<Key>): seq<Key> { Page(Past(StateKeys(db.wheels, NEED_CONVERT), cursor), 1) }

  function OneChunk(db: DB, ctr: nat, cursor: Option<Key>, now: Time): Applied {
    ReprocessChunk(db, ctr, RowIds(OnePage(db, cursor)), None, now)
  }

  lemma OnlyKey(wheels: Wheels, id: int, w: Wheel)
    requires wheels == map[id := w] && w.state == NEED_CONVERT
    ensures StateKeys(wheels, NEED_CONVERT) == {Dispatch.KeyOf(id, w)}
  {
    assert InStateIds(wheels, NEED_CONVERT) == {id};
  }

  /** A chunk of one page, on a table of one queued wheel the cursor has not passed. */
  lemma OneWheelChunk(db: DB, ctr: nat, cursor: Option<Key>, id: int, w: Wheel, now: Time)
    requires db.wheels == map[id := w] && w.state == NEED_CONVERT
    requires cursor.Some? ==> Less(cursor.value, Dispatch.KeyOf(id, w))
    ensures OnePage(db, cursor) == [Dispatch.KeyOf(id, w)]
    ensures OneChunk(db, ctr, cursor, now).db.wheels == map[id := Requeued(w, ctr + 1, now)]
    ensures OneChunk(db, ctr, cursor, now).reply == Count(1) && OneChunk(db, ctr, cursor, now).ctr == ctr + 1
  {
    var k := Dispatch.KeyOf(id, w);
    OnlyKey(db.wheels, id, w);
    assert Past({k}, cursor) == {k};
    assert Page({k}, 1)[0] == k;
    assert OnePage(db, cursor) == [k] && RowIds([k]) == [id] && [id][1..] == [];
    assert RequeueRows(db.wheels, [id], ctr, now) == db.wheels[id := Requeued(w, ctr + 1, now)];
    assert CountIn(db.wheels, [id]) == 1;
  }

  /** One fresh NEED_CONVERT wheel in lane 0 and a page of one: its new place in lane 1 is past the
      cursor, so the campaign updates it twice and reports two where the preview said one. The third
      page is empty. */
  lemma NeedConvertCountsTwice(db: DB, ctr: nat, id: int, w: Wheel, now: Time)
    requires db.wheels == map[id := w] && w.state == NEED_CONVERT && w.lane == 0
    ensures !CountsOnce(db.wheels, NEED_CONVERT, 1) && PreviewOf(db, InState(NEED_CONVERT)).wheelCount == 1
    ensures var k := Dispatch.KeyOf(id, w);
            var r1 := OneChunk(db, ctr, None, now);
            var r2 := OneChunk(r1.db, r1.ctr, Some(k), now);
            && OnePage(db, None) == [k] && OnePage(r1.db, Some(k)) == [Rekey(k)]
            && OnePage(r2.db, Some(Rekey(k))) == []
            && r1.reply == Count(1) && r2.reply == Count(1) && r2.db.wheels == map[id := Requeued(w, ctr + 2, now)]
  {
    var k := Dispatch.KeyOf(id, w);
    var w1, w2 := Requeued(w, ctr + 1, now), Requeued(w, ctr + 2, now);
    OnlyKey(db.wheels, id, w);
    assert InStateIds(db.wheels, NEED_CONVERT) == {id};
    OneWheelChunk(db, ctr, None, id, w, now);
    var r1 := OneChunk(db, ctr, None, now);
    OneWheelChunk(r1.db, ctr + 1, Some(k), id, w1, now);
    OnlyKey(map[id := w2], id, w2);
    LessIrreflexive(Rekey(k));
    assert After({Rekey(k)}, Rekey(k)) == {};
  }
}
