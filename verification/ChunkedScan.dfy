/** `fsck.py`: keyset-paginated reads that must agree with one plain scan. */
module ChunkedScan {
  import opened Prelude
  import opened Ordering
  import opened Schema

  // --------------------------------------------------------------- plain values

  /** The values of the rows, in the order of their cursors. */
  function Values<V>(table: map<Key, V>, rows: seq<Key>): seq<V>
    requires Elements(rows) <= table.Keys
  {
    if rows == [] then [] else [table[rows[0]]] + Values(table, rows[1..])
  }

  lemma {:induction false} ValuesAppend<V>(table: map<Key, V>, a: seq<Key>, b: seq<Key>)
    requires Elements(a) <= table.Keys && Elements(b) <= table.Keys
    ensures Elements(a + b) <= table.Keys && Values(table, a + b) == Values(table, a) + Values(table, b)
    decreases |a|
  {
    ElementsAppend(a, b);
    if a == [] {
      assert a + b == b;
    } else {
      assert (a + b)[1..] == a[1..] + b;
      ValuesAppend(table, a[1..], b);
    }
  }

  /** SELECT value FROM (...) ORDER BY cursor_rowid, unpaginated. */
  function WholeScan<V>(table: map<Key, V>): seq<V> {
    SortedIsTable(table.Keys);
    Values(table, Sorted(table.Keys))
  }

  /** `txns` is max(1, ceil(n / chunk)). */
  predicate IsReadCount(n: nat, chunk: nat, txns: nat) {
    txns >= 1 && n <= txns * chunk && (txns == 1 || (txns - 1) * chunk < n)
  }

  // ------------------------------------------------------------------- one page

  /** An over-fetched page: if it is longer than the chunk there is more, and its first part is the
      chunk; otherwise it is all that is left. */
  lemma OverFetch(keys: set<Key>, cursor: Option<Key>, chunk: nat)
    requires chunk >= 1
    ensures var todo := Past(keys, cursor);
            var rows := Page(todo, chunk + 1);
            && (|rows| <= chunk ==> rows == Sorted(todo) && |rows| == |todo|)
            && (|rows| > chunk ==>
                 && Sorted(todo) == rows[..chunk] + Sorted(After(keys, rows[chunk - 1]))
                 && rows[..chunk] == Page(todo, chunk)
                 && Past(keys, Some(rows[chunk - 1])) == todo - Elements(rows[..chunk])
                 && |todo| == chunk + |After(keys, rows[chunk - 1])| && After(keys, rows[chunk - 1]) != {})
  {
    var todo := Past(keys, cursor);
    var rows := Page(todo, chunk + 1);
    PageSize(todo, chunk + 1);
    if |rows| <= chunk {
      PageWhole(todo, chunk + 1);
    } else {
      PageSplit(todo, chunk, 1);
      PageSize(todo, chunk);
      assert rows[..chunk] == Page(todo, chunk);
      FullPage(keys, cursor, chunk);
    }
  }

  /** A full page leaves the rest past its last row. */
  lemma FullPage(keys: set<Key>, cursor: Option<Key>, chunk: nat)
    requires 1 <= chunk < |Past(keys, cursor)|
    ensures var todo := Past(keys, cursor);
            var page := Page(todo, chunk);
            && |page| == chunk
            && After(keys, page[chunk - 1]) == todo - Elements(page)
            && Sorted(todo) == page + Sorted(After(keys, page[chunk - 1]))
            && |todo| == chunk + |After(keys, page[chunk - 1])| && After(keys, page[chunk - 1]) != {}
  {
    var todo := Past(keys, cursor);
    var page := Page(todo, chunk);
    ScanSplits(todo, chunk);
    LastInPage(page);
    PageElements(todo, chunk);
    PastTransitive(keys, cursor, page[chunk - 1]);
  }

  lemma PageInTable<V>(table: map<Key, V>, cursor: Option<Key>, limit: nat)
    ensures Elements(Page(Past(table.Keys, cursor), limit)) <= table.Keys
  {
    PageElements(Past(table.Keys, cursor), limit);
  }

  /** What is still to be yielded. */
  function RestOfScan<V>(table: map<Key, V>, cursor: Option<Key>): seq<V> {
    SortedIsTable(Past(table.Keys, cursor));
    Values(table, Sorted(Past(table.Keys, cursor)))
  }

  lemma ScanPage<V>(table: map<Key, V>, cursor: Option<Key>, chunk: nat)
    requires chunk >= 1
    ensures var rows := Page(Past(table.Keys, cursor), chunk + 1);
            && Elements(rows) <= table.Keys
            && (|rows| <= chunk ==> RestOfScan(table, cursor) == Values(table, rows))
            && (|rows| > chunk ==>
                 && Elements(rows[..chunk]) <= table.Keys
                 && RestOfScan(table, cursor) == Values(table, rows[..chunk])
                    + RestOfScan(table, Some(rows[chunk - 1])))
  {
    var todo := Past(table.Keys, cursor);
    var rows := Page(todo, chunk + 1);
    OverFetch(table.Keys, cursor, chunk);
    PageInTable(table, cursor, chunk + 1);
    if |rows| > chunk {
      PageInTable(table, cursor, chunk);
      SortedIsTable(After(table.Keys, rows[chunk - 1]));
      ValuesAppend(table, rows[..chunk], Sorted(After(table.Keys, rows[chunk - 1])));
    }
  }

  /** One read transaction: a chunk of values, and where to go on. */
  method ReadChunk<V>(table: map<Key, V>, cursor: Option<Key>, chunk: nat) returns (values: seq<V>, next: Option<Key>)
    requires chunk >= 1
    ensures next.None? ==> RestOfScan(table, cursor) == values && |Past(table.Keys, cursor)| <= chunk
    ensures next.Some? ==> RestOfScan(table, cursor) == values + RestOfScan(table, next)
    ensures next.Some? ==> |Past(table.Keys, cursor)| == chunk + |Past(table.Keys, next)|
                               && |Past(table.Keys, next)| > 0
  {
    ScanPage(table, cursor, chunk);
    OverFetch(table.Keys, cursor, chunk);
    var rows := Page(Past(table.Keys, cursor), chunk + 1);
    if |rows| <= chunk {
      values, next := Values(table, rows), None;
    } else {
      values, next := Values(table, rows[..chunk]), Some(rows[chunk - 1]);
      NonEmptySize(After(table.Keys, rows[chunk - 1]));
    }
  }

  lemma NonEmptySize(s: set<Key>)
    requires s != {}
    ensures |s| > 0
  {
  }

  lemma ReadCount(n: nat, chunk: nat, txns: nat, left: nat)
    requires chunk >= 1 && n == txns * chunk + left && left <= chunk && (txns > 0 ==> left > 0)
    ensures IsReadCount(n, chunk, txns + 1)
  {
    assert (txns + 1) * chunk == txns * chunk + chunk;
  }

  lemma OneMoreRead(txns: nat, chunk: nat)
    ensures (txns + 1) * chunk == txns * chunk + chunk
  {
  }

  /** `_chunked_scan`: every row once, in cursor order, with no read beyond those needed. */
  method Scan<V>(table: map<Key, V>, chunk: nat) returns (values: seq<V>, txns: nat)
    requires chunk >= 1
    ensures values == WholeScan(table)
    ensures IsReadCount(|table|, chunk, txns)
  {
    var cursor: Option<Key> := None;
    values, txns := [], 0;
    ghost var left := |Past(table.Keys, cursor)|;
    assert left == |table|;
    while true
      invariant values + RestOfScan(table, cursor) == WholeScan(table)
      invariant left == |Past(table.Keys, cursor)| && |table| == txns * chunk + left
      invariant txns > 0 ==> left > 0
      decreases left
    {
      var page, next := ReadChunk(table, cursor, chunk);
      values := values + page;
      if next.None? {
        ReadCount(|table|, chunk, txns, left);
        txns := txns + 1;
        return;
      }
      OneMoreRead(txns, chunk);
      cursor, txns, left := next, txns + 1, |Past(table.Keys, next)|;
    }
  }

  // ------------------------------------------------- duplicate sequence numbers

  function Group(wheels: Wheels, n: nat): set<int> { set id | id in wheels && wheels[id].changeSeq == n }

  function Stamps(wheels: Wheels, n: nat): set<Time> { set id | id in Group(wheels, n) :: wheels[id].updatedAt }

  /** HAVING COUNT(*) > 1 AND COUNT(DISTINCT updated_at) > 1. */
  predicate Conflicting(wheels: Wheels, n: nat) {
    |Group(wheels, n)| > 1 && |Stamps(wheels, n)| > 1
  }

  /** The rows a single GROUP BY over the whole table would count. */
  function Violating(wheels: Wheels): set<int> {
    set id | id in wheels && Conflicting(wheels, wheels[id].changeSeq)
  }

  predicate SharesNumber(wheels: Wheels, id: int, j: int)
    requires id in wheels
  {
    j in wheels && wheels[j].changeSeq == wheels[id].changeSeq && wheels[j].updatedAt != wheels[id].updatedAt
  }

  /** Said without counting: another row has the number with a different timestamp. */
  lemma ViolatingIff(wheels: Wheels, id: int)
    ensures id in Violating(wheels) <==>
            id in wheels && exists j :: SharesNumber(wheels, id, j)
  {
    if id in wheels {
      var n, at := wheels[id].changeSeq, wheels[id].updatedAt;
      if j :| SharesNumber(wheels, id, j) {
        TwoMembers(Group(wheels, n), id, j);
        TwoStamps(Stamps(wheels, n), at, wheels[j].updatedAt);
      } else {
        forall j | j in Group(wheels, n) ensures wheels[j].updatedAt == at {
          assert !SharesNumber(wheels, id, j);
        }
        assert Stamps(wheels, n) <= {at};
        OneStamp(Stamps(wheels, n), at);
      }
    }
  }

  lemma TwoMembers(s: set<int>, a: int, b: int)
    requires a in s && b in s && a != b
    ensures |s| > 1
  {
    assert s == {a, b} + (s - {a, b});
  }

  lemma TwoStamps(s: set<Time>, a: Time, b: Time)
    requires a in s && b in s && a != b
    ensures |s| > 1
  {
    assert s == {a, b} + (s - {a, b});
  }

  lemma OneStamp(s: set<Time>, a: Time)
    requires s <= {a}
    ensures |s| <= 1
  {
    assert s == {} || s == {a};
  }

  function SeqKeys(wheels: Wheels): set<Key> { set id | id in wheels :: ById(wheels[id].changeSeq) }

  /** The violating rows whose number lies in a window. */
  function ViolatingIn(wheels: Wheels, lo: int, hi: int): set<int> {
    set id | id in Violating(wheels) && lo <= wheels[id].changeSeq <= hi
  }

  function ConflictsIn(wheels: Wheels, lo: int, hi: int): set<nat> {
    set id | id in ViolatingIn(wheels, lo, hi) :: wheels[id].changeSeq
  }

  /** The loop over the groups of one window. */
  method CountWindow(wheels: Wheels, lo: int, hi: int) returns (count: nat)
    ensures count == |ViolatingIn(wheels, lo, hi)|
  {
    var groups := ConflictsIn(wheels, lo, hi);
    ghost var counted: set<int> := {};
    count := 0;
    forall id | id in ViolatingIn(wheels, lo, hi) ensures wheels[id].changeSeq in groups {
    }
    while groups != {}
      invariant groups <= ConflictsIn(wheels, lo, hi)
      invariant counted == set id | id in ViolatingIn(wheels, lo, hi) && wheels[id].changeSeq !in groups
      invariant count == |counted|
      decreases |groups|
    {
      var n :| n in groups;
      assert counted !! Group(wheels, n);
      assert |counted + Group(wheels, n)| == |counted| + |Group(wheels, n)|;
      count := count + |Group(wheels, n)|;
      groups := groups - {n};
      forall id | id in Group(wheels, n) ensures id in ViolatingIn(wheels, lo, hi) && wheels[id].changeSeq !in groups {
        assert n in ConflictsIn(wheels, lo, hi);
      }
      counted := counted + Group(wheels, n);
    }
    assert counted == ViolatingIn(wheels, lo, hi);
  }

  /** The window of distinct numbers read at a cursor. */
  function Window(wheels: Wheels, cursor: Option<Key>, chunk: nat): seq<Key> {
    var fetched := Page(Past(SeqKeys(wheels), cursor), chunk + 1);
    if |fetched| > chunk then fetched[..chunk] else fetched
  }

  /** A window is the first numbers still to come. */
  lemma WindowIs(keys: set<Key>, cursor: Option<Key>, chunk: nat, window: seq<Key>, k: Key)
    requires chunk >= 1
    requires var fetched := Page(Past(keys, cursor), chunk + 1);
             window == if |fetched| > chunk then fetched[..chunk] else fetched
    requires window != [] && k in keys
    ensures window[0] in Past(keys, cursor)
    ensures k in Past(keys, cursor) ==> k == window[0] || Less(window[0], k)
    ensures k in Elements(window) <==> k in Past(keys, cursor) && !Less(window[|window| - 1], k)
  {
    var todo := Past(keys, cursor);
    OverFetch(keys, cursor, chunk);
    var fetched := Page(todo, chunk + 1);
    PageAscending(todo, chunk + 1);
    PageAscending(todo, chunk);
    PageElements(todo, chunk + 1);
    PageElements(todo, chunk);
    assert window[0] == fetched[0] == Min(todo);
    if |fetched| <= chunk {
      SortedIsTable(todo);
    } else {
      assert k in Past(keys, Some(window[chunk - 1])) <==> Less(window[chunk - 1], k);
    }
    if k in Elements(window) {
      AscendingLast(window, k);
    }
  }

  /** BETWEEN the ends of the window selects exactly the window's numbers. */
  lemma WindowSelects(wheels: Wheels, cursor: Option<Key>, chunk: nat, id: int)
    requires chunk >= 1 && Window(wheels, cursor, chunk) != [] && id in wheels
    ensures var window := Window(wheels, cursor, chunk);
            window[0].id <= wheels[id].changeSeq <= window[|window| - 1].id <==>
                    ById(wheels[id].changeSeq) in Elements(window)
  {
    var window, keys := Window(wheels, cursor, chunk), SeqKeys(wheels);
    assert ById(wheels[id].changeSeq) in keys;
    WindowInside(keys, cursor, chunk, window);
    WindowBetween(keys, cursor, chunk, window, wheels[id].changeSeq);
  }

  lemma WindowInside(keys: set<Key>, cursor: Option<Key>, chunk: nat, window: seq<Key>)
    requires chunk >= 1 && window != []
    requires var fetched := Page(Past(keys, cursor), chunk + 1);
             window == if |fetched| > chunk then fetched[..chunk] else fetched
    ensures window[|window| - 1] in keys
  {
    PageElements(Past(keys, cursor), chunk);
    PageElements(Past(keys, cursor), chunk + 1);
    OverFetch(keys, cursor, chunk);
    LastInPage(window);
  }

  lemma WindowBetween(keys: set<Key>, cursor: Option<Key>, chunk: nat, window: seq<Key>, n: int)
    requires chunk >= 1 && window != [] && ById(n) in keys && (forall k :: k in keys ==> k == ById(k.id))
    requires var fetched := Page(Past(keys, cursor), chunk + 1);
             window == if |fetched| > chunk then fetched[..chunk] else fetched
    requires window[|window| - 1] in keys
    ensures window[0].id <= n <= window[|window| - 1].id <==> ById(n) in Elements(window)
  {
    var first, last, k := window[0], window[|window| - 1], ById(n);
    WindowIs(keys, cursor, chunk, window, k);
    assert first == ById(first.id) && last == ById(last.id);
    LessById(first.id, n);
    LessById(last.id, n);
    if cursor.Some? && Less(first, k) {
      LessTransitive(cursor.value, first, k);
    }
  }

  /** The violating rows whose number has been passed. */
  function Passed(wheels: Wheels, cursor: Option<Key>): set<int> {
    Violating(wheels) - Numbered(wheels, Past(SeqKeys(wheels), cursor))
  }

  lemma WindowAdds(wheels: Wheels, cursor: Option<Key>, chunk: nat)
    requires chunk >= 1 && Window(wheels, cursor, chunk) != []
    ensures var window := Window(wheels, cursor, chunk);
            var found := ViolatingIn(wheels, window[0].id, window[|window| - 1].id);
            && found !! Passed(wheels, cursor)
            && (|Page(Past(SeqKeys(wheels), cursor), chunk + 1)| > chunk ==>
                  Passed(wheels, Some(window[chunk - 1])) == Passed(wheels, cursor) + found)
            && (|Page(Past(SeqKeys(wheels), cursor), chunk + 1)| <= chunk ==>
                  Violating(wheels) == Passed(wheels, cursor) + found)
  {
    var keys, window := SeqKeys(wheels), Window(wheels, cursor, chunk);
    var todo := Past(keys, cursor);
    OverFetch(keys, cursor, chunk);
    PageElements(todo, chunk);
    PageElements(todo, chunk + 1);
    WindowFinds(wheels, cursor, chunk);
    var next := if |Page(todo, chunk + 1)| > chunk then Past(keys, Some(window[chunk - 1])) else {};
    SortedIsTable(todo);
    assert next == todo - Elements(window);
    FoundAdds(wheels, todo, Elements(window), next);
  }

  lemma WindowFinds(wheels: Wheels, cursor: Option<Key>, chunk: nat)
    requires chunk >= 1 && Window(wheels, cursor, chunk) != []
    ensures var window := Window(wheels, cursor, chunk);
            ViolatingIn(wheels, window[0].id, window[|window| - 1].id) == Numbered(wheels, Elements(window))
  {
    forall id | id in Violating(wheels)
      ensures var window := Window(wheels, cursor, chunk);
              window[0].id <= wheels[id].changeSeq <= window[|window| - 1].id <==>
                      ById(wheels[id].changeSeq) in Elements(window)
    {
      WindowSelects(wheels, cursor, chunk, id);
    }
  }

  /** The violating rows with one of these numbers. */
  function Numbered(wheels: Wheels, keys: set<Key>): set<int> {
    set id | id in Violating(wheels) && ById(wheels[id].changeSeq) in keys
  }

  lemma FoundAdds(wheels: Wheels, todo: set<Key>, window: set<Key>, next: set<Key>)
    requires window <= todo && next == todo - window
    ensures Numbered(wheels, window) !! (Violating(wheels) - Numbered(wheels, todo))
    ensures Violating(wheels) - Numbered(wheels, next) ==
        (Violating(wheels) - Numbered(wheels, todo)) + Numbered(wheels, window)
  {
  }

  /** The count advances by what the window finds. */
  ghost predicate Advances(wheels: Wheels, cursor: Option<Key>, window: seq<Key>, more: bool)
    requires window != []
  {
    var found := |ViolatingIn(wheels, window[0].id, window[|window| - 1].id)|;
    if more then
      && |Passed(wheels, Some(window[|window| - 1]))| == |Passed(wheels, cursor)| + found
      && |Past(SeqKeys(wheels), Some(window[|window| - 1]))| < |Past(SeqKeys(wheels), cursor)|
    else |Violating(wheels)| == |Passed(wheels, cursor)| + found
  }

  lemma UnionSize(whole: set<int>, a: set<int>, b: set<int>)
    requires whole == a + b && b !! a
    ensures |whole| == |a| + |b|
  {
  }

  lemma PastShrinks(keys: set<Key>, cursor: Option<Key>, chunk: nat)
    requires chunk >= 1
    ensures var fetched := Page(Past(keys, cursor), chunk + 1);
            |fetched| > chunk ==> |Past(keys, Some(fetched[chunk - 1]))| < |Past(keys, cursor)|
  {
    OverFetch(keys, cursor, chunk);
  }

  lemma WindowAdvances(wheels: Wheels, cursor: Option<Key>, chunk: nat)
    requires chunk >= 1 && Window(wheels, cursor, chunk) != []
    ensures Advances(wheels, cursor, Window(wheels, cursor, chunk),
                     |Page(Past(SeqKeys(wheels), cursor), chunk + 1)| > chunk)
  {
    var fetched, window := Page(Past(SeqKeys(wheels), cursor), chunk + 1), Window(wheels, cursor, chunk);
    var found := ViolatingIn(wheels, window[0].id, window[|window| - 1].id);
    WindowAdds(wheels, cursor, chunk);
    if |fetched| > chunk {
      PastShrinks(SeqKeys(wheels), cursor, chunk);
      assert window[|window| - 1] == window[chunk - 1] == fetched[chunk - 1];
      UnionSize(Passed(wheels, Some(window[chunk - 1])), Passed(wheels, cursor), found);
    } else {
      UnionSize(Violating(wheels), Passed(wheels, cursor), found);
    }
  }

  lemma NothingLeft(wheels: Wheels, cursor: Option<Key>, chunk: nat)
    requires Page(Past(SeqKeys(wheels), cursor), chunk + 1) == []
    ensures Violating(wheels) == Passed(wheels, cursor)
  {
    PageSize(Past(SeqKeys(wheels), cursor), chunk + 1);
    assert Past(SeqKeys(wheels), cursor) == {};
  }

  /** One window query: its numbers, and whether more follow. */
  method ReadWindow(wheels: Wheels, cursor: Option<Key>, chunk: nat) returns (window: seq<Key>, more: bool)
    requires chunk >= 1
    ensures if window == [] then |Violating(wheels)| == |Passed(wheels, cursor)|
            else Advances(wheels, cursor, window, more)
  {
    var fetched := Page(Past(SeqKeys(wheels), cursor), chunk + 1);
    more := |fetched| > chunk;
    window := if more then fetched[..chunk] else fetched;
    if window == [] {
      NothingLeft(wheels, cursor, chunk);
    } else {
      WindowAdvances(wheels, cursor, chunk);
    }
  }

  /** `_check_duplicate_change_seq`: the windows together count what one GROUP BY over the whole table
      would, without ever reading more than a window of numbers at a time. */
  method CountDuplicates(wheels: Wheels, chunk: nat) returns (count: nat)
    requires chunk >= 1
    ensures count == |Violating(wheels)|
  {
    var cursor: Option<Key> := None;
    count := 0;
    NothingPassed(wheels);
    while true
      invariant count == |Passed(wheels, cursor)|
      decreases |Past(SeqKeys(wheels), cursor)|
    {
      var window, more := ReadWindow(wheels, cursor, chunk);
      if window == [] {
        break;
      }
      var n := CountWindow(wheels, window[0].id, window[|window| - 1].id);
      count := count + n;
      if !more {
        break;
      }
      cursor := Some(window[|window| - 1]);
    }
  }

  lemma NothingPassed(wheels: Wheels)
    ensures Passed(wheels, None) == {}
  {
    forall id | id in Violating(wheels) ensures id in Numbered(wheels, SeqKeys(wheels)) {
      assert ById(wheels[id].changeSeq) in SeqKeys(wheels);
    }
  }
}
