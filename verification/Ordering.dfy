/** The key order of the queue index, `ORDER BY ... LIMIT` pages, and keyset pagination. */
module Ordering {
  import opened Prelude

  // ----------------------------------------------------------------- text order

  /** SQLite's BINARY text order. */
  predicate LexLess(a: string, b: string) {
    b != [] && (a == [] || a[0] < b[0] || (a[0] == b[0] && LexLess(a[1..], b[1..])))
  }

  lemma {:induction false} LexIrreflexive(a: string)
    ensures !LexLess(a, a)
  {
    if a != [] {
      LexIrreflexive(a[1..]);
    }
  }

  lemma {:induction false} LexTransitive(a: string, b: string, c: string)
    requires LexLess(a, b) && LexLess(b, c)
    ensures LexLess(a, c)
  {
    if a != [] && a[0] == b[0] == c[0] {
      LexTransitive(a[1..], b[1..], c[1..]);
    }
  }

  lemma {:induction false} LexTotal(a: string, b: string)
    ensures a == b || LexLess(a, b) || LexLess(b, a)
  {
    if a != [] && b != [] && a[0] == b[0] {
      LexTotal(a[1..], b[1..]);
      assert a == [a[0]] + a[1..] && b == [b[0]] + b[1..];
    }
  }

  // ------------------------------------------------------------------ key order

  /** A row's position in `ix_wheels_queue`. Scans paged by one integer use `ById`. */
  datatype Key = Key(lane: int, project: string, id: int)

  function ById(id: int): Key { Key(0, "", id) }

  /** The OR-chain of `_lane_project_id_keyset`. */
  predicate Less(a: Key, b: Key) {
    || a.lane < b.lane
    || (a.lane == b.lane && LexLess(a.project, b.project))
    || (a.lane == b.lane && a.project == b.project && a.id < b.id)
  }

  lemma LessIrreflexive(a: Key)
    ensures !Less(a, a)
  {
    LexIrreflexive(a.project);
  }

  lemma LessTransitive(a: Key, b: Key, c: Key)
    requires Less(a, b) && Less(b, c)
    ensures Less(a, c)
  {
    if LexLess(a.project, b.project) && LexLess(b.project, c.project) {
      LexTransitive(a.project, b.project, c.project);
    }
  }

  lemma LessTotal(a: Key, b: Key)
    ensures a == b || Less(a, b) || Less(b, a)
  {
    LexTotal(a.project, b.project);
  }

  lemma LessById(a: int, b: int)
    ensures Less(ById(a), ById(b)) <==> a < b
  {
    LexIrreflexive("");
  }

  // ---------------------------------------------------------------------- pages

  predicate IsMin(s: set<Key>, m: Key) {
    m in s && forall x :: x in s ==> x == m || Less(m, x)
  }

  lemma {:induction false} MinExists(s: set<Key>)
    requires s != {}
    ensures exists m :: IsMin(s, m)
  {
    var x :| x in s;
    if s == {x} {
      assert IsMin(s, x);
    } else {
      var rest := s - {x};
      assert |rest| < |s|;
      MinExists(rest);
      var m :| IsMin(rest, m);
      LessTotal(x, m);
      if Less(x, m) {
        forall y | y in s ensures y == x || Less(x, y) {
          if y != x && y != m {
            LessTransitive(x, m, y);
          }
        }
        assert IsMin(s, x);
      } else {
        assert IsMin(s, m);
      }
    }
  }

  lemma MinUnique(s: set<Key>, m: Key, m': Key)
    requires IsMin(s, m) && IsMin(s, m')
    ensures m == m'
  {
    if m != m' {
      LessTransitive(m, m', m);
      LessIrreflexive(m);
    }
  }

  function Min(s: set<Key>): (m: Key)
    requires s != {}
    ensures IsMin(s, m)
  {
    MinExists(s);
    assert forall m, m' :: IsMin(s, m) && IsMin(s, m') ==> m == m' by {
      forall m, m' | IsMin(s, m) && IsMin(s, m') ensures m == m' { MinUnique(s, m, m'); }
    }
    var m :| m in s && IsMin(s, m);
    m
  }

  function Elements(rows: seq<Key>): set<Key> {
    if rows == [] then {} else {rows[0]} + Elements(rows[1..])
  }

  /** SELECT ... FROM s ORDER BY lane, project, id LIMIT limit. */
  function Page(s: set<Key>, limit: nat): seq<Key>
    decreases limit
  {
    if s == {} || limit == 0 then []
    else [Min(s)] + Page(s - {Min(s)}, limit - 1)
  }

  /** The rows a page leaves out. */
  function Rest(s: set<Key>, limit: nat): set<Key>
    decreases limit
  {
    if s == {} || limit == 0 then s else Rest(s - {Min(s)}, limit - 1)
  }

  /** The whole scan: every row once, ascending. */
  function Sorted(s: set<Key>): seq<Key> { Page(s, |s|) }

  lemma ElementsCons(m: Key, rest: seq<Key>)
    ensures Elements([m] + rest) == {m} + Elements(rest)
  {
    assert ([m] + rest)[1..] == rest;
  }

  lemma {:induction false} ElementsMember(rows: seq<Key>, k: Key)
    ensures k in Elements(rows) <==> k in rows
  {
    if rows != [] {
      ElementsMember(rows[1..], k);
      assert rows == [rows[0]] + rows[1..];
    }
  }

  lemma {:induction false} PageSize(s: set<Key>, limit: nat)
    ensures |Page(s, limit)| == (if |s| < limit then |s| else limit)
    ensures |Rest(s, limit)| == |s| - |Page(s, limit)|
    decreases limit
  {
    if s != {} && limit != 0 {
      assert |s - {Min(s)}| == |s| - 1;
      PageSize(s - {Min(s)}, limit - 1);
    }
  }

  lemma {:induction false} PageElements(s: set<Key>, limit: nat)
    ensures Elements(Page(s, limit)) == s - Rest(s, limit) && Rest(s, limit) <= s
    decreases limit
  {
    if s != {} && limit != 0 {
      var m := Min(s);
      PageElements(s - {m}, limit - 1);
      ElementsCons(m, Page(s - {m}, limit - 1));
    }
  }

  predicate Ascending(rows: seq<Key>) {
    rows == [] || ((forall k :: k in Elements(rows[1..]) ==> Less(rows[0], k)) && Ascending(rows[1..]))
  }

  /** Earlier rows have a lower lane, or the same lane and a smaller project, or the same and a smaller id. */
  lemma {:induction false} AscendingAt(rows: seq<Key>, i: nat, j: nat)
    requires Ascending(rows) && i < j < |rows|
    ensures || rows[i].lane < rows[j].lane
            || (rows[i].lane == rows[j].lane && LexLess(rows[i].project, rows[j].project))
            || (rows[i].lane == rows[j].lane && rows[i].project == rows[j].project && rows[i].id < rows[j].id)
  {
    if i == 0 {
      ElementsMember(rows[1..], rows[j]);
      assert rows[1..][j - 1] == rows[j];
    } else {
      AscendingAt(rows[1..], i - 1, j - 1);
    }
  }

  /** A page is ascending, and once it is as long as the table it has every row. */
  lemma {:induction false} PageAscending(s: set<Key>, limit: nat)
    ensures Ascending(Page(s, limit))
    decreases limit
  {
    if s != {} && limit != 0 {
      var m := Min(s);
      var rest := Page(s - {m}, limit - 1);
      PageAscending(s - {m}, limit - 1);
      PageElements(s - {m}, limit - 1);
      assert ([m] + rest)[1..] == rest;
    }
  }

  lemma SortedIsTable(s: set<Key>)
    ensures Ascending(Sorted(s)) && Elements(Sorted(s)) == s && |Sorted(s)| == |s|
  {
    PageAscending(s, |s|);
    PageElements(s, |s|);
    PageSize(s, |s|);
  }

  /** The rows past a keyset cursor. */
  function After(s: set<Key>, cursor: Key): set<Key> {
    set x | x in s && Less(cursor, x)
  }

  lemma AfterMin(s: set<Key>)
    requires s != {}
    ensures After(s, Min(s)) == s - {Min(s)}
  {
    LessIrreflexive(Min(s));
  }

  lemma AfterLarger(s: set<Key>, cursor: Key)
    requires s != {} && cursor in s && cursor != Min(s)
    ensures After(s, cursor) == After(s - {Min(s)}, cursor)
  {
    if Less(cursor, Min(s)) {
      LessTransitive(cursor, Min(s), cursor);
      LessIrreflexive(cursor);
    }
  }

  /** What lies past the last row of a full page is exactly what the page left out. */
  lemma {:induction false} PageCursor(s: set<Key>, limit: nat)
    requires 0 < limit <= |s|
    ensures |Page(s, limit)| == limit && After(s, Page(s, limit)[limit - 1]) == Rest(s, limit)
    decreases limit
  {
    PageSize(s, limit);
    var m := Min(s);
    var rest := Page(s - {m}, limit - 1);
    if limit == 1 {
      AfterMin(s);
    } else {
      assert |s - {m}| == |s| - 1;
      PageCursor(s - {m}, limit - 1);
      PageElements(s - {m}, limit - 1);
      ElementsMember(rest, rest[limit - 2]);
      AfterLarger(s, rest[limit - 2]);
      assert ([m] + rest)[limit - 1] == rest[limit - 2];
    }
  }

  lemma {:induction false} PageSplit(s: set<Key>, a: nat, b: nat)
    ensures Page(s, a + b) == Page(s, a) + Page(Rest(s, a), b)
    decreases a
  {
    if a != 0 && s != {} {
      PageSplit(s - {Min(s)}, a - 1, b);
    }
  }

  /** A page longer than the table is the whole scan. */
  lemma {:induction false} PageWhole(s: set<Key>, limit: nat)
    requires limit >= |s|
    ensures Page(s, limit) == Sorted(s) && Rest(s, limit) == {}
    decreases limit
  {
    if s != {} {
      var m := Min(s);
      assert |s - {m}| == |s| - 1;
      PageWhole(s - {m}, limit - 1);
    }
  }

  /** One step of keyset pagination: a full page, then the scan of what lies past its last row. */
  lemma ScanSplits(s: set<Key>, limit: nat)
    requires 0 < limit <= |s|
    ensures |Page(s, limit)| == limit && After(s, Page(s, limit)[limit - 1]) == Rest(s, limit)
    ensures Sorted(s) == Page(s, limit) + Sorted(Rest(s, limit)) && |Rest(s, limit)| == |s| - limit
  {
    PageCursor(s, limit);
    PageSplit(s, limit, |s| - limit);
    PageSize(s, limit);
  }

  /** The rows past a cursor that may not be set yet. */
  function Past(s: set<Key>, cursor: Option<Key>): set<Key> {
    if cursor.None? then s else After(s, cursor.value)
  }

  lemma PastTransitive(s: set<Key>, cursor: Option<Key>, last: Key)
    requires last in Past(s, cursor)
    ensures After(s, last) == After(Past(s, cursor), last)
  {
    forall k | k in After(s, last)
      ensures k in Past(s, cursor)
    {
      if cursor.Some? {
        LessTransitive(cursor.value, last, k);
      }
    }
  }

  lemma LastInPage(rows: seq<Key>)
    requires rows != []
    ensures rows[|rows| - 1] in Elements(rows)
  {
    ElementsMember(rows, rows[|rows| - 1]);
  }

  lemma {:induction false} AscendingLast(rows: seq<Key>, k: Key)
    requires Ascending(rows) && k in Elements(rows)
    ensures rows != [] && !Less(rows[|rows| - 1], k)
  {
    if |rows| > 1 {
      LastInPage(rows[1..]);
      if k in Elements(rows[1..]) {
        AscendingLast(rows[1..], k);
      } else if Less(rows[|rows| - 1], k) {
        LessTransitive(rows[|rows| - 1], k, rows[|rows| - 1]);
        LessIrreflexive(rows[|rows| - 1]);
      }
    } else {
      LessIrreflexive(k);
    }
  }

  lemma {:induction false} ElementsAppend(a: seq<Key>, b: seq<Key>)
    ensures Elements(a + b) == Elements(a) + Elements(b)
    decreases |a|
  {
    if a == [] {
      assert a + b == b;
    } else {
      assert (a + b)[1..] == a[1..] + b;
      ElementsAppend(a[1..], b);
    }
  }
}
