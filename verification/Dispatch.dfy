/** `dispatcher.py`: claiming. The queue is derived from the tables; the dispatcher itself only holds
    an in-flight set and a keyset cursor per stage. */
module Dispatch {
  import opened Prelude
  import opened Ordering
  import opened Schema
  import opened WriteOps

  // ---------------------------------------------------------------- the query

  function KeyOf(id: int, w: Wheel): Key { Key(w.lane, w.project, id) }

  /** Quarantined, or backing off: `next_attempt_at > now` compares text. */
  predicate Deferred(db: DB, key: StageKey, now: Time) {
    key in db.work && (db.work[key].quarantinedAt.Some? || LexLess(now, db.work[key].nextAttemptAt))
  }

  predicate Claimable(db: DB, stage: Stage, now: Time, id: int) {
    id in db.wheels && db.wheels[id].state == QueueState(stage) && !Deferred(db, StageKey(id, stage), now)
  }

  function Eligible(db: DB, stage: Stage, now: Time, inFlight: set<int>): set<Key> {
    set id | id in db.wheels && Claimable(db, stage, now, id) && id !in inFlight :: KeyOf(id, db.wheels[id])
  }

  function IdSet(rows: set<Key>): set<int> { set k | k in rows :: k.id }

  /** One stage's part of the dispatcher. */
  datatype Lane = Lane(inFlight: set<int>, cursor: Option<Key>)

  function Todo(db: DB, stage: Stage, now: Time, q: Lane): set<Key> {
    Past(Eligible(db, stage, now, q.inFlight), q.cursor)
  }

  function ClaimRows(db: DB, stage: Stage, now: Time, q: Lane, limit: nat): seq<Key> {
    Page(Todo(db, stage, now, q), limit)
  }

  /** A short page resets the cursor. */
  function Claimed(q: Lane, rows: seq<Key>, limit: nat): Lane
    requires limit >= 1
  {
    Lane(q.inFlight + IdSet(Elements(rows)), if |rows| < limit then None else Some(rows[|rows| - 1]))
  }

  function Items(rows: seq<Key>, state: WheelState): seq<Item> {
    seq(|rows|, i requires 0 <= i < |rows| => Item(rows[i].id, rows[i].project, rows[i].lane, state))
  }

  /** An item carries its row's columns. */
  lemma ItemsAreRows(db: DB, stage: Stage, now: Time, q: Lane, limit: nat)
    ensures var items := Items(ClaimRows(db, stage, now, q, limit), QueueState(stage));
            forall i :: 0 <= i < |items| ==>
              && items[i].id in db.wheels && items[i].state == db.wheels[items[i].id].state == QueueState(stage)
              && items[i].project == db.wheels[items[i].id].project && items[i].lane == db.wheels[items[i].id].lane
  {
    var rows := ClaimRows(db, stage, now, q, limit);
    ClaimSound(db, stage, now, q, limit);
    forall i | 0 <= i < |rows| ensures rows[i] in Elements(rows) {
      ElementsMember(rows, rows[i]);
    }
  }

  class Dispatcher {
    var inFlight: map<Stage, set<int>>
    var cursors: map<Stage, Option<Key>>

    ghost predicate Valid()
      reads this
    {
      forall stage: Stage :: stage in inFlight && stage in cursors
    }

    function Queue(stage: Stage): Lane
      requires Valid()
      reads this
    {
      Lane(inFlight[stage], cursors[stage])
    }

    constructor ()
      ensures Valid() && forall stage: Stage :: Queue(stage) == Lane({}, None)
    {
      inFlight := map[FETCH := {}, CONVERT := {}];
      cursors := map[FETCH := None, CONVERT := None];
      new;
      forall stage: Stage
        ensures stage in inFlight && stage in cursors && inFlight[stage] == {} && cursors[stage] == None
      {
        match stage
        case FETCH =>
        case CONVERT =>
      }
    }

    /** `claim`. A zero `limit` would index an empty page. */
    method Claim(db: DB, stage: Stage, limit: nat, now: Time) returns (items: seq<Item>)
      requires Valid() && limit >= 1
      modifies this
      ensures Valid()
      ensures var rows := ClaimRows(db, stage, now, old(Queue(stage)), limit);
              items == Items(rows, QueueState(stage)) && Queue(stage) == Claimed(old(Queue(stage)), rows, limit)
      ensures forall i :: 0 <= i < |items| ==>
                && items[i].id in db.wheels && items[i].state == db.wheels[items[i].id].state == QueueState(stage)
                && items[i].project == db.wheels[items[i].id].project && items[i].lane == db.wheels[items[i].id].lane
      ensures forall other: Stage :: other != stage ==> Queue(other) == old(Queue(other))
    {
      ItemsAreRows(db, stage, now, Queue(stage), limit);
      var rows := ClaimRows(db, stage, now, Queue(stage), limit);
      items := Items(rows, QueueState(stage));
      if |items| < limit {
        cursors := cursors[stage := None];
      } else {
        cursors := cursors[stage := Some(rows[|rows| - 1])];
      }
      inFlight := inFlight[stage := inFlight[stage] + IdSet(Elements(rows))];
    }

    method Release(stage: Stage, id: int)
      requires Valid()
      modifies `inFlight
      ensures Valid() && Queue(stage) == old(Queue(stage)).(inFlight := old(Queue(stage)).inFlight - {id})
      ensures forall other: Stage :: other != stage ==> Queue(other) == old(Queue(other))
    {
      inFlight := inFlight[stage := inFlight[stage] - {id}];
    }
  }

  // ------------------------------------------------------------- one claim

  /** What is eligible, row by row: in the stage's state, not held, not quarantined, and not due later. */
  lemma EligibleIff(db: DB, stage: Stage, now: Time, inFlight: set<int>, id: int)
    ensures id in IdSet(Eligible(db, stage, now, inFlight)) <==>
            && id in db.wheels && id !in inFlight
            && db.wheels[id].state == (if stage.FETCH? then NEED_METADATA else NEED_CONVERT)
            && (StageKey(id, stage) in db.work ==>
                  var row := db.work[StageKey(id, stage)];
                  row.quarantinedAt.None? && !LexLess(now, row.nextAttemptAt))
  {
    if id in db.wheels && Claimable(db, stage, now, id) && id !in inFlight {
      assert KeyOf(id, db.wheels[id]) in Eligible(db, stage, now, inFlight);
    }
  }

  /** A claim returns only claimable rows that nobody holds, each once: lower lanes first, within a lane
      by project, within a project by id. */
  lemma ClaimSound(db: DB, stage: Stage, now: Time, q: Lane, limit: nat)
    ensures var rows := ClaimRows(db, stage, now, q, limit);
            && Ascending(rows) && |rows| <= limit
            && forall k :: k in Elements(rows) ==>
                  Claimable(db, stage, now, k.id) && k.id !in q.inFlight && k == KeyOf(k.id, db.wheels[k.id])
    ensures var rows := ClaimRows(db, stage, now, q, limit);
            forall i, j :: 0 <= i < j < |rows| ==>
              || rows[i].lane < rows[j].lane
              || (rows[i].lane == rows[j].lane && LexLess(rows[i].project, rows[j].project))
              || (rows[i].lane == rows[j].lane && rows[i].project == rows[j].project && rows[i].id < rows[j].id)
  {
    var todo := Todo(db, stage, now, q);
    PageAscending(todo, limit);
    PageElements(todo, limit);
    PageSize(todo, limit);
    var rows := ClaimRows(db, stage, now, q, limit);
    forall i, j | 0 <= i < j < |rows|
      ensures || rows[i].lane < rows[j].lane
              || (rows[i].lane == rows[j].lane && LexLess(rows[i].project, rows[j].project))
              || (rows[i].lane == rows[j].lane && rows[i].project == rows[j].project && rows[i].id < rows[j].id)
    {
      AscendingAt(rows, i, j);
    }
  }

  /** Holding rows that are not past the cursor changes nothing past it. */
  lemma HeldBehind(db: DB, stage: Stage, now: Time, inFlight: set<int>, held: set<int>, cursor: Key)
    requires forall id :: id in held && id in db.wheels ==> !Less(cursor, KeyOf(id, db.wheels[id]))
    ensures After(Eligible(db, stage, now, inFlight + held), cursor) ==
            After(Eligible(db, stage, now, inFlight), cursor)
  {
  }

  /** A full page leaves exactly the rest of the sweep; a short one was the whole of it. */
  lemma ClaimSplits(db: DB, stage: Stage, now: Time, q: Lane, limit: nat)
    requires limit >= 1
    ensures var todo := Todo(db, stage, now, q);
            var rows := ClaimRows(db, stage, now, q, limit);
            var q' := Claimed(q, rows, limit);
            && (|rows| < limit ==> rows == Sorted(todo) && q'.cursor.None?)
            && (|rows| >= limit ==> q'.cursor.Some? && Sorted(todo) == rows + Sorted(Todo(db, stage, now, q')))
  {
    var todo := Todo(db, stage, now, q);
    var rows := ClaimRows(db, stage, now, q, limit);
    PageSize(todo, limit);
    if |todo| < limit {
      PageWhole(todo, limit);
    } else {
      ScanSplits(todo, limit);
      var last := rows[limit - 1];
      LastInPage(rows);
      PageElements(todo, limit);
      PastTransitive(Eligible(db, stage, now, q.inFlight), q.cursor, last);
      PageAscending(todo, limit);
      forall id | id in IdSet(Elements(rows)) && id in db.wheels
        ensures !Less(last, KeyOf(id, db.wheels[id]))
      {
        var k :| k in Elements(rows) && k.id == id;
        AscendingLast(rows, k);
      }
      HeldBehind(db, stage, now, q.inFlight, IdSet(Elements(rows)), last);
    }
  }

  // --------------------------------------------------------------- the sweep

  /** What happens to one stage while the tables stand still: claims of any size, and releases. */
  datatype Step = Claim(limit: nat) | Release(id: int)

  function Apply(db: DB, stage: Stage, now: Time, q: Lane, step: Step): (Lane, seq<Key>)
    requires step.Claim? ==> step.limit >= 1
  {
    match step
    case Claim(limit) => var rows := ClaimRows(db, stage, now, q, limit); (Claimed(q, rows, limit), rows)
    case Release(id) => (q.(inFlight := q.inFlight - {id}), [])
  }

  /** The rows a sweep returns, up to and including its first short page. */
  datatype Sweep = Sweep(rows: seq<Key>, lane: Lane, wrapped: bool)

  predicate AllClaims(steps: seq<Step>) {
    forall i :: 0 <= i < |steps| && steps[i].Claim? ==> steps[i].limit >= 1
  }

  function RunSweep(db: DB, stage: Stage, now: Time, q: Lane, steps: seq<Step>): Sweep
    requires AllClaims(steps)
    decreases |steps|
  {
    if steps == [] then Sweep([], q, false)
    else
      var (q', rows) := Apply(db, stage, now, q, steps[0]);
      if steps[0].Claim? && |rows| < steps[0].limit then Sweep(rows, q', true)
      else
        var rest := RunSweep(db, stage, now, q', steps[1..]);
        rest.(rows := rows + rest.rows)
  }

  /** Only rows the sweep itself returned are released while it lasts. */
  ghost predicate ReleasesOwn(db: DB, stage: Stage, now: Time, q: Lane, seen: set<int>, steps: seq<Step>)
    requires AllClaims(steps)
    decreases |steps|
  {
    steps == [] ||
    (var (q', rows) := Apply(db, stage, now, q, steps[0]);
     && (steps[0].Release? ==> steps[0].id in seen)
     && ReleasesOwn(db, stage, now, q', seen + IdSet(Elements(rows)), steps[1..]))
  }

  /** The rows seen so far are not past the cursor. */
  ghost predicate Behind(db: DB, cursor: Option<Key>, seen: set<int>) {
    if cursor.None? then seen == {}
    else forall id :: id in seen && id in db.wheels ==> !Less(cursor.value, KeyOf(id, db.wheels[id]))
  }

  lemma ClaimStaysBehind(db: DB, stage: Stage, now: Time, q: Lane, limit: nat, seen: set<int>)
    requires limit >= 1 && Behind(db, q.cursor, seen)
    ensures var rows := ClaimRows(db, stage, now, q, limit);
            |rows| >= limit ==> Behind(db, Claimed(q, rows, limit).cursor, seen + IdSet(Elements(rows)))
  {
    var rows := ClaimRows(db, stage, now, q, limit);
    ClaimSound(db, stage, now, q, limit);
    if |rows| >= limit {
      var last := rows[|rows| - 1];
      LastInPage(rows);
      PageElements(Todo(db, stage, now, q), limit);
      forall id | id in seen + IdSet(Elements(rows)) && id in db.wheels
        ensures !Less(last, KeyOf(id, db.wheels[id]))
      {
        if id in IdSet(Elements(rows)) {
          var k :| k in Elements(rows) && k.id == id;
          AscendingLast(rows, k);
        } else if Less(last, KeyOf(id, db.wheels[id])) {
          LessTransitive(q.cursor.value, last, KeyOf(id, db.wheels[id]));
        }
      }
    }
  }

  lemma ReleaseBehind(db: DB, stage: Stage, now: Time, q: Lane, id: int, seen: set<int>)
    requires Behind(db, q.cursor, seen) && id in seen
    ensures Todo(db, stage, now, q.(inFlight := q.inFlight - {id})) == Todo(db, stage, now, q)
  {
    if id in q.inFlight {
      HeldBehind(db, stage, now, q.inFlight - {id}, {id}, q.cursor.value);
      assert q.inFlight - {id} + {id} == q.inFlight;
    } else {
      assert q.inFlight - {id} == q.inFlight;
    }
  }

  /** What is left after a step, and that it is still ahead. */
  lemma StepSplits(db: DB, stage: Stage, now: Time, q: Lane, seen: set<int>, step: Step)
    requires (step.Claim? ==> step.limit >= 1) && (step.Release? ==> step.id in seen) && Behind(db, q.cursor, seen)
    ensures var (q', rows) := Apply(db, stage, now, q, step);
            var ends := step.Claim? && |rows| < step.limit;
            && Sorted(Todo(db, stage, now, q)) == rows + (if ends then [] else Sorted(Todo(db, stage, now, q')))
            && (!ends ==> Behind(db, q'.cursor, seen + IdSet(Elements(rows))))
  {
    match step
    case Claim(limit) =>
      ClaimSplits(db, stage, now, q, limit);
      ClaimStaysBehind(db, stage, now, q, limit, seen);
    case Release(id) =>
      ReleaseBehind(db, stage, now, q, id, seen);
      assert seen + IdSet(Elements([])) == seen;
  }

  lemma Join(whole: seq<Key>, a: seq<Key>, rest: seq<Key>, b: seq<Key>, c: seq<Key>)
    requires whole == a + rest && rest == b + c
    ensures whole == (a + b) + c
  {
  }

  lemma {:induction false} SweepSplits(db: DB, stage: Stage, now: Time, q: Lane, seen: set<int>, steps: seq<Step>)
    requires AllClaims(steps) && Behind(db, q.cursor, seen) && ReleasesOwn(db, stage, now, q, seen, steps)
    ensures var r := RunSweep(db, stage, now, q, steps);
            Sorted(Todo(db, stage, now, q)) == r.rows + (if r.wrapped then [] else Sorted(Todo(db, stage, now, r.lane)))
    decreases |steps|
  {
    if steps != [] {
      var (q', rows) := Apply(db, stage, now, q, steps[0]);
      StepSplits(db, stage, now, q, seen, steps[0]);
      if !(steps[0].Claim? && |rows| < steps[0].limit) {
        SweepSplits(db, stage, now, q', seen + IdSet(Elements(rows)), steps[1..]);
        var rest := RunSweep(db, stage, now, q', steps[1..]);
        assert RunSweep(db, stage, now, q, steps) == rest.(rows := rows + rest.rows);
        Join(Sorted(Todo(db, stage, now, q)), rows, Sorted(Todo(db, stage, now, q')), rest.rows,
             if rest.wrapped then [] else Sorted(Todo(db, stage, now, rest.lane)));
      }
    }
  }

  /** Claim sweep: from a reset cursor, the claims up to the first short page are together exactly the
      eligible rows in queue order, each once, whatever the page sizes and whatever is released meanwhile. */
  lemma SweepIsSortedScan(db: DB, stage: Stage, now: Time, inFlight: set<int>, steps: seq<Step>)
    requires AllClaims(steps) && ReleasesOwn(db, stage, now, Lane(inFlight, None), {}, steps)
    ensures var r := RunSweep(db, stage, now, Lane(inFlight, None), steps);
            var eligible := Eligible(db, stage, now, inFlight);
            && (r.wrapped ==>
                  r.rows == Sorted(eligible) && r.lane.cursor.None?
                  && Ascending(r.rows) && Elements(r.rows) == eligible)
            && (!r.wrapped ==> r.rows <= Sorted(eligible))
  {
    SweepSplits(db, stage, now, Lane(inFlight, None), {}, steps);
    SortedIsTable(Eligible(db, stage, now, inFlight));
    WrappedResets(db, stage, now, Lane(inFlight, None), steps);
  }

  lemma {:induction false} WrappedResets(db: DB, stage: Stage, now: Time, q: Lane, steps: seq<Step>)
    requires AllClaims(steps)
    ensures var r := RunSweep(db, stage, now, q, steps); r.wrapped ==> r.lane.cursor.None?
    decreases |steps|
  {
    if steps != [] {
      WrappedResets(db, stage, now, Apply(db, stage, now, q, steps[0]).0, steps[1..]);
    }
  }

  // ------------------------------------------------------- no double claims

  /** What happens to one stage while the tables change under it. */
  datatype Event = Claiming(db: DB, now: Time, limit: nat) | Releasing(id: int)

  function Happen(stage: Stage, q: Lane, e: Event): (Lane, seq<Key>)
    requires e.Claiming? ==> e.limit >= 1
  {
    match e
    case Claiming(db, now, limit) => Apply(db, stage, now, q, Claim(limit))
    case Releasing(id) => (q.(inFlight := q.inFlight - {id}), [])
  }

  predicate AllHappen(es: seq<Event>) {
    forall i :: 0 <= i < |es| && es[i].Claiming? ==> es[i].limit >= 1
  }

  /** Every row returned over a run, in order. */
  function Returned(stage: Stage, q: Lane, es: seq<Event>): seq<Key>
    requires AllHappen(es)
    decreases |es|
  {
    if es == [] then []
    else Happen(stage, q, es[0]).1 + Returned(stage, Happen(stage, q, es[0]).0, es[1..])
  }

  /** A claimed id is not returned again until it is released, whatever the tables do. */
  lemma {:induction false} NoDoubleClaim(stage: Stage, q: Lane, es: seq<Event>, id: int)
    requires AllHappen(es) && id in q.inFlight && Releasing(id) !in es
    ensures id !in IdSet(Elements(Returned(stage, q, es)))
    decreases |es|
  {
    if es != [] {
      var (q', rows) := Happen(stage, q, es[0]);
      assert es == [es[0]] + es[1..];
      NoDoubleClaim(stage, q', es[1..], id);
      ElementsAppend(rows, Returned(stage, q', es[1..]));
      if es[0].Claiming? {
        ClaimSound(es[0].db, stage, es[0].now, q, es[0].limit);
      }
    }
  }

  /** A claim puts what it returns in flight, so the rule above applies from there on. */
  lemma ClaimedIsInFlight(stage: Stage, q: Lane, db: DB, now: Time, limit: nat, es: seq<Event>, k: Key)
    requires limit >= 1 && AllHappen(es) && k in Elements(ClaimRows(db, stage, now, q, limit)) && Releasing(k.id) !in es
    ensures var q' := Claimed(q, ClaimRows(db, stage, now, q, limit), limit);
            k.id in q'.inFlight && k.id !in IdSet(Elements(Returned(stage, q', es)))
  {
    NoDoubleClaim(stage, Claimed(q, ClaimRows(db, stage, now, q, limit), limit), es, k.id);
  }
}
