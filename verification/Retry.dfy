/** `dispatcher.py`: backoff and quarantine, from clock readings to what a claim may return. */
module Retry {
  import opened Prelude
  import opened Ordering
  import opened Schema
  import opened WriteOps
  import opened Reconcile
  import opened Pipeline
  import opened IsoTime
  import Dispatch

  // ------------------------------------------------------------ clock to column

  /** Nearest integer, ties to even. */
  function Round(x: real): int {
    var f := x.Floor;
    if x - f as real < 0.5 then f
    else if x - f as real > 0.5 then f + 1
    else if f % 2 == 0 then f else f + 1
  }

  lemma RoundNear(x: real)
    ensures x - 0.5 <= Round(x) as real <= x + 0.5
  {
  }

  lemma RoundMonotone(x: real, y: real)
    requires x <= y
    ensures Round(x) <= Round(y)
  {
    RoundNear(x);
    RoundNear(y);
    if x.Floor == y.Floor {
    } else {
      assert x.Floor < y.Floor;
    }
  }

  /** The nearest integer, and the even one of two. */
  lemma RoundIff(x: real, n: int)
    ensures Round(x) == n <==>
            n as real - 0.5 < x < n as real + 0.5 || ((x == n as real - 0.5 || x == n as real + 0.5) && n % 2 == 0)
  {
    var f := x.Floor;
    if n as real - 0.5 < x < n as real + 0.5 || x == n as real - 0.5 || x == n as real + 0.5 {
      assert n == f || n == f + 1;
    }
  }

  /** A Unix time in seconds, as microseconds; 1970-01-01 is day 719163. */
  function Stamp(ts: real): int { 719_163 * 86_400_000_000 + Round(ts * 1_000_000.0) }

  lemma StampMonotone(a: real, b: real)
    requires a <= b
    ensures Stamp(a) <= Stamp(b)
  {
    RoundMonotone(a * 1_000_000.0, b * 1_000_000.0);
  }

  /** The epoch is 1970, a second is a million microseconds, and the fraction is rounded to the nearest. */
  lemma StampIs(ts: real, n: int)
    ensures Stamp(0.0) == Micros(Moment(Date(1970, 1, 1), 0, 0, 0, 0))
    ensures Stamp(ts) - Stamp(0.0) == n <==>
            || n as real - 0.5 < ts * 1_000_000.0 < n as real + 0.5
            || ((ts * 1_000_000.0 == n as real - 0.5 || ts * 1_000_000.0 == n as real + 0.5) && n % 2 == 0)
  {
    assert Ordinal(Date(1970, 1, 1)) == 719_163;
    assert Stamp(0.0) == 719_163 * 86_400_000_000;
    RoundIff(ts * 1_000_000.0, n);
  }

  /** `_iso` at the resolution of the text; `fromtimestamp` raises outside the years 1 to 9999. */
  ghost function Text(t: int): Time
    requires InYears(t)
  {
    Iso(FromMicros(t))
  }

  /** Comparing the stored texts of two clock readings compares the readings, to the microsecond. */
  lemma TextOrder(a: int, b: int)
    requires InYears(a) && InYears(b)
    ensures LexLess(Text(a), Text(b)) <==> a < b
  {
    IsoOrder(FromMicros(a), FromMicros(b));
  }

  // -------------------------------------------------------------------- backoff

  function Doubled(k: int): real { if k <= 0 then 1.0 else 2.0 * Doubled(k - 1) }

  /** The delay before jitter, for the `attempts`-th failure. */
  function Nominal(attempts: nat): real {
    var delay := 30.0 * Doubled(attempts - 1);
    if delay < 21_600.0 then delay else 21_600.0
  }

  /** `compute_backoff`; the jitter is the random draw. */
  function Backoff(attempts: nat, jitter: real): real { Jittered(Nominal(attempts), jitter) }

  function Jittered(delay: real, jitter: real): real { delay * jitter }

  lemma Scale(x: real, j: real)
    requires x >= 0.0 && 0.5 <= j <= 1.5
    ensures x * 0.5 <= Jittered(x, j) <= x * 1.5
  {
    var d, e := j - 0.5, 1.5 - j;
    assert x * d >= 0.0 && x * e >= 0.0;
    assert x * j == x * 0.5 + x * d;
    assert x * 1.5 == x * j + x * e;
  }

  /** The documented schedule, literally: half a minute, doubled with each failure, six hours at most. */
  function Scheduled(attempts: nat): real
    requires attempts >= 1
  {
    if attempts <= 10
    then [30.0, 60.0, 120.0, 240.0, 480.0, 960.0, 1920.0, 3840.0, 7680.0, 15_360.0][attempts - 1]
    else 21_600.0
  }

  lemma DoubledStep(k: int)
    ensures Doubled(0) == 1.0 && (k >= 0 ==> Doubled(k + 1) == 2.0 * Doubled(k))
  {
  }

  lemma DoubledTo(n: nat)
    requires n <= 10
    ensures Doubled(n) == [1.0, 2.0, 4.0, 8.0, 16.0, 32.0, 64.0, 128.0, 256.0, 512.0, 1024.0][n]
  {
    if n > 0 {
      DoubledTo(n - 1);
    }
  }

  lemma {:induction false} DoubledFrom(k: nat)
    requires k >= 10
    ensures Doubled(k) >= 1024.0
  {
    if k == 10 {
      DoubledTo(10);
    } else {
      DoubledFrom(k - 1);
    }
  }

  /** The delay starts at 30 s, doubles, and is capped at 6 h. */
  lemma NominalDoubles(k: nat)
    requires k >= 1
    ensures Nominal(1) == 30.0
    ensures Nominal(k + 1) == if 2.0 * Nominal(k) < 21_600.0 then 2.0 * Nominal(k) else 21_600.0
  {
    DoubledStep(k - 1);
  }

  lemma NominalIsScheduled(k: nat)
    requires k >= 1
    ensures Nominal(k) == Scheduled(k) && Nominal(k) >= 30.0
  {
    if k <= 10 {
      DoubledTo(k - 1);
    } else {
      DoubledFrom(k - 1);
    }
  }

  /** The jittered delay is within half of the scheduled one, and reaches both ends. */
  lemma BackoffBounds(attempts: nat, jitter: real)
    requires attempts >= 1 && 0.5 <= jitter <= 1.5
    ensures Scheduled(attempts) >= 30.0
    ensures Scheduled(attempts) * 0.5 <= Backoff(attempts, jitter) <= Scheduled(attempts) * 1.5
    ensures Backoff(attempts, 0.5) == Scheduled(attempts) * 0.5 && Backoff(attempts, 1.5) == Scheduled(attempts) * 1.5
  {
    NominalIsScheduled(attempts);
    Scale(Nominal(attempts), jitter);
  }

  // ----------------------------------------------------------- repeated failures

  /** One `Retry` outcome as it reaches the table. */
  datatype Attempt = Attempt(now: Time, due: Time)

  /** Consecutive retries of one item, none of them answered otherwise in between. */
  function Fail(db: DB, ctr: nat, stage: Stage, item: Item, maxAttempts: nat, tries: seq<Attempt>): (DB, nat)
    decreases |tries|
  {
    if tries == [] then (db, ctr)
    else
      var last := tries[|tries| - 1];
      var (d, c) := Fail(db, ctr, stage, item, maxAttempts, tries[..|tries| - 1]);
      var r := RetryWheel(d, c, stage, item, maxAttempts, last.now, last.due);
      (Committed(d, r), r.ctr)
  }

  function Backing(db: DB, key: StageKey, tries: seq<Attempt>): DB {
    if tries == [] then db else db.(work := db.work[key := Work(|tries|, tries[|tries| - 1].due, None)])
  }

  /** One more failure after n - 1 of them. */
  lemma RetryOnce(db: DB, before: DB, ctr: nat, stage: Stage, item: Item, maxAttempts: nat, n: nat, last: Attempt)
    requires item.id in db.wheels && 1 <= n <= maxAttempts
    requires var key := StageKey(item.id, stage);
             && before == db.(work := before.work) && Attempts(before, key) == n - 1
             && QuarantinedAt(before, key) == None
             && before.work[key := Work(n, last.due, None)] == db.work[key := Work(n, last.due, None)]
    ensures RetryWheel(before, ctr, stage, item, maxAttempts, last.now, last.due)
         == Applied(db.(work := db.work[StageKey(item.id, stage) := Work(n, last.due, None)]), ctr, Retried(n))
  {
  }

  /** Up to the maximum, retries change the work row alone: the attempt count and the due time. */
  lemma {:induction false} RetriesCount(db: DB, ctr: nat, stage: Stage, item: Item, maxAttempts: nat,
                                        tries: seq<Attempt>)
    requires item.id in db.wheels && StageKey(item.id, stage) !in db.work && |tries| <= maxAttempts
    ensures Fail(db, ctr, stage, item, maxAttempts, tries) == (Backing(db, StageKey(item.id, stage), tries), ctr)
    decreases |tries|
  {
    if tries != [] {
      var n := |tries|;
      RetriesCount(db, ctr, stage, item, maxAttempts, tries[..n - 1]);
      var key, row := StageKey(item.id, stage), Work(n, tries[n - 1].due, None);
      var before := Backing(db, key, tries[..n - 1]);
      assert before.work[key := row] == db.work[key := row];
      RetryOnce(db, before, ctr, stage, item, maxAttempts, n, tries[n - 1]);
    }
  }

  /** The work row of a quarantined wheel. */
  function LastRow(maxAttempts: nat, now: Time): Work { Work(maxAttempts + 1, now, Some(now)) }

  lemma RetryPastMax(db: DB, before: DB, ctr: nat, stage: Stage, item: Item, maxAttempts: nat, last: Attempt)
    requires item.id in db.wheels && QUARANTINED in AllowedTransitions(item.state)
    requires var key := StageKey(item.id, stage);
             && before == db.(work := before.work) && Attempts(before, key) == maxAttempts
             && before.work[key := LastRow(maxAttempts, last.now)] == db.work[key := LastRow(maxAttempts, last.now)]
    ensures var w := db.wheels[item.id].(state := QUARANTINED, changeSeq := ctr + 1, updatedAt := last.now);
            RetryWheel(before, ctr, stage, item, maxAttempts, last.now, last.due) ==
            Applied(db.(wheels := db.wheels[item.id := w],
                        work := db.work[StageKey(item.id, stage) := LastRow(maxAttempts, last.now)]),
                    ctr + 1, Quarantined(maxAttempts + 1))
  {
  }

  /** The next one quarantines. */
  lemma RetryQuarantines(db: DB, ctr: nat, stage: Stage, item: Item, maxAttempts: nat, tries: seq<Attempt>)
    requires item.id in db.wheels && StageKey(item.id, stage) !in db.work && |tries| == maxAttempts + 1
    requires QUARANTINED in AllowedTransitions(item.state)
    ensures var (d, c) := Fail(db, ctr, stage, item, maxAttempts, tries);
            var now := tries[maxAttempts].now;
            var w := db.wheels[item.id].(state := QUARANTINED, changeSeq := c, updatedAt := now);
            && c == ctr + 1
            && d == db.(wheels := db.wheels[item.id := w],
                        work := db.work[StageKey(item.id, stage) := LastRow(maxAttempts, now)])
  {
    RetriesCount(db, ctr, stage, item, maxAttempts, tries[..maxAttempts]);
    var key, now := StageKey(item.id, stage), tries[maxAttempts].now;
    var before := Backing(db, key, tries[..maxAttempts]);
    assert before.work[key := LastRow(maxAttempts, now)] == db.work[key := LastRow(maxAttempts, now)];
    RetryPastMax(db, before, ctr, stage, item, maxAttempts, tries[maxAttempts]);
  }

  /** When a failure was recorded, and the jitter drawn. */
  datatype Failure = Failure(now: real, jitter: real)

  /** `now_value + delay` of the k-th failure. */
  function Due(f: Failure, k: nat): real { f.now + Backoff(k, f.jitter) }

  /** Failures of the same moment are spread out: their due times differ in proportion to the draws, and
      the middle draw waits the scheduled delay. */
  lemma JitterSpreads(now: real, a: real, b: real, k: nat)
    requires k >= 1
    ensures Due(Failure(now, b), k) - Due(Failure(now, a), k) == Scheduled(k) * (b - a)
    ensures Due(Failure(now, 1.0), k) == now + Scheduled(k)
  {
    NominalIsScheduled(k);
    var x := Nominal(k);
    assert x * b - x * a == x * (b - a);
  }

  function Soonest(f: Failure, k: nat): real
    requires k >= 1
  {
    f.now + Scheduled(k) * 0.5
  }

  function Latest(f: Failure, k: nat): real
    requires k >= 1
  {
    f.now + Scheduled(k) * 1.5
  }

  lemma DueBounds(f: Failure, k: nat)
    requires k >= 1 && 0.5 <= f.jitter <= 1.5
    ensures Soonest(f, k) <= Due(f, k) <= Latest(f, k)
  {
    BackoffBounds(k, f.jitter);
  }

  lemma DueStamps(f: Failure, k: nat)
    requires k >= 1 && 0.5 <= f.jitter <= 1.5
    ensures Stamp(Soonest(f, k)) <= Stamp(Due(f, k)) <= Stamp(Latest(f, k))
  {
    DueBounds(f, k);
    StampMonotone(Soonest(f, k), Due(f, k));
    StampMonotone(Due(f, k), Latest(f, k));
  }

  /** A failure in microseconds: when it was recorded and when the wheel is due again. */
  datatype Moments = Moments(now: int, due: int)

  ghost predicate Rounded(ms: seq<Moments>, fs: seq<Failure>) {
    |ms| == |fs| && forall i :: 0 <= i < |fs| ==> ms[i] == Moments(Stamp(fs[i].now), Stamp(Due(fs[i], i + 1)))
  }

  /** The attempts a series of failures writes. */
  ghost predicate Written(tries: seq<Attempt>, ms: seq<Moments>) {
    && |tries| == |ms|
    && forall i :: 0 <= i < |ms| ==>
          InYears(ms[i].now) && InYears(ms[i].due) && tries[i] == Attempt(Text(ms[i].now), Text(ms[i].due))
  }

  /** While backing off, a wheel is claimable exactly when its due time is not ahead of the clock. */
  lemma ClaimableWhenDue(db: DB, ctr: nat, stage: Stage, item: Item, maxAttempts: nat, tries: seq<Attempt>, now: Time)
    requires item.id in db.wheels && StageKey(item.id, stage) !in db.work && 1 <= |tries| <= maxAttempts
    ensures var (d, c) := Fail(db, ctr, stage, item, maxAttempts, tries);
            && d.wheels == db.wheels && c == ctr && Attempts(d, StageKey(item.id, stage)) == |tries|
            && (Dispatch.Claimable(d, stage, now, item.id) <==>
                db.wheels[item.id].state == QueueState(stage) && !LexLess(now, tries[|tries| - 1].due))
  {
    RetriesCount(db, ctr, stage, item, maxAttempts, tries);
  }

  lemma ClaimableAt(db: DB, ctr: nat, stage: Stage, item: Item, maxAttempts: nat, tries: seq<Attempt>,
                    ms: seq<Moments>, c: int)
    requires item.id in db.wheels && StageKey(item.id, stage) !in db.work
    requires 1 <= |tries| <= maxAttempts && Written(tries, ms) && InYears(c)
    ensures var d := Fail(db, ctr, stage, item, maxAttempts, tries).0;
            && d.wheels == db.wheels && Attempts(d, StageKey(item.id, stage)) == |ms|
            && (Dispatch.Claimable(d, stage, Text(c), item.id) <==>
                db.wheels[item.id].state == QueueState(stage) && ms[|ms| - 1].due <= c)
  {
    ClaimableWhenDue(db, ctr, stage, item, maxAttempts, tries, Text(c));
    TextOrder(c, ms[|ms| - 1].due);
  }

  lemma LastDueBounds(ms: seq<Moments>, fs: seq<Failure>)
    requires |fs| >= 1 && Rounded(ms, fs) && 0.5 <= fs[|fs| - 1].jitter <= 1.5
    ensures Stamp(Soonest(fs[|fs| - 1], |fs|)) <= ms[|fs| - 1].due <= Stamp(Latest(fs[|fs| - 1], |fs|))
  {
    var k, f := |fs|, fs[|fs| - 1];
    assert ms[k - 1] == Moments(Stamp(f.now), Stamp(Due(f, k - 1 + 1)));
    DueStamps(f, k);
  }

  /** Retry to quarantine, first half: after k failures, k at most the maximum, the wheel's own row is
      unchanged and the attempts are k; a claim may return it exactly from its due time on, read at the
      microseconds of the stored text; and that time is at least half of min(30 * 2^(k-1), 6h) after
      the failure, and at most three halves. */
  lemma BacksOff(db: DB, ctr: nat, stage: Stage, item: Item, maxAttempts: nat,
                 tries: seq<Attempt>, ms: seq<Moments>, fs: seq<Failure>, c: int)
    requires item.id in db.wheels && StageKey(item.id, stage) !in db.work
    requires 1 <= |tries| <= maxAttempts && Written(tries, ms) && Rounded(ms, fs) && InYears(c)
    requires 0.5 <= fs[|fs| - 1].jitter <= 1.5
    ensures var d := Fail(db, ctr, stage, item, maxAttempts, tries).0;
            && d.wheels == db.wheels && Attempts(d, StageKey(item.id, stage)) == |ms|
            && (Dispatch.Claimable(d, stage, Text(c), item.id) <==>
                db.wheels[item.id].state == QueueState(stage) && ms[|ms| - 1].due <= c)
    ensures |ms| == |fs| && Stamp(Soonest(fs[|fs| - 1], |fs|)) <= ms[|fs| - 1].due <= Stamp(Latest(fs[|fs| - 1], |fs|))
  {
    LastDueBounds(ms, fs);
    ClaimableAt(db, ctr, stage, item, maxAttempts, tries, ms, c);
  }

  // -------------------------------------------------------------- in quarantine

  /** The operations that may put the wheel back in this stage's queue. */
  predicate Frees(op: Op, key: StageKey) {
    match op
    case FetchOk(item, _, _) => item.id == key.id && key.stage == FETCH
    case ConvertOk(item, _, _, _) => item.id == key.id && key.stage == CONVERT
    case SkipOutcome(stage, item, _, _, _, _) => item.id == key.id && stage == key.stage
    case Reprocess(ids, _, _) => key.id in ids
    case Unquarantine(ids, _) => key.id in ids
    case _ => false
  }

  lemma {:induction false} InsertKeepsWork(db: DB, ctr: nat, news: seq<NewWheel>, project: string, serial: int,
                                           now: Time)
    ensures InsertRows(db, ctr, news, project, serial, now).work == db.work
    decreases |news|
  {
    if news != [] {
      InsertKeepsWork(InsertRow(db, ctr + 1, news[0], project, serial, now), ctr + 1, news[1..], project, serial, now);
    }
  }

  lemma {:induction false} ChangeKeepsWork(db: DB, ctr: nat, changed: seq<Changed>, now: Time)
    ensures ChangeRows(db, ctr, changed, now).work == db.work
    decreases |changed|
  {
    if changed != [] {
      ChangeKeepsWork(ChangeRow(db, changed[0], ctr + 1, now), ctr + 1, changed[1..], now);
    }
  }

  lemma PlanKeepsWork(db: DB, ctr: nat, plan: Plan, now: Time)
    ensures ApplyPlan(db, ctr, plan, now).db.work == db.work
  {
    InsertKeepsWork(db, ctr, plan.newWheels, plan.project, plan.serial, now);
    ChangeKeepsWork(InsertRows(db, ctr, plan.newWheels, plan.project, plan.serial, now),
                    ctr + |plan.newWheels|, plan.changed, now);
  }

  lemma OpKeepsQuarantine(op: Op, db: DB, ctr: nat, key: StageKey)
    requires IsQuarantinedAt(db, key) && !Frees(op, key)
    ensures IsQuarantinedAt(Committed(db, Run(op, db, ctr)), key)
  {
    if op.Sync? {
      PlanKeepsWork(db, ctr, SyncPlan(db, op.project, op.serial, op.files), op.now);
    }
  }

  predicate NoneFrees(ops: seq<Op>, key: StageKey) {
    ops == [] || (!Frees(ops[0], key) && NoneFrees(ops[1..], key))
  }

  /** Retry to quarantine, second half: whatever else the pipeline does, a quarantined wheel is not
      returned by a claim of its stage until an operation on it frees it. */
  lemma {:induction false} StaysQuarantined(ops: seq<Op>, db: DB, ctr: nat, key: StageKey, now: Time,
                                            q: Dispatch.Lane, limit: nat)
    requires IsQuarantinedAt(db, key) && NoneFrees(ops, key)
    ensures IsQuarantinedAt(RunAll(ops, db, ctr).0, key)
    ensures key.id !in Dispatch.IdSet(Elements(Dispatch.ClaimRows(RunAll(ops, db, ctr).0, key.stage, now, q, limit)))
    decreases |ops|
  {
    if ops != [] {
      OpKeepsQuarantine(ops[0], db, ctr, key);
      StaysQuarantined(ops[1..], Committed(db, Run(ops[0], db, ctr)), Run(ops[0], db, ctr).ctr, key, now, q, limit);
    } else {
      Dispatch.ClaimSound(db, key.stage, now, q, limit);
    }
  }

  /** Unquarantine and reprocess do free it: it is claimable at once, for fetch or for convert. */
  lemma FreedIsClaimable(db: DB, ctr: nat, ids: seq<int>, below: Option<string>, now: Time, id: int, at: Time)
    requires id in db.wheels && id in ids
    ensures db.wheels[id].state == QUARANTINED ==>
              Dispatch.Claimable(UnquarantineChunk(db, ctr, ids, now).db, FETCH, at, id)
    ensures Dispatch.Claimable(ReprocessChunk(db, ctr, ids, below, now).db, CONVERT, at, id)
  {
    RefetchRowsEffect(db.wheels, ids, ctr, now, id);
    RequeueRowsEffect(db.wheels, ids, ctr, now, id);
  }
}
