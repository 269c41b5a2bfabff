/** The `change_seq` feed: every committed change carries a number above everything visible before
    it, across failed operations, lost batches and restarts. */
module ChangeFeed {
  import opened Prelude
  import opened Ordering
  import opened SegmentFormat
  import opened Schema
  import opened WriteOps
  import opened Reconcile
  import opened Convergence
  import opened Pipeline

  /** The row is new or differs in any column. */
  ghost predicate Touched(before: Wheels, after: Wheels, id: int) {
    id in after && !(id in before && after[id] == before[id])
  }

  /** Every touched row took its own number from the counter range (c, c']. */
  ghost predicate Stamped(before: Wheels, after: Wheels, c: nat, c': nat) {
    && c <= c' && before.Keys <= after.Keys
    && (forall id :: Touched(before, after, id) ==> c < after[id].changeSeq <= c')
    && (forall i, j :: Touched(before, after, i) && Touched(before, after, j) ==>
          (after[i].changeSeq == after[j].changeSeq ==> i == j))
  }

  lemma StampedTrans(a: Wheels, b: Wheels, d: Wheels, c0: nat, c1: nat, c2: nat)
    requires Stamped(a, b, c0, c1) && Stamped(b, d, c1, c2)
    ensures Stamped(a, d, c0, c2)
  {
    forall id | Touched(a, d, id)
      ensures c0 < d[id].changeSeq <= c2
      ensures Touched(b, d, id) || (d[id] == b[id] && Touched(a, b, id))
    {
    }
  }

  lemma OneRow(before: Wheels, id: int, w: Wheel, c: nat)
    requires w.changeSeq == c + 1
    ensures Stamped(before, before[id := w], c, c + 1)
  {
  }

  lemma Unstamped(before: Wheels, c: nat, c': nat)
    requires c <= c'
    ensures Stamped(before, before, c, c')
  {
  }

  // ------------------------------------------------------------------ the loops

  lemma {:induction false} RequeueStamps(wheels: Wheels, ids: seq<int>, c: nat, now: Time)
    ensures Stamped(wheels, RequeueRows(wheels, ids, c, now), c, c + |ids|)
    decreases |ids|
  {
    if ids == [] {
      Unstamped(wheels, c, c);
    } else {
      var next := if ids[0] in wheels then wheels[ids[0] := Requeued(wheels[ids[0]], c + 1, now)] else wheels;
      if ids[0] in wheels {
        OneRow(wheels, ids[0], Requeued(wheels[ids[0]], c + 1, now), c);
      } else {
        Unstamped(wheels, c, c + 1);
      }
      RequeueStamps(next, ids[1..], c + 1, now);
      StampedTrans(wheels, next, RequeueRows(wheels, ids, c, now), c, c + 1, c + |ids|);
    }
  }

  lemma {:induction false} RefetchStamps(wheels: Wheels, ids: seq<int>, c: nat, now: Time)
    ensures Stamped(wheels, RefetchRows(wheels, ids, c, now), c, c + |ids|)
    decreases |ids|
  {
    if ids == [] {
      Unstamped(wheels, c, c);
    } else {
      var next := wheels;
      if IsQuarantined(wheels, ids[0]) {
        var w := wheels[ids[0]].(state := NEED_METADATA, changeSeq := c + 1, updatedAt := now);
        next := wheels[ids[0] := w];
        OneRow(wheels, ids[0], w, c);
      } else {
        Unstamped(wheels, c, c + 1);
      }
      RefetchStamps(next, ids[1..], c + 1, now);
      StampedTrans(wheels, next, RefetchRows(wheels, ids, c, now), c, c + 1, c + |ids|);
    }
  }

  lemma {:induction false} TombstoneStamps(wheels: Wheels, ids: seq<int>, c: nat, now: Time)
    ensures Stamped(wheels, TombstoneRows(wheels, c, ids, now), c, c + |ids|)
    decreases |ids|
  {
    if ids == [] {
      Unstamped(wheels, c, c);
    } else {
      var next := wheels;
      if ids[0] in wheels {
        next := wheels[ids[0] := Tombstone(wheels[ids[0]], c + 1, now)];
        OneRow(wheels, ids[0], Tombstone(wheels[ids[0]], c + 1, now), c);
      } else {
        Unstamped(wheels, c, c + 1);
      }
      TombstoneStamps(next, ids[1..], c + 1, now);
      StampedTrans(wheels, next, TombstoneRows(wheels, c, ids, now), c, c + 1, c + |ids|);
    }
  }

  lemma {:induction false} InsertStamps(db: DB, news: seq<NewWheel>, c: nat, project: string, serial: int, now: Time)
    ensures Stamped(db.wheels, InsertRows(db, c, news, project, serial, now).wheels, c, c + |news|)
    decreases |news|
  {
    if news == [] {
      Unstamped(db.wheels, c, c);
    } else {
      var next := InsertRow(db, c + 1, news[0], project, serial, now);
      if HasFilename(db.wheels, news[0].file.filename) {
        Unstamped(db.wheels, c, c + 1);
      } else {
        OneRow(db.wheels, NextId(db.wheels.Keys), NewRow(news[0], project, serial, c + 1, now), c);
      }
      InsertStamps(next, news[1..], c + 1, project, serial, now);
      StampedTrans(db.wheels, next.wheels, InsertRows(db, c, news, project, serial, now).wheels, c, c + 1, c + |news|);
    }
  }

  lemma {:induction false} ChangeStamps(db: DB, changed: seq<Changed>, c: nat, now: Time)
    ensures Stamped(db.wheels, ChangeRows(db, c, changed, now).wheels, c, c + |changed|)
    decreases |changed|
  {
    if changed == [] {
      Unstamped(db.wheels, c, c);
    } else {
      var next := ChangeRow(db, changed[0], c + 1, now);
      if changed[0].id in db.wheels {
        OneRow(db.wheels, changed[0].id, Patch(db.wheels[changed[0].id], changed[0].changes, c + 1, now), c);
      } else {
        Unstamped(db.wheels, c, c + 1);
      }
      ChangeStamps(next, changed[1..], c + 1, now);
      StampedTrans(db.wheels, next.wheels, ChangeRows(db, c, changed, now).wheels, c, c + 1, c + |changed|);
    }
  }

  lemma PlanStamps(db: DB, plan: Plan, c: nat, now: Time)
    ensures Stamped(db.wheels, ApplyPlan(db, c, plan, now).db.wheels, c, ApplyPlan(db, c, plan, now).ctr)
  {
    var c2 := c + |plan.newWheels| + |plan.changed|;
    var d2 := Updated(db, c, plan, now);
    UpdatesStamp(db, plan, c, now);
    SweepStamps(db.wheels, d2.wheels, ApplyPlan(db, c, plan, now).db.wheels, c, c2, plan.vanished, now);
  }

  lemma UpdatesStamp(db: DB, plan: Plan, c: nat, now: Time)
    ensures Stamped(db.wheels, Updated(db, c, plan, now).wheels, c, c + |plan.newWheels| + |plan.changed|)
  {
    var d1 := InsertRows(db, c, plan.newWheels, plan.project, plan.serial, now);
    var c1 := c + |plan.newWheels|;
    InsertStamps(db, plan.newWheels, c, plan.project, plan.serial, now);
    ChangeStamps(d1, plan.changed, c1, now);
    StampedTrans(db.wheels, d1.wheels, Updated(db, c, plan, now).wheels, c, c1, c1 + |plan.changed|);
  }

  lemma SweepStamps(before: Wheels, mid: Wheels, after: Wheels, c: nat, c2: nat, vanished: seq<int>, now: Time)
    requires Stamped(before, mid, c, c2) && after == TombstoneRows(mid, c2, vanished, now)
    ensures Stamped(before, after, c, c2 + |vanished|)
  {
    TombstoneStamps(mid, vanished, c2, now);
    StampedTrans(before, mid, after, c, c2, c2 + |vanished|);
  }

  lemma AdvanceStamps(before: Wheels, after: Wheels, id: int, c: nat)
    requires after == before || (id in after && after == before[id := after[id]] && after[id].changeSeq == c + 1)
    ensures Stamped(before, after, c, c + 1)
  {
    if after != before {
      OneRow(before, id, after[id], c);
    }
  }

  lemma OutcomeStamps(op: Op, db: DB, c: nat)
    requires op.FetchOk? || op.ConvertOk? || op.SkipOutcome? || op.RetryOutcome?
    ensures Stamped(db.wheels, Committed(db, Run(op, db, c)).wheels, c, Run(op, db, c).ctr)
  {
    var after := Committed(db, Run(op, db, c)).wheels;
    if Run(op, db, c).ctr == c {
      assert after == db.wheels;
    } else {
      AdvanceStamps(db.wheels, after, op.item.id, c);
    }
  }

  /** Every operation but archive recovery stamps each row it changes. */
  lemma OpStamps(op: Op, db: DB, c: nat)
    requires !op.Recover?
    ensures Stamped(db.wheels, Committed(db, Run(op, db, c)).wheels, c, Run(op, db, c).ctr)
  {
    match op
    case Reprocess(ids, below, now) => RequeueStamps(db.wheels, ids, c, now);
    case Unquarantine(ids, now) => RefetchStamps(db.wheels, ids, c, now);
    case Sync(project, serial, files, now) => PlanStamps(db, SyncPlan(db, project, serial, files), c, now);
    case Gone(project, now) => TombstoneStamps(db.wheels, Ids(Sorted(LiveIds(db.wheels, project))), c, now);
    case _ => OutcomeStamps(op, db, c);
  }

  predicate NoRecovery(ops: seq<Op>) {
    ops == [] || (!ops[0].Recover? && NoRecovery(ops[1..]))
  }

  lemma {:induction false} RunStamps(ops: seq<Op>, db: DB, c: nat)
    requires NoRecovery(ops)
    ensures Stamped(db.wheels, RunAll(ops, db, c).0.wheels, c, RunAll(ops, db, c).1)
    decreases |ops|
  {
    if ops == [] {
      Unstamped(db.wheels, c, c);
    } else {
      var r := Run(ops[0], db, c);
      OpStamps(ops[0], db, c);
      RunStamps(ops[1..], Committed(db, r), r.ctr);
      StampedTrans(db.wheels, Committed(db, r).wheels, RunAll(ops, db, c).0.wheels, c, r.ctr, RunAll(ops, db, c).1);
    }
  }

  // -------------------------------------------------- commits, losses, restarts

  /** The counter covers every stored number, and no two wheels share one. */
  ghost predicate SeqsOk(wheels: Wheels, c: nat) {
    && (forall id :: id in wheels ==> wheels[id].changeSeq <= c)
    && (forall i, j :: i in wheels && j in wheels && wheels[i].changeSeq == wheels[j].changeSeq ==> i == j)
  }

  /** `Writer.start`: SELECT COALESCE(MAX(change_seq), 0) FROM wheels. */
  ghost predicate IsMaxSeq(wheels: Wheels, c: nat) {
    && (forall id :: id in wheels ==> wheels[id].changeSeq <= c)
    && (c == 0 || exists id :: id in wheels && wheels[id].changeSeq == c)
  }

  /** A committed batch; a batch whose commit failed, so that only the counter moved; a new process. */
  datatype Event = Commit(ops: seq<Op>) | Lost(ops: seq<Op>) | Restart(loaded: nat)

  ghost predicate CanHappen(e: Event, db: DB, c: nat) {
    match e
    case Commit(ops) => NoRecovery(ops)
    case Lost(ops) => NoRecovery(ops)
    case Restart(loaded) => IsMaxSeq(db.wheels, loaded)
  }

  function After(e: Event, db: DB, c: nat): (DB, nat) {
    match e
    case Commit(ops) => RunAll(ops, db, c)
    case Lost(ops) => (db, RunAll(ops, db, c).1)
    case Restart(loaded) => (db, loaded)
  }

  /** A reader that saw `before` finds every later change by asking for larger numbers. */
  ghost predicate FeedsFrom(before: Wheels, after: Wheels) {
    && before.Keys <= after.Keys
    && forall id, x :: Touched(before, after, id) && x in before ==> after[id].changeSeq > before[x].changeSeq
  }

  lemma StampedFeeds(before: Wheels, after: Wheels, c: nat, c': nat)
    requires Stamped(before, after, c, c') && SeqsOk(before, c)
    ensures FeedsFrom(before, after) && SeqsOk(after, c')
  {
    forall i, j | i in after && j in after && after[i].changeSeq == after[j].changeSeq
      ensures i == j
    {
      if Touched(before, after, i) != Touched(before, after, j) {
        assert false;
      }
    }
  }

  lemma FeedsTrans(a: Wheels, b: Wheels, d: Wheels)
    requires FeedsFrom(a, b) && FeedsFrom(b, d)
    ensures FeedsFrom(a, d)
  {
    forall id, x | Touched(a, d, id) && x in a
      ensures d[id].changeSeq > a[x].changeSeq
    {
      assert b[x].changeSeq >= a[x].changeSeq by {
        if Touched(a, b, x) {
        }
      }
      if !Touched(b, d, id) {
        assert Touched(a, b, id);
      }
    }
  }

  lemma EventFeeds(e: Event, db: DB, c: nat)
    requires SeqsOk(db.wheels, c) && CanHappen(e, db, c)
    ensures FeedsFrom(db.wheels, After(e, db, c).0.wheels) && SeqsOk(After(e, db, c).0.wheels, After(e, db, c).1)
  {
    match e
    case Commit(ops) =>
      RunStamps(ops, db, c);
      StampedFeeds(db.wheels, RunAll(ops, db, c).0.wheels, c, RunAll(ops, db, c).1);
    case Lost(ops) =>
      RunStamps(ops, db, c);
    case Restart(loaded) =>
  }

  function AfterAll(es: seq<Event>, db: DB, c: nat): (DB, nat) {
    if es == [] then (db, c) else AfterAll(es[1..], After(es[0], db, c).0, After(es[0], db, c).1)
  }

  ghost predicate CanHappenAll(es: seq<Event>, db: DB, c: nat) {
    es == [] || (CanHappen(es[0], db, c) && CanHappenAll(es[1..], After(es[0], db, c).0, After(es[0], db, c).1))
  }

  /** Change feed completeness: between any two committed states of a run, every row that differs
      carries a number above all numbers visible in the earlier one, and numbers stay unique. */
  lemma {:induction false} FeedComplete(es: seq<Event>, db: DB, c: nat)
    requires SeqsOk(db.wheels, c) && CanHappenAll(es, db, c)
    ensures FeedsFrom(db.wheels, AfterAll(es, db, c).0.wheels)
    ensures SeqsOk(AfterAll(es, db, c).0.wheels, AfterAll(es, db, c).1)
    decreases |es|
  {
    if es != [] {
      var (db', c') := After(es[0], db, c);
      EventFeeds(es[0], db, c);
      FeedComplete(es[1..], db', c');
      FeedsTrans(db.wheels, db'.wheels, AfterAll(es, db, c).0.wheels);
    }
  }

  /** Recovery is the exception: it rewrites a wheel in place, so a reader at the current maximum misses it. */
  lemma RecoveryIsSilent(db: DB, shas: set<Digest>, id: int)
    requires id in db.wheels && LinkedTo(db.wheels[id], shas)
    ensures Touched(db.wheels, RecoverChunk(db, shas).wheels, id)
    ensures RecoverChunk(db, shas).wheels[id].changeSeq == db.wheels[id].changeSeq
    ensures !FeedsFrom(db.wheels, RecoverChunk(db, shas).wheels)
  {
    assert RecoverChunk(db, shas).wheels[id].blob == None;
  }

  /** Exactly the recoveries that reset no live wheel leave the feed complete. */
  lemma RecoveryFeedsIff(db: DB, shas: set<Digest>)
    ensures FeedsFrom(db.wheels, RecoverChunk(db, shas).wheels) <==>
            forall id :: id in db.wheels ==> !LinkedTo(db.wheels[id], shas)
  {
    forall id | id in db.wheels && LinkedTo(db.wheels[id], shas)
      ensures !FeedsFrom(db.wheels, RecoverChunk(db, shas).wheels)
    {
      RecoveryIsSilent(db, shas, id);
    }
  }
}
