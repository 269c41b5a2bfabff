/** `writer.py`: one thread applies submitted operations in batches, each inside its savepoint, and
    resolves them once their batch has committed. Every method is one atomic step of a thread. */
module SingleWriter {
  import opened Prelude
  import opened Schema
  import Pipeline
  import ChangeFeed

  /** `_Outcome`: the reply, or which exception a waiting caller is given. */
  datatype Outcome = Returned(reply: Reply) | OpRaised | CommitFailed | Dropped

  datatype SubmitOutcome = Queued | Blocked | Refused

  /** A queued operation with its place in submission order. */
  datatype Ticket<O> = Ticket(n: nat, op: O)

  type Runner<!O> = (O, DB, nat) -> Applied

  datatype Point = Point(db: DB, ctr: nat)

  function Next<O>(run: Runner<O>, op: O, p: Point): Point {
    var r := run(op, p.db, p.ctr);
    Point(Committed(p.db, r), r.ctr)
  }

  function OutcomeOf(r: Applied): Outcome {
    if r.Applied? then Returned(r.reply) else OpRaised
  }

  /** `trace[i]` is the database and the counter before operation i. */
  ghost predicate IsTrace<O>(run: Runner<O>, ops: seq<O>, trace: seq<Point>) {
    && 0 < |trace| <= |ops| + 1
    && forall i :: 0 <= i < |trace| - 1 ==> trace[i + 1] == Next(run, ops[i], trace[i])
  }

  /** What operation i has coming, once committed. */
  ghost function Deserved<O>(run: Runner<O>, op: O, p: Point): Outcome {
    OutcomeOf(run(op, p.db, p.ctr))
  }

  /** Submission order is kept: the unresolved tickets are the last ones, in order. */
  ghost predicate InOrder<O>(submitted: seq<O>, open: seq<Ticket<O>>) {
    && |open| <= |submitted|
    && forall i :: 0 <= i < |open| ==> open[i] == Ticket(|submitted| - |open| + i, submitted[|submitted| - |open| + i])
  }

  /** Exactly the first `told` tickets have been answered: each with its own outcome if it was
      committed, with an error otherwise. */
  ghost predicate Answered<O>(run: Runner<O>, submitted: seq<O>, trace: seq<Point>, outcomes: map<nat, Outcome>,
                              told: nat)
    requires told <= |submitted| && 0 < |trace| <= |submitted| + 1
  {
    && (forall t: nat :: t in outcomes <==> t < told)
    && (forall t: nat :: t < told && t < |trace| - 1 ==> outcomes[t] == Deserved(run, submitted[t], trace[t]))
    && (forall t: nat :: t < told && t >= |trace| - 1 ==> outcomes[t] == CommitFailed || outcomes[t] == Dropped)
  }

  /** The results at hand are those of the tickets from `told` on. */
  ghost predicate Earned<O>(run: Runner<O>, submitted: seq<O>, trace: seq<Point>, results: seq<Outcome>, told: nat)
    requires 0 < |trace| <= |submitted| + 1
  {
    && (results != [] ==> told + |results| <= |trace| - 1)
    && forall i :: 0 <= i < |results| ==> results[i] == Deserved(run, submitted[told + i], trace[told + i])
  }

  lemma InOrderAppend<O>(submitted: seq<O>, open: seq<Ticket<O>>, op: O)
    requires InOrder(submitted, open)
    ensures InOrder(submitted + [op], open + [Ticket(|submitted|, op)])
  {
  }

  lemma TraceGrows<O>(run: Runner<O>, ops: seq<O>, trace: seq<Point>)
    requires IsTrace(run, ops, trace) && |trace| <= |ops|
    ensures IsTrace(run, ops, trace + [Next(run, ops[|trace| - 1], trace[|trace| - 1])])
  {
  }

  /** Tickets numbered from `first` without a gap. */
  ghost predicate Numbered<O>(ops: seq<Ticket<O>>, first: nat) {
    forall i :: 0 <= i < |ops| ==> ops[i].n == first + i
  }

  /** The writer's books: what was submitted is what was answered, then what is open, in order; the
      trace covers exactly the committed operations. */
  ghost predicate Books<O>(run: Runner<O>, submitted: seq<O>, trace: seq<Point>, outcomes: map<nat, Outcome>,
                           results: seq<Outcome>,
                           flushed: seq<Ticket<O>>, batch: seq<Ticket<O>>, queue: seq<Ticket<O>>, running: bool)
  {
    var open := flushed + batch + queue;
    && InOrder(submitted, open)
    && IsTrace(run, submitted, trace) && (running ==> |trace| - 1 == |submitted| - |batch| - |queue|)
    && Answered(run, submitted, trace, outcomes, |submitted| - |open|)
    && |results| == |flushed| && Earned(run, submitted, trace, results, |submitted| - |open|)
  }

  lemma CommitBooks<O>(run: Runner<O>, submitted: seq<O>, trace: seq<Point>, grown: seq<Point>,
                       outcomes: map<nat, Outcome>, outs: seq<Outcome>,
                       batch: seq<Ticket<O>>, queue: seq<Ticket<O>>)
    requires Books(run, submitted, trace, outcomes, [], [], batch, queue, true)
    requires IsTrace(run, submitted, grown) && |grown| == |trace| + |batch| && grown[..|trace|] == trace
    requires |outs| == |batch| && Earned(run, submitted, grown, outs, |trace| - 1)
    ensures Books(run, submitted, grown, outcomes, outs, batch, [], queue, true)
  {
    assert [] + batch + queue == batch + [] + queue;
    assert forall t: nat :: t < |trace| - 1 ==> grown[t] == grown[..|trace|][t];
  }

  lemma SubmitBooks<O>(run: Runner<O>, submitted: seq<O>, trace: seq<Point>, outcomes: map<nat, Outcome>,
                       results: seq<Outcome>,
                       flushed: seq<Ticket<O>>, batch: seq<Ticket<O>>, queue: seq<Ticket<O>>, running: bool, op: O)
    requires Books(run, submitted, trace, outcomes, results, flushed, batch, queue, running)
    ensures Books(run, submitted + [op], trace, outcomes, results, flushed, batch, queue + [Ticket(|submitted|, op)],
                  running)
  {
    InOrderAppend(submitted, flushed + batch + queue, op);
    assert flushed + batch + (queue + [Ticket(|submitted|, op)]) == flushed + batch + queue + [Ticket(|submitted|, op)];
    assert forall i :: 0 <= i < |submitted| ==> (submitted + [op])[i] == submitted[i];
  }

  /** A committed batch leaves the books once each of its tickets has its own result. */
  lemma ResolveBooks<O>(run: Runner<O>, submitted: seq<O>, trace: seq<Point>, before: map<nat, Outcome>,
                        after: map<nat, Outcome>, results: seq<Outcome>,
                        flushed: seq<Ticket<O>>, batch: seq<Ticket<O>>, queue: seq<Ticket<O>>)
    requires Books(run, submitted, trace, before, results, flushed, batch, queue, true)
    requires var told := |submitted| - |flushed + batch + queue|;
             && (forall t: nat :: t in after <==>
                     t < told + |flushed|) && (forall t: nat :: t < told ==> after[t] == before[t])
             && (forall t: nat :: told <= t < told + |flushed| ==> after[t] == results[t - told])
    ensures Books(run, submitted, trace, after, [], [], batch, queue, true)
  {
    var open := flushed + batch + queue;
    assert [] + batch + queue == batch + queue;
    assert forall i :: 0 <= i < |batch + queue| ==> (batch + queue)[i] == open[|flushed| + i];
  }

  /** Answering tickets with an error closes the books as well. */
  lemma FatalBooks<O>(run: Runner<O>, submitted: seq<O>, trace: seq<Point>, before: map<nat, Outcome>,
                      after: map<nat, Outcome>,
                      batch: seq<Ticket<O>>, queue: seq<Ticket<O>>)
    requires Books(run, submitted, trace, before, [], [], batch, queue, true)
    requires forall t: nat :: t in after <==> t < |submitted|
    requires forall t: nat :: t < |trace| - 1 ==> after[t] == before[t]
    requires forall t: nat :: |trace| - 1 <= t < |submitted| ==> after[t] == CommitFailed || after[t] == Dropped
    ensures Books(run, submitted, trace, after, [], [], [], [], false)
  {
  }

  lemma BatchOps<O>(submitted: seq<O>, batch: seq<Ticket<O>>, queue: seq<Ticket<O>>)
    requires InOrder(submitted, [] + batch + queue)
    ensures forall i :: 0 <= i < |batch| ==> batch[i].op == submitted[|submitted| - |batch| - |queue| + i]
  {
    assert forall i :: 0 <= i < |batch| ==> batch[i] == ([] + batch + queue)[i];
  }

  lemma OpenNumbered<O>(submitted: seq<O>, batch: seq<Ticket<O>>, queue: seq<Ticket<O>>)
    requires InOrder(submitted, [] + batch + queue)
    ensures Numbered(batch, |submitted| - |batch| - |queue|) && Numbered(batch + queue, |submitted| - |batch| - |queue|)
    ensures Numbered([] + queue, |submitted| - |queue|)
  {
    var open := [] + batch + queue;
    assert open == batch + queue;
    assert forall i :: 0 <= i < |batch| ==> batch[i] == open[i];
    assert forall i :: 0 <= i < |queue| ==> ([] + queue)[i] == open[|batch| + i];
  }

  class Writer<O(!new)> {
    const run: Runner<O>
    const batchSize: nat
    const batchInterval: real
    const maxsize: nat
    var db: DB                       // the committed database
    var changeSeq: nat
    var queue: seq<Ticket<O>>
    var batch: seq<Ticket<O>>
    var deadline: Option<real>       // when the batch at hand is old enough to commit
    var flushed: seq<Ticket<O>>      // committed, not yet resolved
    var results: seq<Outcome>        // the outcomes of `flushed`
    var outcomes: map<nat, Outcome>  // what each waiting caller has been told
    var tickets: nat                 // how many operations were ever accepted
    var stopped: bool
    var drainOnStop: bool
    var stopRequested: bool
    var stopSeen: bool               // the loop's own reading of `stopRequested`
    var running: bool
    ghost var submitted: seq<O>
    ghost var trace: seq<Point>      // one point per committed operation, and the start

    /** The flags: a thread that has ended has left nothing open. */
    ghost predicate Flags()
      reads this
    {
      && (!running ==> flushed + batch + queue == [] && stopped)
      && (stopRequested ==> stopped) && (stopSeen ==> stopRequested)
      && (running ==> (deadline.Some? <==> batch != []))
    }

    /** Everything but the counter, which a failed commit leaves ahead of the database. */
    ghost predicate Consistent()
      reads this
    {
      && Flags() && tickets == |submitted|
      && Books(run, submitted, trace, outcomes, results, flushed, batch, queue, running)
      && db == trace[|trace| - 1].db
    }

    ghost predicate Valid()
      reads this
    {
      Consistent() && (running ==> changeSeq == trace[|trace| - 1].ctr)
    }

    /** In every state: the committed database is the first operations submitted, run in order from
        the start, and a caller has been told a reply only for one of them. */
    lemma CommittedIs()
      requires Valid()
      ensures db == Final(run, submitted[..|trace| - 1], trace[0]).db
      ensures ApplyEach(run, Survivors(run, submitted[..|trace| - 1], trace[0]), trace[0].db) == Some(db)
      ensures forall t: nat :: t in outcomes && (outcomes[t].Returned? || outcomes[t].OpRaised?) ==> t < |trace| - 1
    {
      TraceIsFinal(run, submitted, trace);
      OnlySurvivorsCount(run, submitted[..|trace| - 1], trace[0]);
    }

    /** `start`: the counter is loaded from the stored maximum. */
    constructor (run: Runner<O>, batchSize: nat, batchInterval: real, maxsize: nat, db: DB, loaded: nat)
      ensures Valid() && running && !stopped && !stopRequested && !stopSeen
      ensures this.run == run && this.batchSize == batchSize && this.maxsize == maxsize
      ensures this.batchInterval == batchInterval
      ensures submitted == [] && trace == [Point(db, loaded)]
    {
      this.run, this.batchSize, this.batchInterval, this.maxsize := run, batchSize, batchInterval, maxsize;
      this.db, changeSeq := db, loaded;
      queue, batch, deadline, flushed, results, outcomes := [], [], None, [], [], map[];
      stopped, drainOnStop, stopRequested, stopSeen, running := false, true, false, false, true;
      tickets, submitted, trace := 0, [], [Point(db, loaded)];
    }

    /** `queue.Queue`: a size limit of zero is no limit. */
    predicate Full() reads this { 0 < maxsize <= |queue| }

    /** One attempt of `submit`: refused once stopped, blocked on a full queue, appended otherwise. */
    method Submit(op: O) returns (outcome: SubmitOutcome)
      requires Valid()
      modifies `queue, `tickets, `submitted
      ensures Valid()
      ensures outcome == if stopped then Refused else if 0 < maxsize <= |old(queue)| then Blocked else Queued
      ensures submitted == if outcome.Queued? then old(submitted) + [op] else old(submitted)
      ensures queue == if outcome.Queued? then old(queue) + [Ticket(|old(submitted)|, op)] else old(queue)
    {
      if stopped {
        return Refused;
      }
      if Full() {
        return Blocked;
      }
      SubmitBooks(run, submitted, trace, outcomes, results, flushed, batch, queue, running, op);
      queue := queue + [Ticket(tickets, op)];
      tickets := tickets + 1;
      submitted := submitted + [op];
      return Queued;
    }

    /** `stop`, first half: under the lifecycle lock. */
    method StopIntake(drain: bool)
      requires Valid()
      modifies `stopped, `drainOnStop
      ensures Valid() && stopped && drainOnStop == if old(stopped) then old(drainOnStop) else drain
    {
      if !stopped {
        drainOnStop, stopped := drain, true;
      }
    }

    /** `stop`, second half. */
    method RequestStop()
      requires Valid() && stopped
      modifies `stopRequested
      ensures Valid() && stopRequested
    {
      stopRequested := true;
    }

    /** `queue.get`, and the reading of the stop flag that the rest of the turn uses. The first operation
        of a batch sets its deadline. */
    method Poll(now: real)
      requires Valid() && running && flushed == []
      modifies `queue, `batch, `deadline, `stopSeen
      ensures Valid() && stopSeen == stopRequested && batch + queue == old(batch + queue)
      ensures |queue| == if old(|queue|) == 0 then 0 else old(|queue|) - 1
      ensures deadline == if old(batch) == [] && old(queue) != [] then Some(now + batchInterval) else old(deadline)
    {
      if queue != [] {
        assert batch + [queue[0]] + queue[1..] == batch + queue;
        assert flushed + (batch + [queue[0]]) + queue[1..] == flushed + batch + queue;
        batch, queue := batch + [queue[0]], queue[1..];
        if deadline.None? {
          deadline := Some(now + batchInterval);
        }
      }
      stopSeen := stopRequested;
    }

    /** `_apply_op`: a raise rolls back to the savepoint; the counter is not rolled back. */
    method ApplyOp(op: O, tx: DB) returns (tx': DB, outcome: Outcome)
      modifies `changeSeq
      ensures Point(tx', changeSeq) == Next(run, op, Point(tx, old(changeSeq)))
      ensures outcome == Deserved(run, op, Point(tx, old(changeSeq)))
    {
      var r := run(op, tx, changeSeq);
      changeSeq := r.ctr;
      if r.Raised? {
        return tx, OpRaised;
      }
      return r.db, Returned(r.reply);
    }

    /** The batch inside its transaction. `fault` is where the connection itself fails: before an
        operation, or at COMMIT. */
    method ApplyBatch(fault: Option<nat>) returns (ok: bool, tx: DB, outs: seq<Outcome>, ghost grown: seq<Point>)
      requires IsTrace(run, submitted, trace) && Point(db, changeSeq) == trace[|trace| - 1]
      requires |trace| - 1 + |batch| <= |submitted|
      requires forall i :: 0 <= i < |batch| ==> batch[i].op == submitted[|trace| - 1 + i]
      modifies `changeSeq
      ensures ok == fault.None?
      ensures ok ==> |grown| == |trace| + |batch| && grown[..|trace|] == trace && IsTrace(run, submitted, grown)
      ensures ok ==> Point(tx, changeSeq) == grown[|grown| - 1]
      ensures ok ==> |outs| == |batch| && Earned(run, submitted, grown, outs, |trace| - 1)
    {
      grown, ok, tx, outs := trace, false, db, [];
      for i := 0 to |batch|
        invariant |grown| == |trace| + i && grown[..|trace|] == trace && IsTrace(run, submitted, grown)
        invariant Point(tx, changeSeq) == grown[|grown| - 1]
        invariant |outs| == i && Earned(run, submitted, grown, outs, |trace| - 1)
        invariant !ok
      {
        if fault == Some(i) {
          return;
        }
        TraceGrows(run, submitted, grown);
        grown := grown + [Next(run, submitted[|grown| - 1], grown[|grown| - 1])];
        var tx', out := ApplyOp(batch[i].op, tx);
        tx, outs := tx', outs + [out];
      }
      ok := fault.None?;
    }

    /** `_commit_batch`. */
    method CommitBatch(fault: Option<nat>) returns (ok: bool)
      requires Valid() && running && flushed == []
      modifies `db, `changeSeq, `batch, `deadline, `flushed, `results, `trace
      ensures ok == fault.None?
      ensures ok ==> Valid() && flushed == old(batch) && batch == [] && |trace| == old(|trace|) + |old(batch)|
      ensures !ok ==> Consistent() && flushed == [] && batch == old(batch) && db == old(db) && trace == old(trace)
    {
      BatchOps(submitted, batch, queue);
      var tx, outs;
      ghost var grown;
      ok, tx, outs, grown := ApplyBatch(fault);
      if ok {
        CommitBooks(run, submitted, trace, grown, outcomes, outs, batch, queue);
        Install(tx, outs, grown);
      }
    }

    /** COMMIT: the transaction's state becomes the database, the batch waits to be answered. */
    method Install(tx: DB, outs: seq<Outcome>, ghost grown: seq<Point>)
      requires running && flushed == [] && Flags() && tickets == |submitted|
      requires Books(run, submitted, grown, outcomes, outs, batch, [], queue, true)
      requires Point(tx, changeSeq) == grown[|grown| - 1]
      modifies `db, `batch, `deadline, `flushed, `results, `trace
      ensures Valid() && flushed == old(batch) && batch == [] && trace == grown
    {
      db, trace, flushed, results, batch, deadline := tx, grown, batch, outs, [], None;
    }

    /** `_resolve`: each caller is told its outcome. */
    method Resolve(ops: seq<Ticket<O>>, outs: seq<Outcome>, ghost first: nat)
      requires |ops| == |outs| && Numbered(ops, first)
      requires forall t: nat :: t in outcomes <==> t < first
      modifies `outcomes
      ensures forall t: nat :: t in outcomes <==> t < first + |ops|
      ensures forall t: nat :: t < first ==> outcomes[t] == old(outcomes)[t]
      ensures forall t: nat :: first <= t < first + |ops| ==> outcomes[t] == outs[t - first]
    {
      for i := 0 to |ops|
        invariant forall t: nat :: t in outcomes <==> t < first + i
        invariant forall t: nat :: t < first ==> outcomes[t] == old(outcomes)[t]
        invariant forall t: nat :: first <= t < first + i ==> outcomes[t] == outs[t - first]
      {
        outcomes := outcomes[ops[i].n := outs[i]];
      }
    }

    /** The flushed batch is answered after its commit. */
    method ResolveFlushed()
      requires Valid() && running
      modifies `outcomes, `flushed, `results
      ensures Valid() && flushed == []
    {
      ghost var told := |submitted| - |flushed + batch + queue|;
      assert forall i :: 0 <= i < |flushed| ==> (flushed + batch + queue)[i] == flushed[i];
      Resolve(flushed, results, told);
      ResolveBooks(run, submitted, trace, old(outcomes), outcomes, results, flushed, batch, queue);
      flushed, results := [], [];
    }

    /** `_discard_pending`: take whatever is still queued, and tell every leftover caller it was dropped. */
    method DiscardPending(pending: seq<Ticket<O>>, ghost first: nat)
      requires Numbered(pending + queue, first)
      requires forall t: nat :: t in outcomes <==> t < first
      modifies `queue, `outcomes
      ensures queue == []
      ensures forall t: nat :: t in outcomes <==> t < first + |pending| + |old(queue)|
      ensures forall t: nat :: t < first ==> outcomes[t] == old(outcomes)[t]
      ensures forall t: nat :: first <= t < first + |pending| + |old(queue)| ==> outcomes[t] == Dropped
    {
      var leftover := pending;
      while queue != []
        modifies `queue
        invariant leftover + queue == pending + old(queue)
        decreases |queue|
      {
        assert leftover + [queue[0]] + queue[1..] == leftover + queue;
        leftover, queue := leftover + [queue[0]], queue[1..];
      }
      assert leftover == pending + old(queue);
      Resolve(leftover, seq(|leftover|, _ => Dropped), first);
    }

    /** `_fail_fatally`: the batch is answered with the error, the queue with "discarded". */
    method FailFatally()
      requires Consistent() && running && flushed == []
      modifies `stopped, `stopRequested, `queue, `batch, `outcomes, `running
      ensures Valid() && !running && stopped && stopRequested
      ensures forall t: nat :: |trace| - 1 <= t < |trace| - 1 + |old(batch)| ==>
                t in outcomes && outcomes[t] == CommitFailed
      ensures forall t: nat :: |trace| - 1 + |old(batch)| <= t < |submitted| ==> t in outcomes && outcomes[t] == Dropped
    {
      ghost var told, before, waiting := |trace| - 1, outcomes, queue;
      OpenNumbered(submitted, batch, queue);
      stopped, stopRequested := true, true;
      Resolve(batch, seq(|batch|, _ => CommitFailed), told);
      DiscardPending([], told + |batch|);
      FatalBooks(run, submitted, trace, before, outcomes, batch, waiting);
      batch, running := [], false;
    }

    /** The end of a turn: leave if asked to, and if draining only once nothing is open. */
    method MaybeExit()
      requires Valid() && running && flushed == []
      modifies `queue, `batch, `outcomes, `running
      ensures Valid() && trace == old(trace)
      ensures running <==> !stopSeen || (drainOnStop && (old(batch) != [] || old(queue) != []))
      ensures running ==> batch == old(batch) && queue == old(queue)
      ensures !running && drainOnStop ==> |trace| - 1 == |submitted|
      ensures forall t: nat :: |trace| - 1 <= t < |submitted| && !running ==> t in outcomes && outcomes[t] == Dropped
    {
      if stopSeen {
        if !drainOnStop {
          OpenNumbered(submitted, batch, queue);
          DiscardPending(batch, |submitted| - |batch| - |queue|);
          batch, running := [], false;
        } else if queue == [] && batch == [] {
          running := false;
        }
      }
    }

    /** The batch at hand is committed whole and answered, or the thread ends and everyone hears an error. */
    method CommitAndAnswer(fault: Option<nat>)
      requires Valid() && running && flushed == []
      modifies `db, `changeSeq, `queue, `batch, `deadline, `flushed, `results, `trace,
               `outcomes, `stopped, `stopRequested, `running
      ensures Valid() && flushed == [] && (running <==> fault.None?)
      ensures running ==> queue == old(queue) && stopped == old(stopped) && stopRequested == old(stopRequested)
      ensures running ==> batch == [] && |trace| == old(|trace|) + |old(batch)|
      ensures running ==> forall t: nat :: old(|trace|) - 1 <= t < |trace| - 1 ==> t in outcomes
      ensures !running ==> db == old(db) && trace == old(trace)
    {
      var ok := CommitBatch(fault);
      if !ok {
        FailFatally();
      } else {
        ResolveFlushed();
      }
    }

    /** Commit when the batch is large enough, old enough, or the last of a drain; then answer it. With a
        working connection a due batch is committed whole and answered in the same step, and a batch that
        is not due is left alone. */
    method FlushIfDue(now: real, fault: Option<nat>)
      requires Valid() && running && flushed == []
      modifies `db, `changeSeq, `queue, `batch, `deadline, `flushed, `results, `trace,
               `outcomes, `stopped, `stopRequested, `running
      ensures Valid() && flushed == []
      ensures running ==> queue == old(queue) && stopped == old(stopped) && stopRequested == old(stopRequested)
      ensures fault.None? ==> running
      ensures old(batch != [] && (|batch| >= batchSize || now >= deadline.value
                                  || (stopSeen && drainOnStop && queue == []))) ==>
                if fault.Some? then !running && db == old(db) && trace == old(trace)
                else batch == [] && |trace| == old(|trace|) + |old(batch)| &&
                     forall t: nat :: old(|trace|) - 1 <= t < |trace| - 1 ==> t in outcomes
      ensures !old(batch != [] && (|batch| >= batchSize || now >= deadline.value
                                   || (stopSeen && drainOnStop && queue == []))) ==>
                && running && db == old(db) && changeSeq == old(changeSeq) && trace == old(trace)
                && batch == old(batch) && deadline == old(deadline) && outcomes == old(outcomes)
    {
      var sizeReached := |batch| >= batchSize;
      var elapsed := deadline.Some? && now >= deadline.value;
      var drainFlush := stopSeen && drainOnStop && queue == [];
      if batch != [] && (sizeReached || elapsed || drainFlush) {
        CommitAndAnswer(fault);
      }
    }

    /** Nothing at hand is due: the batch is empty, or neither full nor old enough. */
    ghost predicate NotDue(now: real)
      reads this
    {
      batch == [] || (|batch| < batchSize && deadline.Some? && now < deadline.value)
    }

    /** The first half of a turn. */
    method PollAndFlush(polled: real, now: real, fault: Option<nat>)
      requires Valid() && running && flushed == []
      modifies `db, `changeSeq, `queue, `batch, `deadline, `flushed, `results, `trace,
               `outcomes, `stopped, `stopRequested, `stopSeen, `running
      ensures Valid() && flushed == [] && (fault.None? ==> running)
      ensures running ==> stopSeen == stopRequested == old(stopRequested) && NotDue(now)
      ensures running && stopSeen && drainOnStop && queue == [] ==> batch == []
      ensures running ==> |queue| == if old(|queue|) == 0 then 0 else old(|queue|) - 1
      ensures running && batch != [] ==>
                deadline == if old(batch) == [] then Some(polled + batchInterval) else old(deadline)
      ensures old(batch) == [] && old(queue) == [] ==> db == old(db) && trace == old(trace)
    {
      Poll(polled);
      FlushIfDue(now, fault);
    }

    /** One turn of `_run`: poll, commit when due, resolve, and perhaps exit. What is left open after a
        turn is a batch that is neither full nor due, and its deadline was set when it was begun. */
    method Turn(polled: real, now: real, fault: Option<nat>)
      requires Valid() && running && flushed == []
      modifies this
      ensures Valid() && flushed == [] && submitted == old(submitted) && drainOnStop == old(drainOnStop)
      ensures running ==> stopRequested == old(stopRequested) && NotDue(now)
      ensures old(stopRequested) && running ==> drainOnStop && |queue| < old(|queue|)
      ensures fault.None? && !running ==> !drainOnStop || |trace| - 1 == |submitted|
      ensures running ==> |queue| == if old(|queue|) == 0 then 0 else old(|queue|) - 1
      ensures running && batch != [] ==>
                deadline == if old(batch) == [] then Some(polled + batchInterval) else old(deadline)
    {
      PollAndFlush(polled, now, fault);
      if running {
        MaybeExit();
      }
    }

    /** Once stop has been requested the thread ends, however the clock and the connection behave:
        nothing is left unanswered, and a drain whose commits succeed has applied every operation. */
    method Finish(polled: nat -> real, now: nat -> real, fault: nat -> Option<nat>)
      requires Valid() && running && flushed == [] && stopRequested
      modifies this
      ensures Valid() && !running && submitted == old(submitted)
      ensures forall t: nat :: t < |submitted| ==> t in outcomes
      ensures drainOnStop == old(drainOnStop)
      ensures drainOnStop && (forall k :: fault(k).None?) ==>
        |trace| - 1 == |submitted| && forall t: nat :: t < |submitted| ==>
              outcomes[t] == Deserved(run, submitted[t], trace[t])
    {
      var k := 0;
      while running
        invariant Valid() && flushed == [] && submitted == old(submitted) && drainOnStop == old(drainOnStop)
        invariant running ==> stopRequested
        invariant (forall j :: fault(j).None?) && !running ==> !drainOnStop || |trace| - 1 == |submitted|
        decreases running, |queue|
      {
        Turn(polled(k), now(k), fault(k));
        k := k + 1;
      }
    }
  }

  // --------------------------------------------- what the committed database is

  /** Every operation in turn. */
  function Final<O>(run: Runner<O>, ops: seq<O>, p: Point): Point
    decreases |ops|
  {
    if ops == [] then p else Final(run, ops[1..], Next(run, ops[0], p))
  }

  lemma {:induction false} TraceIsFinal<O>(run: Runner<O>, ops: seq<O>, trace: seq<Point>)
    requires IsTrace(run, ops, trace)
    ensures trace[|trace| - 1] == Final(run, ops[..|trace| - 1], trace[0])
    decreases |ops|
  {
    if |trace| > 1 {
      var rest := trace[1..];
      forall i | 0 <= i < |rest| - 1
        ensures rest[i + 1] == Next(run, ops[1..][i], rest[i])
      {
        assert trace[(i + 1) + 1] == Next(run, ops[i + 1], trace[i + 1]);
      }
      TraceIsFinal(run, ops[1..], rest);
      assert ops[..|trace| - 1][1..] == ops[1..][..|rest| - 1];
    }
  }

  /** A surviving operation, and the counter value it started from. */
  datatype Survivor<O> = Survivor(op: O, ctr: nat)

  /** The operations whose caller is told a reply. */
  function Survivors<O>(run: Runner<O>, ops: seq<O>, p: Point): seq<Survivor<O>>
    decreases |ops|
  {
    if ops == [] then []
    else
      var first := if run(ops[0], p.db, p.ctr).Applied? then [Survivor(ops[0], p.ctr)] else [];
      first + Survivors(run, ops[1..], Next(run, ops[0], p))
  }

  /** The surviving operations alone, with no savepoint to fall back on: a raise would be `None`. */
  function ApplyEach<O>(run: Runner<O>, done: seq<Survivor<O>>, db: DB): Option<DB>
    decreases |done|
  {
    if done == [] then Some(db)
    else
      var r := run(done[0].op, db, done[0].ctr);
      if r.Raised? then None else ApplyEach(run, done[1..], r.db)
  }

  /** Writer equivalence: the committed database is what the operations that did not raise produce,
      in submission order and without the others. */
  lemma {:induction false} OnlySurvivorsCount<O>(run: Runner<O>, ops: seq<O>, p: Point)
    ensures ApplyEach(run, Survivors(run, ops, p), p.db) == Some(Final(run, ops, p).db)
    decreases |ops|
  {
    if ops != [] {
      OnlySurvivorsCount(run, ops[1..], Next(run, ops[0], p));
      var rest := Survivors(run, ops[1..], Next(run, ops[0], p));
      if run(ops[0], p.db, p.ctr).Applied? {
        assert Survivors(run, ops, p) == [Survivor(ops[0], p.ctr)] + rest;
        assert ([Survivor(ops[0], p.ctr)] + rest)[1..] == rest;
      } else {
        assert Survivors(run, ops, p) == rest;
      }
    }
  }

  /** With the pipeline's operations this is the run the rules and the change feed speak about. */
  lemma {:induction false} FinalIsRunAll(ops: seq<Pipeline.Op>, p: Point)
    ensures Final(Pipeline.Run, ops, p) ==
            Point(Pipeline.RunAll(ops, p.db, p.ctr).0, Pipeline.RunAll(ops, p.db, p.ctr).1)
    decreases |ops|
  {
    if ops != [] {
      FinalIsRunAll(ops[1..], Next(Pipeline.Run, ops[0], p));
    }
  }

  lemma {:induction false} RunAllAppend(a: seq<Pipeline.Op>, b: seq<Pipeline.Op>, db: DB, c: nat)
    ensures Pipeline.RunAll(a + b, db, c) ==
            Pipeline.RunAll(b, Pipeline.RunAll(a, db, c).0, Pipeline.RunAll(a, db, c).1)
    decreases |a|
  {
    if a == [] {
      assert a + b == b;
    } else {
      var r := Pipeline.Run(a[0], db, c);
      assert (a + b)[1..] == a[1..] + b;
      RunAllAppend(a[1..], b, Committed(db, r), r.ctr);
    }
  }

  function Flatten(batches: seq<seq<Pipeline.Op>>): seq<Pipeline.Op> {
    if batches == [] then [] else batches[0] + Flatten(batches[1..])
  }

  function Commits(batches: seq<seq<Pipeline.Op>>): seq<ChangeFeed.Event> {
    if batches == [] then [] else [ChangeFeed.Commit(batches[0])] + Commits(batches[1..])
  }

  /** How the operations were cut into batches does not matter. */
  lemma {:induction false} BatchingIrrelevant(batches: seq<seq<Pipeline.Op>>, db: DB, c: nat)
    ensures ChangeFeed.AfterAll(Commits(batches), db, c) == Pipeline.RunAll(Flatten(batches), db, c)
    decreases |batches|
  {
    if batches != [] {
      var (db', c') := Pipeline.RunAll(batches[0], db, c);
      RunAllAppend(batches[0], Flatten(batches[1..]), db, c);
      BatchingIrrelevant(batches[1..], db', c');
      assert Commits(batches)[1..] == Commits(batches[1..]);
    }
  }
}
