/** The dispatcher's outcome writes, the reprocess and unquarantine chunk operations, and the
    recovery chunk operation, each as the function it applies to the committed tables. */
module WriteOps {
  import opened Prelude
  import opened Ordering
  import opened SegmentFormat
  import opened Schema

  /** A claimed row, carrying the state it was claimed in. */
  datatype Item = Item(id: int, project: string, lane: int, state: WheelState)

  // ------------------------------------------------------------- outcome writes

  function Fetched(w: Wheel, sha: Digest, ctr: nat, now: Time): Wheel {
    w.(state := NEED_CONVERT, changeSeq := ctr, updatedAt := now, blob := Some(sha))
  }

  /** `Ok(NEED_CONVERT)` of the archive handoff: advance and link the archived blob. */
  function OkFetch(db: DB, ctr: nat, item: Item, sha: Digest, now: Time): Applied {
    if NEED_CONVERT !in AllowedTransitions(item.state) then Raised(ctr)
    else
      var wheels := if item.id in db.wheels
                    then db.wheels[item.id := Fetched(db.wheels[item.id], sha, ctr + 1, now)] else db.wheels;
      Applied(db.(wheels := wheels, work := db.work - {StageKey(item.id, FETCH)}), ctr + 1, Done)
  }

  /** `Ok(READY)` of convert: advance and upsert the repodata row. */
  function OkConvert(db: DB, ctr: nat, item: Item, condaName: string, version: string, now: Time): Applied {
    if READY !in AllowedTransitions(item.state) then Raised(ctr)
    else if item.id !in db.wheels then Raised(ctr + 1)
    else
      var w := db.wheels[item.id].(state := READY, changeSeq := ctr + 1, updatedAt := now,
                                   condaName := Some(condaName));
      Applied(db.(wheels := db.wheels[item.id := w],
                  repodata := db.repodata[item.id := version],
                  work := db.work - {StageKey(item.id, CONVERT)}), ctr + 1, Done)
  }

  function SkipWheel(db: DB, ctr: nat, stage: Stage, item: Item, reason: string, permanent: bool,
                     version: Option<string>, now: Time): Applied {
    if SKIPPED !in AllowedTransitions(item.state) then Raised(ctr)
    else if item.id !in db.wheels then Raised(ctr + 1)
    else
      var w := db.wheels[item.id].(state := SKIPPED, changeSeq := ctr + 1, updatedAt := now);
      var row := Skip(reason, permanent, if permanent then None else version);
      Applied(db.(wheels := db.wheels[item.id := w],
                  skips := db.skips[StageKey(item.id, stage) := row],
                  work := db.work - {StageKey(item.id, stage)}), ctr + 1, Done)
  }

  function Attempts(db: DB, key: StageKey): nat {
    if key in db.work then db.work[key].attempts else 0
  }

  function QuarantinedAt(db: DB, key: StageKey): Option<Time> {
    if key in db.work then db.work[key].quarantinedAt else None
  }

  /** A failure that says nothing about the wheel: back off, or quarantine past the last attempt.
      The upsert of a plain retry does not touch `quarantined_at`. */
  function RetryWheel(db: DB, ctr: nat, stage: Stage, item: Item, maxAttempts: nat, now: Time, due: Time): Applied {
    var key := StageKey(item.id, stage);
    var attempts := Attempts(db, key) + 1;
    if attempts > maxAttempts then
      if QUARANTINED !in AllowedTransitions(item.state) then Raised(ctr)
      else if item.id !in db.wheels then Raised(ctr + 1)
      else
        var w := db.wheels[item.id].(state := QUARANTINED, changeSeq := ctr + 1, updatedAt := now);
        Applied(db.(wheels := db.wheels[item.id := w], work := db.work[key := Work(attempts, now, Some(now))]),
                ctr + 1, Quarantined(attempts))
    else if item.id !in db.wheels then Raised(ctr)
    else Applied(db.(work := db.work[key := Work(attempts, due, QuarantinedAt(db, key))]), ctr, Retried(attempts))
  }

  // ----------------------------------------------------------- chunk operations

  function Requeued(w: Wheel, ctr: nat, now: Time): Wheel {
    w.(state := NEED_CONVERT, lane := 1, changeSeq := ctr, updatedAt := now)
  }

  /** One UPDATE per id, each taking the next sequence number whether or not the row exists. */
  function RequeueRows(wheels: Wheels, ids: seq<int>, ctr: nat, now: Time): Wheels {
    if ids == [] then wheels
    else
      var next := if ids[0] in wheels then wheels[ids[0] := Requeued(wheels[ids[0]], ctr + 1, now)] else wheels;
      RequeueRows(next, ids[1..], ctr + 1, now)
  }

  function CountIn(wheels: Wheels, ids: seq<int>): nat {
    if ids == [] then 0 else (if ids[0] in wheels then 1 else 0) + CountIn(wheels, ids[1..])
  }

  /** A retryable skip older than the campaign's version. NULL versions never compare. */
  predicate StaleSkip(s: Skip, version: string) {
    !s.permanent && s.version.Some? && LexLess(s.version.value, version)
  }

  function ReprocessChunk(db: DB, ctr: nat, ids: seq<int>, below: Option<string>, now: Time): Applied {
    var repodata := map id | id in db.repodata && id !in ids :: db.repodata[id];
    var skips := if below.None? then db.skips
                 else map k | k in db.skips && !(k.id in ids && StaleSkip(db.skips[k], below.value)) :: db.skips[k];
    var work := map k | k in db.work && k.id !in ids :: db.work[k];
    Applied(db.(wheels := RequeueRows(db.wheels, ids, ctr, now), repodata := repodata, skips := skips, work := work),
            ctr + |ids|, Count(CountIn(db.wheels, ids)))
  }

  predicate IsQuarantined(wheels: Wheels, id: int) {
    id in wheels && wheels[id].state == QUARANTINED
  }

  function RefetchRows(wheels: Wheels, ids: seq<int>, ctr: nat, now: Time): Wheels {
    if ids == [] then wheels
    else
      var next := if IsQuarantined(wheels, ids[0])
                  then wheels[ids[0] := wheels[ids[0]].(state := NEED_METADATA, changeSeq := ctr + 1, updatedAt := now)]
                  else wheels;
      RefetchRows(next, ids[1..], ctr + 1, now)
  }

  function UnquarantineChunk(db: DB, ctr: nat, ids: seq<int>, now: Time): Applied {
    var work := map k | k in db.work && k.id !in ids :: db.work[k];
    Applied(db.(wheels := RefetchRows(db.wheels, ids, ctr, now), work := work), ctr + |ids|, Done)
  }

  // -------------------------------------------------------------- recovery chunk

  /** The wheel's blob is among the digests being dropped. Tombstones keep their column. */
  predicate LinkedTo(w: Wheel, shas: set<Digest>) {
    w.blob.Some? && w.blob.value in shas && w.state != DELETED
  }

  function ResetWheel(w: Wheel): Wheel {
    w.(state := NEED_METADATA, blob := None, condaName := None)
  }

  function RecoverWheels(wheels: Wheels, shas: set<Digest>): Wheels {
    map id | id in wheels :: if LinkedTo(wheels[id], shas) then ResetWheel(wheels[id]) else wheels[id]
  }

  /** `_recover_chunk_write_op`: unlink every live wheel of the dropped digests and delete their rows.
      It takes no sequence number. */
  function RecoverChunk(db: DB, shas: set<Digest>): DB {
    db.(wheels := RecoverWheels(db.wheels, shas),
        repodata := map id | id in db.repodata && !(id in db.wheels && LinkedTo(db.wheels[id], shas))
                    :: db.repodata[id],
        blobs := map sha | sha in db.blobs && sha !in shas :: db.blobs[sha])
  }

  // ---------------------------------------------------- what the row loops do

  lemma {:induction false} RequeueRowsEffect(wheels: Wheels, ids: seq<int>, ctr: nat, now: Time, id: int)
    ensures RequeueRows(wheels, ids, ctr, now).Keys == wheels.Keys
    ensures id in wheels && id !in ids ==> RequeueRows(wheels, ids, ctr, now)[id] == wheels[id]
    ensures id in wheels && id in ids ==>
              exists k :: ctr < k <= ctr + |ids| &&
                RequeueRows(wheels, ids, ctr, now)[id] == Requeued(wheels[id], k, now)
  {
    if ids != [] {
      var next := if ids[0] in wheels then wheels[ids[0] := Requeued(wheels[ids[0]], ctr + 1, now)] else wheels;
      RequeueRowsEffect(next, ids[1..], ctr + 1, now, id);
      assert ids == [ids[0]] + ids[1..];
      if id in wheels && id in ids[1..] {
        var k :| ctr + 1 < k <= ctr + |ids| &&
                 RequeueRows(next, ids[1..], ctr + 1, now)[id] == Requeued(next[id], k, now);
        assert RequeueRows(wheels, ids, ctr, now)[id] == Requeued(wheels[id], k, now);
      }
    }
  }

  lemma {:induction false} RefetchRowsEffect(wheels: Wheels, ids: seq<int>, ctr: nat, now: Time, id: int)
    ensures RefetchRows(wheels, ids, ctr, now).Keys == wheels.Keys
    ensures id in wheels && !(id in ids && wheels[id].state == QUARANTINED) ==>
          RefetchRows(wheels, ids, ctr, now)[id] == wheels[id]
    ensures id in wheels && id in ids && wheels[id].state == QUARANTINED ==>
              exists k :: ctr < k <= ctr + |ids| &&
                RefetchRows(wheels, ids, ctr, now)[id] ==
                    wheels[id].(state := NEED_METADATA, changeSeq := k, updatedAt := now)
  {
    if ids != [] {
      var next := if IsQuarantined(wheels, ids[0])
                  then wheels[ids[0] := wheels[ids[0]].(state := NEED_METADATA, changeSeq := ctr + 1, updatedAt := now)]
                  else wheels;
      RefetchRowsEffect(next, ids[1..], ctr + 1, now, id);
      assert ids == [ids[0]] + ids[1..];
      if IsQuarantined(wheels, id) && id != ids[0] && id in ids {
        var k :| ctr + 1 < k <= ctr + |ids| &&
                 RefetchRows(next, ids[1..], ctr + 1, now)[id] ==
                     next[id].(state := NEED_METADATA, changeSeq := k, updatedAt := now);
        assert RefetchRows(wheels, ids, ctr, now)[id] ==
            wheels[id].(state := NEED_METADATA, changeSeq := k, updatedAt := now);
      }
    }
  }
}
