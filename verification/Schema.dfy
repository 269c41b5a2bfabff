/** `schema.py`: wheel states, allowed transitions, and the tables as maps. */
module Schema {
  import opened Prelude
  import opened SegmentFormat

  datatype WheelState = NEED_METADATA | NO_METADATA | NEED_CONVERT | READY | SKIPPED | QUARANTINED | DELETED

  function AllowedTransitions(s: WheelState): set<WheelState> {
    match s
    case NEED_METADATA => {NEED_CONVERT, NO_METADATA, QUARANTINED}
    case NO_METADATA => {NEED_METADATA}
    case NEED_CONVERT => {READY, SKIPPED, QUARANTINED}
    case READY => {NEED_CONVERT, DELETED}
    case SKIPPED => {NEED_CONVERT}
    case QUARANTINED => {NEED_METADATA}
    case DELETED => {}
  }

  datatype Stage = FETCH | CONVERT

  function QueueState(stage: Stage): WheelState {
    match stage
    case FETCH => NEED_METADATA
    case CONVERT => NEED_CONVERT
  }

  /** A timestamp column: ISO text. */
  type Time = string

  datatype Wheel = Wheel(
    filename: string,
    project: string,
    condaName: Option<string>,
    state: WheelState,
    lane: int,
    url: string,
    wheelSha256: Option<string>,
    metadataSha256: Option<Digest>,
    size: Option<int>,
    uploadTime: Option<string>,
    requiresPython: Option<string>,
    yanked: bool,
    yankedReason: Option<string>,
    blob: Option<Digest>,
    serial: int,
    changeSeq: nat,
    deletedAt: Option<Time>,
    updatedAt: Time)

  /** Primary key of `skips` and `work`. */
  datatype StageKey = StageKey(id: int, stage: Stage)

  datatype Skip = Skip(reason: string, permanent: bool, version: Option<string>)

  datatype Work = Work(attempts: nat, nextAttemptAt: Time, quarantinedAt: Option<Time>)

  type Wheels = map<int, Wheel>

  datatype DB = DB(
    wheels: Wheels,
    repodata: map<int, string>,           // wheel id -> reroll_version of the stored repodata
    skips: map<StageKey, Skip>,
    work: map<StageKey, Work>,
    blobs: map<Digest, BlobLocation>,
    pypiIndex: map<string, int>,
    unlinked: map<string, Digest>)

  /** What running a write operation inside its savepoint produces; a raise leaves no row changed. */
  datatype Applied = Applied(db: DB, ctr: nat, reply: Reply) | Raised(ctr: nat)

  datatype Reply = Done | Count(n: nat) | Retried(attempts: nat) | Quarantined(attempts: nat)

  /** The committed database after the operation: a raising one is rolled back to its savepoint. */
  function Committed(db: DB, r: Applied): DB {
    if r.Applied? then r.db else db
  }
}
