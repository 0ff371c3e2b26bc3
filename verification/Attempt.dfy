/**
 One delivery attempt, cut wherever it touches what other goroutines share: the session's closed flag, status, counter
 and acknowledged number, the table, and the connection. Between two stages anything may happen to those. Line numbers
 are those of `internal/gateway/gateway.go`.
 */
module Attempt {
  import opened Common
  import opened Assignments
  import opened Delta
  import opened Session

  /** An image record. `base` is bookkeeping: the frame the primitive was computed against, None for no frame. */
  datatype ImageRecord = ImageRecord(sequence: U32, frameID: U32, primitive: Primitive, base: Option<U32>)

  /** What is still to be stored about an attempt that ends without a record written. */
  datatype Verdict = GiveUp | Reconnect | Retry

  /** How far the attempt in progress has come; a record is `Based` before it has a number. */
  datatype Job =
    | NoJob
    | Begun(display: U32)
    | Loaded(id: nat, row: Row, display: U32)
    | Checked(id: nat, row: Row, display: U32)
    | Based(id: nat, record: ImageRecord, pixels: Bytes)
    | Numbered(id: nat, record: ImageRecord, pixels: Bytes)
    | Prepared(id: nat, record: ImageRecord, pixels: Bytes)
    | Written(id: nat, record: ImageRecord, pixels: Bytes, complete: bool)
    | Failing(id: nat, verdict: Verdict)

  datatype PrepareOutcome = Ready | PrepareFails | BuildFails

  /** Lines 372-381: the newest assignment, if it is wanted and the query succeeds. */
  function AfterLoad(t: Table, device: string, job: Job, loads: bool): Job
    requires job.Begun?
  {
    match PendingId(t, device)
    case None => NoJob
    case Some(id) => if loads && id in t then Loaded(id, t[id], job.display) else NoJob
  }

  /** Lines 381-416. */
  function AfterCheck(s: SessionState, job: Job, elapsed: bool): (SessionState, Job)
    requires job.Loaded?
  {
    match Decide(s, job.id, job.row, elapsed)
    case Idle => (s, NoJob)
    case Abandon => (s, Failing(job.id, GiveUp))
    case Exhausted => (s, Failing(job.id, Reconnect))
    case Proceed => (Started(s, job.id), Checked(job.id, job.row, job.display))
  }

  /** The primitive for a frame of `w` by `h` pixels, given the base it may build on. */
  ghost function Patch(s: SessionState, pixels: Bytes, base: Option<U32>, w: int, h: int): Primitive {
    Changed(pixels, PreviousFrame(s, base), w, h, s.frameWidth, s.frameHeight)
  }

  /** Lines 417-438: render, count the attempt, and look at the acknowledged number a second time for the base. */
  ghost function AfterRender(s: SessionState, job: Job, w: int, h: int): (SessionState, Job)
    requires job.Checked?
  {
    match job.row.rendered
    case None => (s.(renderFailedID := job.id), Failing(job.id, Retry))
    case Some(pixels) =>
      var base := ConfirmedBase(s, job.display);
      (s.(attempts := s.attempts + 1),
       Based(job.id, ImageRecord(0, job.row.frameID, Patch(s, pixels, base, w, h), base), pixels))
  }

  /** Line 439. */
  function AfterNumber(s: SessionState, job: Job): (SessionState, Job)
    requires job.Based?
  {
    (AfterIssue(s), Numbered(job.id, job.record.(sequence := Issued(s)), job.pixels))
  }

  /** Lines 441-445, up to the write. */
  function AfterPrepare(t: Table, job: Job, outcome: PrepareOutcome): (Table, Job)
    requires job.Numbered?
  {
    (if outcome == PrepareFails then t else PrepareSend(t, job.id, job.record.sequence),
     if outcome == Ready then Prepared(job.id, job.record, job.pixels) else Failing(job.id, Retry))
  }

  /** The statement an attempt ends with. */
  function Verdicted(t: Table, job: Job): Table
    requires job.Written? || job.Failing?
  {
    if job.Failing? && job.verdict == GiveUp then MarkFailed(t, job.id)
    else MarkSent(t, job.id, job.Written? && job.complete)
  }

  /** What the session remembers of an attempt; one that broke the stream, or has lasted too long, closes it. */
  function Remembered(s: SessionState, job: Job, w: int, h: int): SessionState
    requires job.Written? || job.Failing?
  {
    match job
    case Written(_, record, pixels, complete) =>
      if complete then SendRecorded(s, record.frameID, record.sequence, pixels, w, h) else s.(closed := true)
    case Failing(_, verdict) => if verdict == Reconnect then s.(closed := true) else s
  }
}
