/**
 `deliverLatest` on the gateway's objects, with other goroutines at work: a batch of disturbances strikes before every
 access to what they share. Line numbers are those of `internal/gateway/gateway.go`.
 */
module GatewayAttempt {
  import opened Common
  import opened Delta
  import opened Assignments
  import opened Session
  import opened Attempt
  import opened Store
  import opened Gateway
  import opened Interference
  import M = ImageMessage
  import Lz4
  import Record

  /** What the clock, the database and the network decide during one attempt. */
  datatype Circumstances = Circumstances(loads: bool, elapsed: bool, prepares: bool, stores: bool, completes: bool,
                                         arrived: nat)

  datatype Environment = Environment(device: string, uuid: M.Uuid, width: int, height: int, compress: Lz4.Compressor,
                                     crc: Record.Checksum)

  /** The server after a stage, how far the attempt is, and the bytes written. */
  datatype Progress = Progress(server: Server, job: Job, written: Bytes)

  /** The server after the whole call, the bytes written, and its answer. */
  datatype Outcome = Outcome(server: Server, written: Bytes, sent: bool)

  ghost function Wire(e: Environment, record: ImageRecord): Result<Bytes> {
    M.Build(e.uuid, record.sequence, record.frameID, [record.primitive], e.compress, e.crc)
  }

  ghost function PreparedAs(e: Environment, record: ImageRecord, c: Circumstances): PrepareOutcome {
    if !c.prepares then PrepareFails else if Wire(e, record).Err? then BuildFails else Ready
  }

  /** A failed write leaves the first `arrived` bytes on the stream. */
  ghost function Put(e: Environment, record: ImageRecord, c: Circumstances): Bytes {
    match Wire(e, record)
    case Err(_) => []
    case Ok(wire) => if c.completes then wire else wire[..MinLength(c.arrived, wire)]
  }

  /** What one stage of the attempt does. */
  ghost function Stage(e: Environment, v: Server, job: Job, c: Circumstances): Progress
    requires !job.NoJob?
  {
    match job
    case Begun(_) => Progress(v, AfterLoad(v.rows, e.device, job, c.loads), [])
    case Loaded(_, _, _) => var (s, job') := AfterCheck(v.session, job, c.elapsed); Progress(v.(session := s), job', [])
    case Checked(_, _, _) => var (s, job') := AfterRender(v.session, job, e.width, e.height);
    Progress(v.(session := s), job', [])
    case Based(_, _, _) => var (s, job') := AfterNumber(v.session, job); Progress(v.(session := s), job', [])
    case Numbered(_, record, _) =>
      var (t, job') := AfterPrepare(v.rows, job, PreparedAs(e, record, c));
      Progress(v.(rows := t), job', [])
    case Prepared(id, record, pixels) => Progress(v, Written(id, record, pixels, c.completes), Put(e, record, c))
    case Written(_, _, _, _) => Progress(Ended(e, v, job, c), NoJob, [])
    case Failing(_, _) => Progress(Ended(e, v, job, c), NoJob, [])
  }

  function Ended(e: Environment, v: Server, job: Job, c: Circumstances): Server
    requires job.Written? || job.Failing?
  {
    v.(rows := if c.stores then Verdicted(v.rows, job) else v.rows,
       session := Remembered(v.session, job, e.width, e.height))
  }

  function StagesLeft(job: Job): nat {
    match job
    case NoJob => 0
    case Begun(_) => 7
    case Loaded(_, _, _) => 6
    case Checked(_, _, _) => 5
    case Based(_, _, _) => 4
    case Numbered(_, _, _) => 3
    case Prepared(_, _, _) => 2
    case Written(_, _, _, _) => 1
    case Failing(_, _) => 1
  }

  lemma StageAdvances(e: Environment, v: Server, job: Job, c: Circumstances)
    requires !job.NoJob?
    ensures StagesLeft(Stage(e, v, job, c).job) < StagesLeft(job)
  {
    hide Patch, Wire, PendingId, Decide;
  }

  /** Session and job after one of the stages that touch nothing else. */
  ghost function Noted(t: Table, device: string, s: SessionState, job: Job, c: Circumstances, width: int,
                       height: int): (SessionState, Job)
    requires job.Begun? || job.Loaded? || job.Checked? || job.Based?
  {
    if job.Begun? then (s, AfterLoad(t, device, job, c.loads))
    else if job.Loaded? then AfterCheck(s, job, c.elapsed)
    else if job.Checked? then AfterRender(s, job, width, height)
    else AfterNumber(s, job)
  }

  lemma EarlyProgress(e: Environment, v: Server, job: Job, c: Circumstances)
    requires job.Begun? || job.Loaded? || job.Checked? || job.Based?
    ensures var n := Noted(v.rows, e.device, v.session, job, c, e.width, e.height);
            Stage(e, v, job, c) == Progress(v.(session := n.0), n.1, []) && !n.1.Prepared?
  {
    hide Patch, ConfirmedBase, Wire, Put, PendingId, Decide, Issued, AfterIssue;
  }

  lemma PrepareProgress(e: Environment, v: Server, job: Job, c: Circumstances)
    requires job.Numbered?
    ensures var after := AfterPrepare(v.rows, job, PreparedAs(e, job.record, c));
            && Stage(e, v, job, c) == Progress(v.(rows := after.0), after.1, [])
            && (after.1.Prepared? ==> Wire(e, after.1.record).Ok?)
  {
    hide Wire;
  }

  lemma WriteProgress(e: Environment, v: Server, job: Job, c: Circumstances)
    requires job.Prepared?
    ensures Stage(e, v, job, c) == Progress(v, Written(job.id, job.record, job.pixels, c.completes),
                                            Put(e, job.record, c))
  {
    hide Put;
  }

  lemma LastProgress(e: Environment, v: Server, job: Job, c: Circumstances)
    requires job.Written? || job.Failing?
    ensures Stage(e, v, job, c) == Progress(Ended(e, v, job, c), NoJob, [])
  {
    hide Ended;
  }

  /** The rest of the attempt, the disturbances before its stages numbered from `k` on. */
  ghost function Rest(e: Environment, devices: set<string>, v: Server, job: Job, c: Circumstances,
                      others: nat -> seq<Disturbance>, k: nat): Outcome
    decreases StagesLeft(job)
  {
    if job.NoJob? then Outcome(v, [], false)
    else
      var p := Stage(e, DisturbedBy(devices, e.device, v, others(k)), job, c);
      StageAdvances(e, DisturbedBy(devices, e.device, v, others(k)), job, c);
      var o := Rest(e, devices, p.server, p.job, c, others, k + 1);
      Outcome(o.server, p.written + o.written, o.sent || (job.Written? && job.complete))
  }

  /** One stage, and what is left after it. */
  lemma RestStep(e: Environment, devices: set<string>, v: Server, job: Job, c: Circumstances,
                 others: nat -> seq<Disturbance>, k: nat)
    requires !job.NoJob?
    ensures var p := Stage(e, DisturbedBy(devices, e.device, v, others(k)), job, c);
            var o := Rest(e, devices, p.server, p.job, c, others, k + 1);
            Rest(e, devices, v, job, c, others, k)
                == Outcome(o.server, p.written + o.written, o.sent || (job.Written? && job.complete))
  {
    hide Stage;
  }

  lemma RestNone(e: Environment, devices: set<string>, v: Server, c: Circumstances, others: nat -> seq<Disturbance>,
                 k: nat)
    ensures Rest(e, devices, v, NoJob, c, others, k) == Outcome(v, [], false)
  {
  }

  /** A stage that writes nothing hands on to the next. */
  lemma RestSilent(e: Environment, devices: set<string>, v: Server, job: Job, c: Circumstances,
                   others: nat -> seq<Disturbance>, k: nat)
    requires !job.NoJob? && !job.Prepared? && !job.Written?
    ensures var p := Stage(e, DisturbedBy(devices, e.device, v, others(k)), job, c);
            Rest(e, devices, v, job, c, others, k) == Rest(e, devices, p.server, p.job, c, others, k + 1)
  {
    hide Rest, Wire, Patch, Decide, PendingId;
    RestStep(e, devices, v, job, c, others, k);
    var p := Stage(e, DisturbedBy(devices, e.device, v, others(k)), job, c);
    assert p.written == [];
    var o := Rest(e, devices, p.server, p.job, c, others, k + 1);
    assert [] + o.written == o.written;
  }

  /** The stage an attempt ends with. */
  lemma RestEnds(e: Environment, devices: set<string>, v: Server, job: Job, c: Circumstances,
                 others: nat -> seq<Disturbance>, k: nat)
    requires job.Written? || job.Failing?
    ensures Rest(e, devices, v, job, c, others, k) ==
              Outcome(Ended(e, DisturbedBy(devices, e.device, v, others(k)), job, c), [], job.Written? && job.complete)
  {
    hide Rest, Ended;
    RestStep(e, devices, v, job, c, others, k);
    RestNone(e, devices, Ended(e, DisturbedBy(devices, e.device, v, others(k)), job, c), c, others, k + 1);
  }

  /** The write, and the stage after it. */
  lemma RestWrites(e: Environment, devices: set<string>, v: Server, id: nat, record: ImageRecord, pixels: Bytes,
                   c: Circumstances, others: nat -> seq<Disturbance>, k: nat)
    ensures var job := Written(id, record, pixels, c.completes);
            Rest(e, devices, v, Prepared(id, record, pixels), c, others, k) ==
              Outcome(Ended(e, DisturbedBy(devices, e.device, DisturbedBy(devices, e.device, v, others(k)),
                                           others(k + 1)), job, c), Put(e, record, c), c.completes)
  {
    hide Rest, Ended, Put;
    RestStep(e, devices, v, Prepared(id, record, pixels), c, others, k);
    RestEnds(e, devices, DisturbedBy(devices, e.device, v, others(k)), Written(id, record, pixels, c.completes), c,
             others, k + 1);
    assert Put(e, record, c) + [] == Put(e, record, c);
  }

  /** What `deliverLatest` does as a whole, with `others` striking in between. */
  ghost function Attempted(e: Environment, devices: set<string>, v: Server, c: Circumstances,
                           others: nat -> seq<Disturbance>): Outcome {
    if v.session.closed then Outcome(v, [], false) else Rest(e, devices, v, Begun(v.session.display), c, others, 0)
  }

  /** The call has had the effect `o`, on a connection where `before` had been written. */
  ghost predicate Effect(store: AssignmentStore, session: TabletSession, before: Bytes, sent: bool, o: Outcome)
    reads store, session, session.connection
  {
    Now(store, session) == o.server && session.connection.sent == before + o.written && sent == o.sent
  }

  /** The statement a fruitless attempt ends with. */
  method StoreFailure(e: Environment, store: AssignmentStore, session: TabletSession, id: nat, verdict: Verdict,
                      c: Circumstances, others: nat -> seq<Disturbance>, k: nat)
    requires store.Valid()
    modifies store`rows, store`nextId, session
    ensures store.Valid()
    ensures Effect(store, session, old(session.connection.sent), false,
                   Rest(e, store.devices, old(Now(store, session)), Failing(id, verdict), c, others, k))
  {
    hide Rest, TabletSession.View, DisturbedBy, Assignments.MarkFailed, Assignments.MarkSent;
    RestEnds(e, store.devices, Now(store, session), Failing(id, verdict), c, others, k);
    DisturbBy(store, session, e.device, others(k));
    if c.stores {
      if verdict == GiveUp {
        store.MarkFailed(id);
      } else {
        store.MarkSent(id, false);
      }
    }
    if verdict == Reconnect {
      session.Close();
    }
  }

  /** Lines 446-466: write, store how it went, and remember what the tablet will show. */
  method WriteRecord(e: Environment, store: AssignmentStore, session: TabletSession, id: nat, record: ImageRecord,
                     pixels: Bytes, wire: Bytes, c: Circumstances, others: nat -> seq<Disturbance>, k: nat)
    returns (sent: bool)
    requires store.Valid() && Wire(e, record) == Ok(wire)
    modifies store`rows, store`nextId, session, session.connection
    ensures store.Valid()
    ensures Effect(store, session, old(session.connection.sent), sent,
                   Rest(e, store.devices, old(Now(store, session)), Prepared(id, record, pixels), c, others, k))
  {
    hide Rest, TabletSession.View, DisturbedBy, Wire, Assignments.MarkSent, MinLength;
    RestWrites(e, store.devices, Now(store, session), id, record, pixels, c, others, k);
    DisturbBy(store, session, e.device, others(k));
    var ok := session.connection.Write(wire, c.completes, c.arrived);
    DisturbBy(store, session, e.device, others(k + 1));
    if c.stores {
      store.MarkSent(id, ok);
    }
    if !ok {
      session.Close();
      return false;
    }
    session.NoteSent(record.frameID, record.sequence, pixels, e.width, e.height);
    sent := true;
  }

  /** Lines 441-445: count the attempt in the table and build the record. */
  method PrepareRecord(e: Environment, store: AssignmentStore, session: TabletSession, id: nat, record: ImageRecord,
                       pixels: Bytes, c: Circumstances, others: nat -> seq<Disturbance>, k: nat) returns (sent: bool)
    requires store.Valid()
    modifies store`rows, store`nextId, session, session.connection
    ensures store.Valid()
    ensures Effect(store, session, old(session.connection.sent), sent,
                   Rest(e, store.devices, old(Now(store, session)), Numbered(id, record, pixels), c, others, k))
  {
    hide Rest, TabletSession.View, DisturbedBy, M.Build, Assignments.PrepareSend;
    RestSilent(e, store.devices, Now(store, session), Numbered(id, record, pixels), c, others, k);
    DisturbBy(store, session, e.device, others(k));
    if !c.prepares {
      StoreFailure(e, store, session, id, Retry, c, others, k + 1);
      return false;
    }
    store.PrepareSend(id, record.sequence);
    var wire := M.BuildImagePrimitives(e.uuid, record.sequence, record.frameID, [record.primitive], e.compress, e.crc);
    if wire.Err? {
      StoreFailure(e, store, session, id, Retry, c, others, k + 1);
      return false;
    }
    sent := WriteRecord(e, store, session, id, record, pixels, wire.value, c, others, k + 1);
  }

  /** Line 439: draw a number. */
  method NumberRecord(e: Environment, store: AssignmentStore, session: TabletSession, id: nat, record: ImageRecord,
                      pixels: Bytes, c: Circumstances, others: nat -> seq<Disturbance>, k: nat) returns (sent: bool)
    requires store.Valid()
    modifies store`rows, store`nextId, session, session.connection
    ensures store.Valid()
    ensures Effect(store, session, old(session.connection.sent), sent,
                   Rest(e, store.devices, old(Now(store, session)), Based(id, record, pixels), c, others, k))
  {
    hide Rest, TabletSession.View, DisturbedBy, Issued, AfterIssue;
    RestSilent(e, store.devices, Now(store, session), Based(id, record, pixels), c, others, k);
    DisturbBy(store, session, e.device, others(k));
    var sequence := session.Sequence();
    sent := PrepareRecord(e, store, session, id, record.(sequence := sequence), pixels, c, others, k + 1);
  }

  /** The primitive against the previous frame, if the tablet is known to show it. */
  method MakePatch(e: Environment, session: TabletSession, display: U32,
                   pixels: Bytes) returns (p: Primitive, base: Option<U32>)
    ensures base == ConfirmedBase(session.View(), display)
            && p == Patch(session.View(), pixels, base, e.width, e.height)
  {
    hide Changed;
    var previous := session.lastFrame;
    base := Some(session.lastFrameID);
    var acked := session.IsAcknowledged(session.lastSentSeq);
    if session.lastFrameID == 0 || (display != session.lastFrameID && !acked) {
      previous, base := [], None;
    }
    p := ChangedPrimitive(pixels, previous, e.width, e.height, session.frameWidth, session.frameHeight);
  }

  /** Lines 417-438: render, count the attempt, and cut the patch. */
  method RenderRow(e: Environment, store: AssignmentStore, session: TabletSession, id: nat, row: Row, display: U32,
                   c: Circumstances, others: nat -> seq<Disturbance>, k: nat) returns (sent: bool)
    requires store.Valid()
    modifies store`rows, store`nextId, session, session.connection
    ensures store.Valid()
    ensures Effect(store, session, old(session.connection.sent), sent,
                   Rest(e, store.devices, old(Now(store, session)), Checked(id, row, display), c, others, k))
  {
    hide Rest, TabletSession.View, DisturbedBy, Patch, ConfirmedBase;
    RestSilent(e, store.devices, Now(store, session), Checked(id, row, display), c, others, k);
    DisturbBy(store, session, e.device, others(k));
    if row.rendered == None {
      session.NoteRenderFailure(id);
      StoreFailure(e, store, session, id, Retry, c, others, k + 1);
      return false;
    }
    var primitive, base := MakePatch(e, session, display, row.rendered.value);
    session.CountAttempt();
    sent := NumberRecord(e, store, session, id, ImageRecord(0, row.frameID, primitive, base), row.rendered.value, c,
                         others, k + 1);
  }

  /** The checks of `deliverLatest` in their order. */
  method Choose(session: TabletSession, id: nat, row: Row, elapsed: bool) returns (plan: Plan)
    ensures plan == Decide(session.View(), id, row, elapsed)
  {
    if session.renderFailedID == id {
      return Idle;
    }
    if row.sendAttempts >= MAX_TOTAL_ATTEMPTS {
      return Abandon;
    }
    if session.attemptID == id {
      var acked := session.IsAcknowledged(session.lastSentSeq);
      if session.lastFrameID == row.frameID && acked {
        return Idle;
      }
      if !elapsed {
        return Idle;
      }
      if session.attempts >= MAX_ATTEMPTS {
        return Exhausted;
      }
    }
    plan := Proceed;
  }

  /** Lines 381-416. */
  method CheckRow(e: Environment, store: AssignmentStore, session: TabletSession, id: nat, row: Row, display: U32,
                  c: Circumstances, others: nat -> seq<Disturbance>, k: nat) returns (sent: bool)
    requires store.Valid()
    modifies store`rows, store`nextId, session, session.connection
    ensures store.Valid()
    ensures Effect(store, session, old(session.connection.sent), sent,
                   Rest(e, store.devices, old(Now(store, session)), Loaded(id, row, display), c, others, k))
  {
    hide Rest, TabletSession.View, DisturbedBy, Decide, Started;
    RestSilent(e, store.devices, Now(store, session), Loaded(id, row, display), c, others, k);
    DisturbBy(store, session, e.device, others(k));
    RestNone(e, store.devices, Now(store, session), c, others, k + 1);
    var plan := Choose(session, id, row, c.elapsed);
    match plan {
      case Idle =>
        sent := false;
      case Abandon =>
        StoreFailure(e, store, session, id, GiveUp, c, others, k + 1);
        sent := false;
      case Exhausted =>
        StoreFailure(e, store, session, id, Reconnect, c, others, k + 1);
        sent := false;
      case Proceed =>
        session.StartAttempts(id);
        sent := RenderRow(e, store, session, id, row, display, c, others, k + 1);
    }
  }

  /** Lines 372-381: the newest assignment, if it is wanted. */
  method LoadRow(e: Environment, store: AssignmentStore, session: TabletSession, display: U32,
                 c: Circumstances, others: nat -> seq<Disturbance>, k: nat) returns (sent: bool)
    requires store.Valid()
    modifies store`rows, store`nextId, session, session.connection
    ensures store.Valid()
    ensures Effect(store, session, old(session.connection.sent), sent,
                   Rest(e, store.devices, old(Now(store, session)), Begun(display), c, others, k))
  {
    hide Rest, TabletSession.View, DisturbedBy, PendingId;
    RestSilent(e, store.devices, Now(store, session), Begun(display), c, others, k);
    DisturbBy(store, session, e.device, others(k));
    RestNone(e, store.devices, Now(store, session), c, others, k + 1);
    var pending := store.Pending(e.device);
    PendingThere(store.rows, e.device);
    if pending == None || !c.loads {
      return false;
    }
    sent := CheckRow(e, store, session, pending.value, store.rows[pending.value], display, c, others, k + 1);
  }

  lemma PendingThere(t: Table, device: string)
    ensures PendingId(t, device).Some? ==> PendingId(t, device).value in t
  {
  }

  /** One attempt to send the newest desired assignment; true after a successful send. */
  method DeliverLatest(e: Environment, store: AssignmentStore, session: TabletSession, c: Circumstances,
                       others: nat -> seq<Disturbance>)
    returns (sent: bool)
    requires store.Valid()
    modifies store`rows, store`nextId, session, session.connection
    ensures store.Valid()
    ensures Effect(store, session, old(session.connection.sent), sent,
                   Attempted(e, store.devices, old(Now(store, session)), c, others))
  {
    ghost var s := session.View();
    assert session.closed == s.closed && session.display == s.display;
    hide Rest, TabletSession.View, DisturbedBy;
    if session.closed {
      return false;
    }
    sent := LoadRow(e, store, session, session.display, c, others, 0);
  }
}
