/**
 One call of `deliverLatest` that nobody disturbs, case by case: what it writes, and how it leaves the table and the
 session. Line numbers are those of `internal/gateway/gateway.go`.
 */
module OneCall {
  import opened Common
  import opened Delta
  import opened Assignments
  import opened Session
  import opened Attempt
  import opened Store
  import opened Interference
  import opened GatewayAttempt

  ghost predicate Quiet(others: nat -> seq<Disturbance>) {
    forall k: nat :: others(k) == []
  }

  /** The newest assignment is wanted, and the query for it succeeds. */
  ghost predicate Wanted(e: Environment, v: Server, c: Circumstances, id: nat) {
    !v.session.closed && c.loads && PendingId(v.rows, e.device) == Some(id) && id in v.rows
  }

  /** The record sent last on the connection was this frame's, and is acknowledged. */
  predicate Arrived(s: SessionState, frameID: U32) {
    s.lastFrameID == frameID && s.lastSentSeq != 0 && s.ackedSeq == s.lastSentSeq
  }

  /** The call goes past its checks: no failed rendering, attempts left in both budgets, and no repeat too early. */
  predicate Passes(s: SessionState, id: nat, row: Row, elapsed: bool) {
    && s.renderFailedID != id && row.sendAttempts < 9
    && (s.attemptID == id ==> !Arrived(s, row.frameID) && elapsed && s.attempts < 3)
  }

  // ---------------------------------------------------------------------------------------------
  // Stages without disturbances
  // ---------------------------------------------------------------------------------------------

  lemma QuietStage(e: Environment, devices: set<string>, v: Server, job: Job, c: Circumstances,
                   others: nat -> seq<Disturbance>, k: nat)
    requires Quiet(others) && !job.NoJob? && !job.Prepared? && !job.Written?
    ensures var p := Stage(e, v, job, c);
            Rest(e, devices, v, job, c, others, k) == Rest(e, devices, p.server, p.job, c, others, k + 1)
  {
    hide Rest, Stage;
    assert others(k) == [];
    RestSilent(e, devices, v, job, c, others, k);
  }

  lemma QuietEnd(e: Environment, devices: set<string>, v: Server, job: Job, c: Circumstances,
                 others: nat -> seq<Disturbance>, k: nat)
    requires Quiet(others) && (job.NoJob? || job.Failing?)
    ensures Rest(e, devices, v, job, c, others, k) == Outcome(if job.NoJob? then v else Ended(e, v, job, c), [], false)
  {
    hide Rest, Ended;
    assert others(k) == [];
    if job.NoJob? {
      RestNone(e, devices, v, c, others, k);
    } else {
      RestEnds(e, devices, v, job, c, others, k);
    }
  }

  lemma QuietWrite(e: Environment, devices: set<string>, v: Server, id: nat, record: ImageRecord, pixels: Bytes,
                   c: Circumstances, others: nat -> seq<Disturbance>, k: nat)
    requires Quiet(others)
    ensures Rest(e, devices, v, Prepared(id, record, pixels), c, others, k) ==
              Outcome(Ended(e, v, Written(id, record, pixels, c.completes), c), Put(e, record, c), c.completes)
  {
    hide Rest, Ended, Put;
    assert others(k) == [] && others(k + 1) == [];
    RestWrites(e, devices, v, id, record, pixels, c, others, k);
  }

  /** The call from its check on. */
  lemma Checking(e: Environment, devices: set<string>, v: Server, c: Circumstances, others: nat -> seq<Disturbance>,
                 id: nat)
    requires Quiet(others) && Wanted(e, v, c, id)
    ensures var n := AfterCheck(v.session, Loaded(id, v.rows[id], v.session.display), c.elapsed);
            Attempted(e, devices, v, c, others) == Rest(e, devices, v.(session := n.0), n.1, c, others, 2)
  {
    hide Rest, AfterCheck, PendingId;
    QuietStage(e, devices, v, Begun(v.session.display), c, others, 0);
    QuietStage(e, devices, v, Loaded(id, v.rows[id], v.session.display), c, others, 1);
  }

  // ---------------------------------------------------------------------------------------------
  // Calls that write nothing
  // ---------------------------------------------------------------------------------------------

  /** Nothing wanted, or not to be had: lines 366-379. */
  lemma Unwanted(e: Environment, devices: set<string>, v: Server, c: Circumstances, others: nat -> seq<Disturbance>)
    requires Quiet(others) && (v.session.closed || !c.loads || PendingId(v.rows, e.device) == None)
    ensures Attempted(e, devices, v, c, others) == Outcome(v, [], false)
  {
    hide Rest, PendingId;
    if !v.session.closed {
      QuietStage(e, devices, v, Begun(v.session.display), c, others, 0);
      QuietEnd(e, devices, v, NoJob, c, others, 1);
    }
  }

  /** A failed rendering, a frame that has arrived, or a repeat before the interval is over: lines 381-403. */
  lemma Waits(e: Environment, devices: set<string>, v: Server, c: Circumstances, others: nat -> seq<Disturbance>,
              id: nat)
    requires Quiet(others) && Wanted(e, v, c, id)
    requires var s := v.session;
             || s.renderFailedID == id
             || (v.rows[id].sendAttempts < 9 && s.attemptID == id && (Arrived(s, v.rows[id].frameID) || !c.elapsed))
    ensures Attempted(e, devices, v, c, others) == Outcome(v, [], false)
  {
    hide Rest, PendingId;
    Checking(e, devices, v, c, others, id);
    QuietEnd(e, devices, v, NoJob, c, others, 2);
  }

  /** The lifetime budget is used up: the assignment fails for good, lines 385-393. */
  lemma GivesUp(e: Environment, devices: set<string>, v: Server, c: Circumstances, others: nat -> seq<Disturbance>,
                id: nat)
    requires Quiet(others) && Wanted(e, v, c, id)
    requires v.session.renderFailedID != id && v.rows[id].sendAttempts >= 9
    ensures Attempted(e, devices, v, c, others) ==
              Outcome(if c.stores then v.(rows := v.rows[id := v.rows[id].(state := State.Failed)]) else v, [], false)
  {
    hide Rest, Newest;
    Checking(e, devices, v, c, others, id);
    QuietEnd(e, devices, v, Failing(id, GiveUp), c, others, 2);
  }

  /** The connection's budget is used up: it is closed, and the next one may try again, lines 404-412. */
  lemma Reconnects(e: Environment, devices: set<string>, v: Server, c: Circumstances, others: nat -> seq<Disturbance>,
                   id: nat)
    requires Quiet(others) && Wanted(e, v, c, id)
    requires var s := v.session;
             && s.renderFailedID != id && v.rows[id].sendAttempts < 9
             && s.attemptID == id && !Arrived(s, v.rows[id].frameID) && c.elapsed && s.attempts >= 3
    ensures Attempted(e, devices, v, c, others) ==
              Outcome(v.(rows := if c.stores then v.rows[id := v.rows[id].(state := State.Error)] else v.rows,
                         session := v.session.(closed := true)), [], false)
  {
    hide Rest, Newest;
    Checking(e, devices, v, c, others, id);
    QuietEnd(e, devices, v, Failing(id, Reconnect), c, others, 2);
  }

  // ---------------------------------------------------------------------------------------------
  // Calls past their checks
  // ---------------------------------------------------------------------------------------------

  /** The attempts made on this connection at the assignment before this one. */
  function Earlier(s: SessionState, id: nat): nat {
    if s.attemptID == id then s.attempts else 0
  }

  lemma PassesDecides(s: SessionState, id: nat, row: Row, elapsed: bool)
    ensures Passes(s, id, row, elapsed) <==> Decide(s, id, row, elapsed) == Proceed
  {
  }

  lemma Passing(e: Environment, devices: set<string>, v: Server, c: Circumstances, others: nat -> seq<Disturbance>,
                id: nat)
    requires Quiet(others) && Wanted(e, v, c, id) && Passes(v.session, id, v.rows[id], c.elapsed)
    ensures var s := v.session.(attemptID := id, attempts := Earlier(v.session, id));
            Attempted(e, devices, v, c, others) ==
              Rest(e, devices, v.(session := s), Checked(id, v.rows[id], v.session.display), c, others, 2)
  {
    hide Rest, PendingId, Decide, Passes;
    Checking(e, devices, v, c, others, id);
    PassesDecides(v.session, id, v.rows[id], c.elapsed);
  }

  /** A frame that does not render is noted, neither counted nor a reason to reconnect: lines 417-428. */
  lemma CannotRender(e: Environment, devices: set<string>, v: Server, c: Circumstances,
                     others: nat -> seq<Disturbance>, id: nat)
    requires Quiet(others) && Wanted(e, v, c, id) && Passes(v.session, id, v.rows[id], c.elapsed)
    requires v.rows[id].rendered == None
    ensures var s := v.session.(attemptID := id, attempts := Earlier(v.session, id), renderFailedID := id);
            Attempted(e, devices, v, c, others) ==
              Outcome(v.(rows := if c.stores then v.rows[id := v.rows[id].(state := State.Error)] else v.rows,
                         session := s), [], false)
  {
    hide Rest, Newest, Passes;
    Passing(e, devices, v, c, others, id);
    var s := v.session.(attemptID := id, attempts := Earlier(v.session, id));
    QuietStage(e, devices, v.(session := s), Checked(id, v.rows[id], v.session.display), c, others, 2);
    QuietEnd(e, devices, v.(session := s.(renderFailedID := id)), Failing(id, Retry), c, others, 3);
  }

  /** What the tablet is known to show: the frame sent last, if a status named it or its record was acknowledged. */
  function KnownShown(s: SessionState): Bytes {
    if s.lastFrameID != 0 && (s.display == s.lastFrameID || (s.lastSentSeq != 0 && s.ackedSeq == s.lastSentSeq))
    then s.lastFrame else []
  }

  function KnownID(s: SessionState): Option<U32> {
    if s.lastFrameID != 0 && (s.display == s.lastFrameID || (s.lastSentSeq != 0 && s.ackedSeq == s.lastSentSeq))
    then Some(s.lastFrameID) else None
  }

  function NumberNow(s: SessionState): U32 {
    if s.nextSeq == 0 then 1 else s.nextSeq
  }

  function NumberLater(s: SessionState): U32 {
    if NumberNow(s) == TWO32 - 1 then 1 else NumberNow(s) + 1
  }

  /** The record of the call: the frame's own id, the next number, and the change against what the tablet shows. */
  ghost function RecordOf(e: Environment, s: SessionState, row: Row): ImageRecord
    requires row.rendered.Some?
  {
    ImageRecord(NumberNow(s), row.frameID,
                Changed(row.rendered.value, KnownShown(s), e.width, e.height, s.frameWidth, s.frameHeight), KnownID(s))
  }

  lemma RecordNumber(e: Environment, s: SessionState, row: Row)
    requires row.rendered.Some?
    ensures RecordOf(e, s, row).sequence == NumberNow(s) && RecordOf(e, s, row).frameID == row.frameID
  {
    hide Changed;
  }

  /** The session once the attempt has its number. */
  function Numbering(s: SessionState, id: nat): SessionState {
    s.(attemptID := id, attempts := Earlier(s, id) + 1, nextSeq := NumberLater(s))
  }

  lemma RenderStage(e: Environment, v: Server, id: nat, row: Row, c: Circumstances)
    requires row.rendered.Some?
    ensures Stage(e, v, Checked(id, row, v.session.display), c) ==
              Progress(v.(session := v.session.(attempts := v.session.attempts + 1)),
                       Based(id, RecordOf(e, v.session, row).(sequence := 0), row.rendered.value), [])
  {
    hide Changed;
  }

  lemma NumberStage(e: Environment, v: Server, id: nat, record: ImageRecord, pixels: Bytes, c: Circumstances)
    ensures Stage(e, v, Based(id, record, pixels), c) ==
              Progress(v.(session := v.session.(nextSeq := NumberLater(v.session))),
                       Numbered(id, record.(sequence := NumberNow(v.session)), pixels), [])
  {
  }

  lemma PrepareStage(e: Environment, v: Server, id: nat, record: ImageRecord, pixels: Bytes, c: Circumstances)
    requires id in v.rows
    ensures Stage(e, v, Numbered(id, record, pixels), c) ==
              Progress(if c.prepares then v.(rows := v.rows[id := Counting(v.rows[id], record.sequence)]) else v,
                       if c.prepares && Wire(e, record).Ok? then Prepared(id, record, pixels)
                       else Failing(id, Retry), [])
  {
    hide Wire;
  }

  lemma PendingState(t: Table, device: string, id: nat)
    requires PendingId(t, device) == Some(id)
    ensures id in t && t[id].state != Delivered
  {
    hide Newest;
  }

  lemma Rendering(e: Environment, devices: set<string>, v: Server, c: Circumstances,
                  others: nat -> seq<Disturbance>, id: nat)
    requires Quiet(others) && Wanted(e, v, c, id) && Passes(v.session, id, v.rows[id], c.elapsed)
    requires v.rows[id].rendered.Some?
    ensures Attempted(e, devices, v, c, others) ==
              Rest(e, devices, v.(session := Numbering(v.session, id)),
                   Numbered(id, RecordOf(e, v.session, v.rows[id]), v.rows[id].rendered.value), c, others, 4)
  {
    hide Rest, Newest, PendingId, Passes, Changed, Stage, Attempted;
    Passing(e, devices, v, c, others, id);
    var row := v.rows[id];
    var s := v.session.(attemptID := id, attempts := Earlier(v.session, id));
    QuietStage(e, devices, v.(session := s), Checked(id, row, v.session.display), c, others, 2);
    RenderStage(e, v.(session := s), id, row, c);
    var record := RecordOf(e, v.session, row).(sequence := 0);
    var s1 := s.(attempts := s.attempts + 1);
    QuietStage(e, devices, v.(session := s1), Based(id, record, row.rendered.value), c, others, 3);
    NumberStage(e, v.(session := s1), id, record, row.rendered.value, c);
    assert s1.(nextSeq := NumberLater(s1)) == Numbering(v.session, id);
  }

  /** The row once its attempt is counted in the table. */
  function Counting(row: Row, sequence: U32): Row {
    row.(sentSequence := Some(sequence), acknowledged := false, sendAttempts := row.sendAttempts + 1)
  }

  /**
   The attempt cannot be counted in the table, or its record cannot be built: nothing is written, the row is in error,
   and the connection goes on, lines 439-466.
   */
  lemma CannotPrepare(e: Environment, devices: set<string>, v: Server, c: Circumstances,
                      others: nat -> seq<Disturbance>, id: nat)
    requires Quiet(others) && Wanted(e, v, c, id) && Passes(v.session, id, v.rows[id], c.elapsed)
    requires v.rows[id].rendered.Some? && (!c.prepares || Wire(e, RecordOf(e, v.session, v.rows[id])).Err?)
    ensures var row := if c.prepares then Counting(v.rows[id], NumberNow(v.session)) else v.rows[id];
            Attempted(e, devices, v, c, others) ==
              Outcome(v.(rows := v.rows[id := if c.stores then row.(state := State.Error) else row],
                         session := Numbering(v.session, id)), [], false)
  {
    hide Rest, PendingId, Passes, Wire, Numbering, Stage, Attempted, RecordOf;
    Rendering(e, devices, v, c, others, id);
    PendingState(v.rows, e.device, id);
    RecordNumber(e, v.session, v.rows[id]);
    var record := RecordOf(e, v.session, v.rows[id]);
    PrepareStage(e, v.(session := Numbering(v.session, id)), id, record, v.rows[id].rendered.value, c);
    var v1 := v.(session := Numbering(v.session, id));
    var v2 := v1.(rows := if c.prepares then v.rows[id := Counting(v.rows[id], NumberNow(v.session))] else v.rows);
    QuietStage(e, devices, v1, Numbered(id, record, v.rows[id].rendered.value), c, others, 4);
    QuietEnd(e, devices, v2, Failing(id, Retry), c, others, 5);
    assert v.rows[id := v.rows[id]] == v.rows;
  }

  /**
   The record goes out, whole or broken off: the row is sent or in error, and the session remembers the frame or is
   closed, lines 441-466.
   */
  lemma Writes(e: Environment, devices: set<string>, v: Server, c: Circumstances, others: nat -> seq<Disturbance>,
               id: nat)
    requires Quiet(others) && Wanted(e, v, c, id) && Passes(v.session, id, v.rows[id], c.elapsed)
    requires v.rows[id].rendered.Some? && c.prepares && Wire(e, RecordOf(e, v.session, v.rows[id])).Ok?
    ensures var wire := Wire(e, RecordOf(e, v.session, v.rows[id])).value;
            var row, s := Counting(v.rows[id], NumberNow(v.session)), Numbering(v.session, id);
            Attempted(e, devices, v, c, others) ==
              Outcome(v.(rows := v.rows[id := if !c.stores then row
                                              else row.(state := if c.completes then State.Sent else State.Error)],
                         session := if !c.completes then s.(closed := true)
                                    else s.(lastFrameID := v.rows[id].frameID, lastSentSeq := NumberNow(v.session),
                                            lastFrame := v.rows[id].rendered.value, frameWidth := e.width,
                                            frameHeight := e.height)),
                      if c.completes || c.arrived >= |wire| then wire else wire[..c.arrived], c.completes)
  {
    hide Rest, PendingId, Passes, Wire, Numbering, Stage, Attempted, RecordOf;
    Rendering(e, devices, v, c, others, id);
    PendingState(v.rows, e.device, id);
    RecordNumber(e, v.session, v.rows[id]);
    PrepareStage(e, v.(session := Numbering(v.session, id)), id, RecordOf(e, v.session, v.rows[id]),
                 v.rows[id].rendered.value, c);
    var record, pixels := RecordOf(e, v.session, v.rows[id]), v.rows[id].rendered.value;
    var v1 := v.(session := Numbering(v.session, id));
    var v2 := v1.(rows := v.rows[id := Counting(v.rows[id], NumberNow(v.session))]);
    QuietStage(e, devices, v1, Numbered(id, record, pixels), c, others, 4);
    QuietWrite(e, devices, v2, id, record, pixels, c, others, 5);
  }
}
