/** The loop of `deliver` ends, whatever the clock says and whatever others do between and inside its attempts. */
module DeliverLoop {
  import opened Common
  import opened Assignments
  import opened Session
  import opened Attempt
  import opened Store
  import opened Gateway
  import opened Interference
  import opened GatewayAttempt
  import OneCall

  const STAGES: nat := 7

  /** New assignments for the device that come in before stage `j` of an attempt or later. */
  function Inside(others: nat -> seq<Disturbance>, device: string, j: nat): nat
    decreases STAGES - j
  {
    if j >= STAGES then 0 else Arrivals(others(j), device) + Inside(others, device, j + 1)
  }

  /** What comes in around attempts: before each of them, and before each of its stages. */
  datatype Schedule = Schedule(before: nat -> seq<Disturbance>, during: nat -> nat -> seq<Disturbance>)

  /** Assignments that come in right before attempt `k` or inside it. */
  function Around(d: Schedule, device: string, k: nat): nat {
    Arrivals(d.before(k), device) + Inside(d.during(k), device, 0)
  }

  /** Assignments still to come around attempt `k` and later ones, none of them from attempt `horizon` on. */
  ghost function Ahead(d: Schedule, device: string, k: nat, horizon: nat): nat
    decreases horizon - k
  {
    if k >= horizon then 0 else Around(d, device, k) + Ahead(d, device, k + 1, horizon)
  }

  lemma AheadStep(d: Schedule, device: string, k: nat, horizon: nat)
    requires forall j | j >= horizon :: Around(d, device, j) == 0
    ensures Ahead(d, device, k, horizon) == Around(d, device, k) + Ahead(d, device, k + 1, horizon)
  {
  }

  // ---------------------------------------------------------------------------------------------
  // Attempts left
  // ---------------------------------------------------------------------------------------------

  /** Attempts the session may still make at assignment `id`. */
  function LeftAt(s: SessionState, id: nat): nat {
    if s.attemptID != id then MAX_ATTEMPTS
    else if s.attempts >= MAX_ATTEMPTS then 0
    else MAX_ATTEMPTS - s.attempts
  }

  /** Attempts the session may still make at the newest assignment. */
  ghost function Left(v: Server, device: string): nat {
    LeftAt(v.session, Newest(v.rows, device))
  }

  /** One more than what is left at most once the attempt in progress has sent its record; 0 if it will not send one. */
  function Potential(s: SessionState, newest: nat, job: Job): nat {
    match job
    case NoJob => 0
    case Failing(_, _) => 0
    case Begun(_) => LeftAt(s, newest)
    case Loaded(id, _, _) => if LeftAt(s, id) == 0 then 0 else if id == newest then LeftAt(s, id) else MAX_ATTEMPTS + 1
    case Checked(id, _, _) => if id == newest then LeftAt(s, id) else MAX_ATTEMPTS + 1
    case Based(id, _, _) => if id == newest then LeftAt(s, id) + 1 else MAX_ATTEMPTS + 1
    case Numbered(id, _, _) => if id == newest then LeftAt(s, id) + 1 else MAX_ATTEMPTS + 1
    case Prepared(id, _, _) => if id == newest then LeftAt(s, id) + 1 else MAX_ATTEMPTS + 1
    case Written(id, _, _, _) => if id == newest then LeftAt(s, id) + 1 else MAX_ATTEMPTS + 1
  }

  /** An attempt past its checks is at the assignment the session counts for, and one checked has an attempt left. */
  predicate Counting(s: SessionState, job: Job) {
    && (job.Checked? ==> job.id == s.attemptID && s.attempts < MAX_ATTEMPTS)
    && (job.Based? || job.Numbered? || job.Prepared? || job.Written?
        ==> job.id == s.attemptID && 0 < s.attempts <= MAX_ATTEMPTS)
  }

  ghost predicate RowsBelow(v: Server) {
    forall id | id in v.rows :: id < v.nextId
  }

  /** One disturbance raises what is left by no more than a whole count for an assignment it queues. */
  lemma {:induction false} DisturbedRaises(devices: set<string>, device: string, v: Server, d: Disturbance, job: Job)
    requires RowsBelow(v) && Counting(v.session, job)
    ensures var v' := Disturbed(devices, device, v, d);
            && RowsBelow(v') && Counting(v'.session, job)
            && Potential(v'.session, Newest(v'.rows, device), job) <=
                 Potential(v.session, Newest(v.rows, device), job) + MAX_ATTEMPTS * Arrivals([d], device)
            && Left(v', device) <= Left(v, device) + MAX_ATTEMPTS * Arrivals([d], device)
  {
    hide Newest, Disturbed, Arrivals;
    DisturbedRows(devices, device, v, d);
    DisturbedKeeps(devices, device, v, d);
    AtMostOne(d, device);
    var v' := Disturbed(devices, device, v, d);
    assert v'.session.attemptID == v.session.attemptID && v'.session.attempts == v.session.attempts;
  }

  lemma AtMostOne(d: Disturbance, device: string)
    ensures Arrivals([d], device) == 0 || Arrivals([d], device) == 1
  {
    assert [d][1..] == [];
  }

  lemma DisturbedRows(devices: set<string>, device: string, v: Server, d: Disturbance)
    requires RowsBelow(v)
    ensures RowsBelow(Disturbed(devices, device, v, d))
  {
    hide Newest;
    match d
    case Statement(op) => ExecuteKeepsIdentity(v.rows, device, op);
    case _ =>
  }

  lemma {:induction false} BatchRaises(devices: set<string>, device: string, v: Server, batch: seq<Disturbance>,
                                       job: Job)
    requires RowsBelow(v) && Counting(v.session, job)
    ensures var v' := DisturbedBy(devices, device, v, batch);
            && RowsBelow(v') && Counting(v'.session, job)
            && Potential(v'.session, Newest(v'.rows, device), job) <=
                 Potential(v.session, Newest(v.rows, device), job) + MAX_ATTEMPTS * Arrivals(batch, device)
            && Left(v', device) <= Left(v, device) + MAX_ATTEMPTS * Arrivals(batch, device)
    decreases |batch|
  {
    hide Newest, Disturbed, Potential, Counting, RowsBelow, Left;
    if batch != [] {
      DisturbedRaises(devices, device, v, batch[0], job);
      BatchRaises(devices, device, Disturbed(devices, device, v, batch[0]), batch[1..], job);
      assert [batch[0]][1..] == [];
      assert Arrivals(batch, device) == Arrivals([batch[0]], device) + Arrivals(batch[1..], device);
    }
  }

  /** The statements of an attempt leave the newest assignment the newest. */
  lemma StageNewest(e: Environment, v: Server, job: Job, c: Circumstances)
    requires !job.NoJob?
    ensures var p := Stage(e, v, job, c);
            && Newest(p.server.rows, e.device) == Newest(v.rows, e.device) && (RowsBelow(v) ==> RowsBelow(p.server))
  {
    hide Wire, Patch, ConfirmedBase, Decide, Issued, AfterIssue, Newest, PendingId;
    NewestSame(v.rows, Stage(e, v, job, c).server.rows, e.device);
  }

  ghost predicate Lowers(e: Environment, v: Server, job: Job, p: Progress) {
    && Counting(p.server.session, p.job)
    && Potential(p.server.session, Newest(v.rows, e.device), p.job)
         <= Potential(v.session, Newest(v.rows, e.device), job)
    && (job.Written? && job.complete
        ==> LeftAt(p.server.session, Newest(v.rows, e.device)) < Potential(v.session, Newest(v.rows, e.device), job))
  }

  lemma LoadLowers(e: Environment, v: Server, job: Job, c: Circumstances)
    requires job.Begun?
    ensures Lowers(e, v, job, Stage(e, v, job, c))
  {
    hide Wire, AfterRender, AfterNumber, AfterPrepare, AfterCheck, Ended, Put, Newest;
  }

  /** The checks let an assignment through only with an attempt left, and start counting for it. */
  lemma CheckCounts(s: SessionState, job: Job, elapsed: bool, newest: nat)
    requires job.Loaded?
    ensures var (s', job') := AfterCheck(s, job, elapsed);
            Counting(s', job') && Potential(s', newest, job') <= Potential(s, newest, job)
  {
    hide Acknowledged;
  }

  /** Rendering counts the attempt, numbering does nothing to the count. */
  lemma RenderCounts(s: SessionState, job: Job, newest: nat, width: int, height: int)
    requires (job.Checked? || job.Based?) && Counting(s, job)
    ensures var (s', job') := if job.Checked? then AfterRender(s, job, width, height) else AfterNumber(s, job);
            Counting(s', job') && Potential(s', newest, job') <= Potential(s, newest, job)
  {
    hide Patch, ConfirmedBase, Issued;
  }

  lemma PrepareCounts(s: SessionState, t: Table, job: Job, newest: nat, outcome: PrepareOutcome)
    requires job.Numbered? && Counting(s, job)
    ensures var job' := AfterPrepare(t, job, outcome).1;
            Counting(s, job') && Potential(s, newest, job') <= Potential(s, newest, job)
  {
  }

  lemma EndCounts(s: SessionState, job: Job, newest: nat, width: int, height: int)
    requires (job.Written? || job.Failing?) && Counting(s, job)
    ensures var s' := Remembered(s, job, width, height);
            && Counting(s', NoJob) && Potential(s', newest, NoJob) <= Potential(s, newest, job)
            && (job.Written? ==> LeftAt(s', newest) < Potential(s, newest, job))
  {
  }

  lemma NotedLowers(e: Environment, v: Server, job: Job, c: Circumstances)
    requires (job.Loaded? || job.Checked? || job.Based?) && Counting(v.session, job)
    ensures Lowers(e, v, job, Stage(e, v, job, c))
  {
    hide Stage, AfterCheck, AfterRender, AfterNumber, Newest, Potential, Counting;
    EarlyProgress(e, v, job, c);
    if job.Loaded? {
      CheckCounts(v.session, job, c.elapsed, Newest(v.rows, e.device));
    } else {
      RenderCounts(v.session, job, Newest(v.rows, e.device), e.width, e.height);
    }
  }

  lemma LateLowers(e: Environment, v: Server, job: Job, c: Circumstances)
    requires (job.Numbered? || job.Prepared? || job.Written? || job.Failing?) && Counting(v.session, job)
    ensures Lowers(e, v, job, Stage(e, v, job, c))
  {
    hide Stage, AfterPrepare, Wire, Put, Newest, Remembered, Verdicted;
    if job.Numbered? {
      PrepareProgress(e, v, job, c);
      PrepareCounts(v.session, v.rows, job, Newest(v.rows, e.device), PreparedAs(e, job.record, c));
    } else if job.Prepared? {
      WriteProgress(e, v, job, c);
    } else {
      LastProgress(e, v, job, c);
      EndCounts(v.session, job, Newest(v.rows, e.device), e.width, e.height);
    }
  }

  /** A stage never raises the potential, and a send uses one attempt up. */
  lemma StageLowers(e: Environment, v: Server, job: Job, c: Circumstances)
    requires !job.NoJob? && Counting(v.session, job)
    ensures Lowers(e, v, job, Stage(e, v, job, c))
  {
    hide Stage, Lowers;
    if job.Begun? {
      LoadLowers(e, v, job, c);
    } else if job.Loaded? || job.Checked? || job.Based? {
      NotedLowers(e, v, job, c);
    } else {
      LateLowers(e, v, job, c);
    }
  }

  /** Whatever comes in during the rest of an attempt, a send leaves less than there was, but for what came in. */
  lemma {:induction false} RestLowers(e: Environment, devices: set<string>, v: Server, job: Job, c: Circumstances,
                                      others: nat -> seq<Disturbance>, k: nat)
    requires RowsBelow(v) && Counting(v.session, job) && k + StagesLeft(job) <= STAGES
    ensures var o := Rest(e, devices, v, job, c, others, k);
            o.sent ==>
              Left(o.server, e.device)
                < Potential(v.session, Newest(v.rows, e.device), job) + MAX_ATTEMPTS * Inside(others, e.device, k)
    decreases StagesLeft(job)
  {
    hide Rest, Stage, DisturbedBy, Newest, Potential, Counting, RowsBelow, LeftAt, Arrivals;
    if job.NoJob? {
      RestNone(e, devices, v, c, others, k);
    } else {
      var v1 := DisturbedBy(devices, e.device, v, others(k));
      BatchRaises(devices, e.device, v, others(k), job);
      StageAdvances(e, v1, job, c);
      StageNewest(e, v1, job, c);
      StageLowers(e, v1, job, c);
      var p := Stage(e, v1, job, c);
      RestStep(e, devices, v, job, c, others, k);
      if job.Written? && job.complete {
        RestEnds(e, devices, v, job, c, others, k);
        EndedStage(e, v1, job, c);
      } else {
        RestLowers(e, devices, p.server, p.job, c, others, k + 1);
      }
    }
  }

  lemma EndedStage(e: Environment, v: Server, job: Job, c: Circumstances)
    requires job.Written?
    ensures Stage(e, v, job, c).server == Ended(e, v, job, c)
  {
    hide Ended;
  }

  /** A successful call uses up one of the attempts left, or others have queued new assignments meanwhile. */
  lemma SendLowersLeft(e: Environment, devices: set<string>, v: Server, c: Circumstances,
                       others: nat -> seq<Disturbance>)
    requires RowsBelow(v)
    ensures var o := Attempted(e, devices, v, c, others);
            o.sent ==> Left(o.server, e.device) < Left(v, e.device) + MAX_ATTEMPTS * Inside(others, e.device, 0)
  {
    hide Rest, Inside, Newest;
    if !v.session.closed {
      RestLowers(e, devices, v, Begun(v.session.display), c, others, 0);
    }
  }

  lemma ValidRows(store: AssignmentStore, session: TabletSession)
    requires store.Valid()
    ensures RowsBelow(Now(store, session))
  {
  }

  // ---------------------------------------------------------------------------------------------
  // The loop
  // ---------------------------------------------------------------------------------------------

  /** Attempt `k` of the loop, made by a server in state `v`, with what comes in right before it and inside it. */
  ghost function Turn(e: Environment, devices: set<string>, circumstances: nat -> Circumstances, schedule: Schedule,
                         v: Server, k: nat): Outcome {
    Attempted(e, devices, DisturbedBy(devices, e.device, v, schedule.before(k)), circumstances(k), schedule.during(k))
  }

  /** The server after `n` attempts in a row, whatever they come to, and all they have written. */
  ghost function After(e: Environment, devices: set<string>, circumstances: nat -> Circumstances, schedule: Schedule,
                       v: Server, n: nat): (Server, Bytes) {
    if n == 0 then (v, [])
    else
      var (v1, written) := After(e, devices, circumstances, schedule, v, n - 1);
      var o := Turn(e, devices, circumstances, schedule, v1, n - 1);
      (o.server, written + o.written)
  }

  /** Whether attempt `k` of the row sends its record. */
  ghost predicate Sends(e: Environment, devices: set<string>, circumstances: nat -> Circumstances, schedule: Schedule,
                        v: Server, k: nat) {
    Turn(e, devices, circumstances, schedule, After(e, devices, circumstances, schedule, v, k).0, k).sent
  }

  /** Nothing fails: the assignment loads, renders, is counted, fits a record, is written and stored. */
  ghost predicate AllWell(e: Environment, v: Server, c: Circumstances) {
    && c.loads && c.prepares && c.stores && c.completes && !v.session.closed
    && forall id | id in v.rows && PendingId(v.rows, e.device) == Some(id) ::
         v.rows[id].rendered.Some? && id != v.session.renderFailedID && v.rows[id].sendAttempts < MAX_TOTAL_ATTEMPTS
         && Wire(e, OneCall.RecordOf(e, v.session, v.rows[id])).Ok?
  }

  /** When an attempt that nothing came in around sends nothing, what is still wanted has been tried already. */
  lemma NothingUntried(e: Environment, devices: set<string>, v: Server, c: Circumstances,
                       others: nat -> seq<Disturbance>)
    requires AllWell(e, v, c) && OneCall.Quiet(others) && !Attempted(e, devices, v, c, others).sent
    ensures var v' := Attempted(e, devices, v, c, others).server;
            PendingId(v'.rows, e.device).Some? ==> PendingId(v'.rows, e.device) == Some(v'.session.attemptID)
  {
    hide Attempted, Newest, Wire, OneCall.RecordOf, OneCall.Numbering, OneCall.Quiet;
    var pending := PendingId(v.rows, e.device);
    if pending == None {
      OneCall.Unwanted(e, devices, v, c, others);
    } else {
      var id := pending.value;
      PendingThere(v.rows, e.device);
      if OneCall.Passes(v.session, id, v.rows[id], c.elapsed) {
        OneCall.Writes(e, devices, v, c, others, id);
      } else if OneCall.Arrived(v.session, v.rows[id].frameID) || !c.elapsed {
        OneCall.Waits(e, devices, v, c, others, id);
      } else {
        OneCall.Reconnects(e, devices, v, c, others, id);
        ErrorKeepsNewest(v.rows, e.device, id);
      }
    }
  }

  lemma ErrorKeepsNewest(t: Table, device: string, id: nat)
    requires id in t
    ensures Newest(t[id := t[id].(state := State.Error)], device) == Newest(t, device)
  {
    NewestSame(t, t[id := t[id].(state := State.Error)], device);
  }

  /** The first `n` attempts all send. */
  ghost predicate AllSend(e: Environment, devices: set<string>, circumstances: nat -> Circumstances,
                          schedule: Schedule, v: Server, n: nat) {
    forall k | 0 <= k < n :: Sends(e, devices, circumstances, schedule, v, k)
  }

  /** Attempt `n` is the first one that does not. */
  ghost predicate StopsAt(e: Environment, devices: set<string>, circumstances: nat -> Circumstances,
                          schedule: Schedule, v: Server, n: nat) {
    AllSend(e, devices, circumstances, schedule, v, n) && !Sends(e, devices, circumstances, schedule, v, n)
  }

  /** Server and stream after `n` attempts in a row. */
  ghost predicate LeftBy(e: Environment, devices: set<string>, circumstances: nat -> Circumstances,
                         schedule: Schedule, start: Server, bytes: Bytes, n: nat, v: Server, stream: Bytes) {
    var (v', written) := After(e, devices, circumstances, schedule, start, n);
    v == v' && stream == bytes + written
  }

  lemma LeftByNext(e: Environment, devices: set<string>, circumstances: nat -> Circumstances, schedule: Schedule,
                   start: Server, bytes: Bytes, n: nat, v: Server, stream: Bytes)
    requires LeftBy(e, devices, circumstances, schedule, start, bytes, n, v, stream)
    ensures var o := Turn(e, devices, circumstances, schedule, v, n);
            LeftBy(e, devices, circumstances, schedule, start, bytes, n + 1, o.server, stream + o.written)
  {
    hide Turn;
    var written := After(e, devices, circumstances, schedule, start, n).1;
    Join(bytes, written, Turn(e, devices, circumstances, schedule, v, n).written);
  }

  lemma Join(a: Bytes, b: Bytes, c: Bytes)
    ensures (a + b) + c == a + (b + c)
  {
  }

  /** Before pass `n` of the loop: all attempts so far have sent, and server and stream are as they left them. */
  ghost predicate Underway(e: Environment, devices: set<string>, circumstances: nat -> Circumstances,
                           schedule: Schedule, start: Server, bytes: Bytes, n: nat, v: Server, stream: Bytes) {
    && LeftBy(e, devices, circumstances, schedule, start, bytes, n, v, stream)
    && AllSend(e, devices, circumstances, schedule, start, n)
  }

  /** The loop ends with attempt `n`, the first that sends nothing; server and stream are as it leaves them. */
  ghost predicate EndsWith(e: Environment, devices: set<string>, circumstances: nat -> Circumstances,
                           schedule: Schedule, start: Server, bytes: Bytes, n: nat, v: Server, stream: Bytes) {
    && LeftBy(e, devices, circumstances, schedule, start, bytes, n + 1, v, stream)
    && StopsAt(e, devices, circumstances, schedule, start, n)
  }

  /**
   So the loop does not stop over an assignment it has not tried, one queued during its last send included: if nothing
   comes in around the attempt it ends with, and nothing fails there, an assignment still wanted was tried.
   */
  lemma LoopSettles(e: Environment, devices: set<string>, circumstances: nat -> Circumstances, schedule: Schedule,
                    start: Server, bytes: Bytes, n: nat, v: Server, stream: Bytes)
    requires EndsWith(e, devices, circumstances, schedule, start, bytes, n, v, stream)
    requires schedule.before(n) == [] && OneCall.Quiet(schedule.during(n))
    requires AllWell(e, After(e, devices, circumstances, schedule, start, n).0, circumstances(n))
    ensures PendingId(v.rows, e.device).Some? ==> PendingId(v.rows, e.device) == Some(v.session.attemptID)
  {
    hide Attempted, AllWell, OneCall.Quiet, AllSend, PendingId;
    var v1 := After(e, devices, circumstances, schedule, start, n).0;
    NothingUntried(e, devices, v1, circumstances(n), schedule.during(n));
  }

  lemma FirstPass(e: Environment, devices: set<string>, circumstances: nat -> Circumstances, schedule: Schedule,
                  start: Server, bytes: Bytes)
    ensures Underway(e, devices, circumstances, schedule, start, bytes, 0, start, bytes)
  {
    assert bytes + [] == bytes;
  }

  lemma NextPass(e: Environment, devices: set<string>, circumstances: nat -> Circumstances, schedule: Schedule,
                 start: Server, bytes: Bytes, n: nat, v: Server, stream: Bytes, o: Outcome)
    requires Underway(e, devices, circumstances, schedule, start, bytes, n, v, stream)
    requires o == Turn(e, devices, circumstances, schedule, v, n)
    ensures if o.sent
            then Underway(e, devices, circumstances, schedule, start, bytes, n + 1, o.server, stream + o.written)
            else EndsWith(e, devices, circumstances, schedule, start, bytes, n, o.server, stream + o.written)
  {
    hide Turn;
    LeftByNext(e, devices, circumstances, schedule, start, bytes, n, v, stream);
    hide After;
  }

  /** One pass of the loop: what comes in before it, and the attempt. */
  method TakeTurn(e: Environment, store: AssignmentStore, session: TabletSession, circumstances: nat -> Circumstances,
                  schedule: Schedule, k: nat) returns (sent: bool)
    requires store.Valid()
    modifies store`rows, store`nextId, session, session.connection
    ensures store.Valid()
    ensures Effect(store, session, old(session.connection.sent), sent,
                   Turn(e, store.devices, circumstances, schedule, old(Now(store, session)), k))
    ensures sent ==> Left(Now(store, session), e.device)
                       < old(Left(Now(store, session), e.device)) + MAX_ATTEMPTS * Around(schedule, e.device, k)
  {
    hide Attempted, DisturbedBy, Newest, Left, Arrivals, Inside, TabletSession.View, RowsBelow;
    ValidRows(store, session);
    BatchRaises(store.devices, e.device, Now(store, session), schedule.before(k), NoJob);
    DisturbBy(store, session, e.device, schedule.before(k));
    ValidRows(store, session);
    SendLowersLeft(e, store.devices, Now(store, session), circumstances(k), schedule.during(k));
    sent := DeliverLatest(e, store, session, circumstances(k), schedule.during(k));
  }

  /**
   `deliver`: attempts follow each other while they succeed. The outcome is that of the first attempts in a row, up to
   and including the first one that sends nothing. With finitely many assignments ever queued the pair
   (assignments to come, attempts left at the newest) falls with every send, so the loop ends and the number of
   sends is bounded, however the clock advances and whatever others do before, between and inside the attempts.
   */
  method Deliver(e: Environment, store: AssignmentStore, session: TabletSession, circumstances: nat -> Circumstances,
                 schedule: Schedule, ghost horizon: nat) returns (sends: nat)
    requires store.Valid()
    requires forall k | k >= horizon :: Around(schedule, e.device, k) == 0
    modifies store`rows, store`nextId, session, session.connection
    ensures store.Valid()
    ensures EndsWith(e, store.devices, circumstances, schedule, old(Now(store, session)), old(session.connection.sent),
                     sends, Now(store, session), session.connection.sent)
    ensures sends <= old(Left(Now(store, session), e.device)) + MAX_ATTEMPTS * Ahead(schedule, e.device, 0, horizon)
  {
    hide Now, Turn, Underway, EndsWith, Newest, Left, Ahead, Around, TabletSession.View, AssignmentStore.Valid;
    sends := 0;
    ghost var start, bytes := Now(store, session), session.connection.sent;
    ghost var allowed := Left(start, e.device) + MAX_ATTEMPTS * Ahead(schedule, e.device, 0, horizon);
    FirstPass(e, store.devices, circumstances, schedule, start, bytes);
    while true
      invariant store.Valid()
      invariant Underway(e, store.devices, circumstances, schedule, start, bytes, sends, Now(store, session),
                         session.connection.sent)
      invariant sends + Left(Now(store, session), e.device) + MAX_ATTEMPTS * Ahead(schedule, e.device, sends, horizon)
                  <= allowed
      decreases Ahead(schedule, e.device, sends, horizon), Left(Now(store, session), e.device)
    {
      ghost var v, stream := Now(store, session), session.connection.sent;
      AheadStep(schedule, e.device, sends, horizon);
      var sent := TakeTurn(e, store, session, circumstances, schedule, sends);
      NextPass(e, store.devices, circumstances, schedule, start, bytes, sends, v, stream,
               Turn(e, store.devices, circumstances, schedule, v, sends));
      if !sent {
        return;
      }
      sends := sends + 1;
    }
  }
}
