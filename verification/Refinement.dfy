/**
 The gateway's code takes steps of the protocol: one call of `deliverLatest` whose connection lasts, with any steps of
 others in between its own, is a run of the state machine. `Detachment` has the calls whose connection ends.
 */
module Refinement {
  import opened Common
  import opened Delta
  import opened Assignments
  import opened Session
  import opened Attempt
  import opened Delivery
  import opened Store
  import opened Interference
  import opened GatewayAttempt
  import M = ImageMessage

  // ---------------------------------------------------------------------------------------------
  // One stage
  // ---------------------------------------------------------------------------------------------

  /** The world seen from this gateway: its device and display size. */
  ghost predicate Serves(e: Environment, w: World) {
    Sized(w) && w.connected && w.device == e.device && w.catalog.width == e.width && w.catalog.height == e.height
  }

  ghost function ServerOf(w: World): Server {
    Server(w.table, w.nextId, w.session)
  }

  /** The step a stage takes. */
  ghost function StageStep(e: Environment, job: Job, c: Circumstances): Step
    requires !job.NoJob?
  {
    match job
    case Begun(_) => Load(c.loads)
    case Loaded(_, _, _) => Check(c.elapsed)
    case Checked(_, _, _) => Render
    case Based(_, _, _) => Number
    case Numbered(_, record, _) => Prepare(PreparedAs(e, record, c))
    case Prepared(_, record, _) => Write(c.completes, Arrives(e, record, c))
    case Written(_, _, _, _) => Finish(c.stores)
    case Failing(_, _) => Finish(c.stores)
  }

  /** The record arrives exactly if all of its bytes were put on the stream. */
  ghost predicate Arrives(e: Environment, record: ImageRecord, c: Circumstances) {
    c.completes || Ok(Put(e, record, c)) == Wire(e, record)
  }

  /** A record is prepared only if it could be built. */
  ghost predicate Built(e: Environment, job: Job) {
    job.Prepared? ==> Wire(e, job.record).Ok?
  }

  /** The records a run puts on the wire. */
  ghost function Records(w: World, steps: seq<Step>): seq<ImageRecord>
    requires Sized(w) && Possible(w, steps)
    decreases |steps|
  {
    if steps == [] then []
    else (if steps[0].Write? && steps[0].arrives then [w.job.record] else []) + Records(Next(w, steps[0]), steps[1..])
  }

  /** What the next stage does to the server, it does to the world. */
  ghost predicate Agrees(e: Environment, w: World, c: Circumstances, step: Step)
    requires Sized(w) && Enabled(w, step) && !w.job.NoJob?
  {
    var w', p := Next(w, step), Stage(e, ServerOf(w), w.job, c);
    && ServerOf(w') == p.server && w'.job == p.job && Serves(e, w') && Built(e, w'.job)
    && w'.toTablet == if step.Write? && step.arrives then w.toTablet + [w.job.record] else w.toTablet
  }

  lemma LoadStep(w: World, loads: bool)
    requires Sized(w) && w.connected && w.job.Begun?
    ensures Enabled(w, Load(loads)) && Next(w, Load(loads)) == w.(job := AfterLoad(w.table, w.device, w.job, loads))
  {
    hide AfterLoad;
  }

  lemma CheckStep(w: World, elapsed: bool)
    requires Sized(w) && w.connected && w.job.Loaded?
    ensures var n := AfterCheck(w.session, w.job, elapsed);
            Enabled(w, Check(elapsed)) && Next(w, Check(elapsed)) == w.(session := n.0, job := n.1)
  {
    hide AfterCheck;
  }

  lemma RenderStep(w: World)
    requires Sized(w) && w.connected && w.job.Checked?
    ensures var n := AfterRender(w.session, w.job, w.catalog.width, w.catalog.height);
            Enabled(w, Render) && Next(w, Render) == w.(session := n.0, job := n.1)
  {
    hide AfterRender;
  }

  lemma NumberStep(w: World)
    requires Sized(w) && w.connected && w.job.Based?
    ensures var n := AfterNumber(w.session, w.job);
            Enabled(w, Number) && Next(w, Number) == w.(session := n.0, job := n.1)
  {
    hide AfterNumber;
  }

  lemma EarlyStep(e: Environment, w: World, c: Circumstances)
    requires Serves(e, w) && (w.job.Begun? || w.job.Loaded? || w.job.Checked? || w.job.Based?)
    ensures var step, n := StageStep(e, w.job, c),
            Noted(w.table, w.device, w.session, w.job, c, w.catalog.width, w.catalog.height);
            Enabled(w, step) && !step.Write? && Next(w, step) == w.(session := n.0, job := n.1)
  {
    hide Next, Enabled, AfterLoad, AfterCheck, AfterRender, AfterNumber;
    if w.job.Begun? {
      LoadStep(w, c.loads);
    } else if w.job.Loaded? {
      CheckStep(w, c.elapsed);
    } else if w.job.Checked? {
      RenderStep(w);
    } else {
      NumberStep(w);
    }
  }

  lemma EarlyStage(e: Environment, w: World, c: Circumstances)
    requires Serves(e, w) && (w.job.Begun? || w.job.Loaded? || w.job.Checked? || w.job.Based?)
    ensures var step := StageStep(e, w.job, c); Enabled(w, step) && Agrees(e, w, c, step)
  {
    hide Next, Stage, Enabled, Noted;
    EarlyStep(e, w, c);
    EarlyProgress(e, ServerOf(w), w.job, c);
  }

  lemma PrepareStage(e: Environment, w: World, c: Circumstances)
    requires Serves(e, w) && w.job.Numbered?
    ensures var step := StageStep(e, w.job, c); Enabled(w, step) && Agrees(e, w, c, step)
  {
    hide Next, Stage, Enabled, Wire, AfterPrepare;
    PrepareStep(e, w, PreparedAs(e, w.job.record, c));
    PrepareProgress(e, ServerOf(w), w.job, c);
  }

  lemma PrepareStep(e: Environment, w: World, outcome: PrepareOutcome)
    requires Serves(e, w) && w.job.Numbered?
    ensures Enabled(w, Prepare(outcome))
    ensures var after := AfterPrepare(w.table, w.job, outcome);
            Next(w, Prepare(outcome)) == w.(table := after.0, job := after.1)
  {
    hide AfterPrepare;
  }

  lemma WriteStage(e: Environment, w: World, c: Circumstances)
    requires Serves(e, w) && w.job.Prepared?
    ensures var step := StageStep(e, w.job, c); Enabled(w, step) && Agrees(e, w, c, step)
  {
    hide Next, Enabled, Stage, Wire, Put;
    WriteStep(w, c.completes, Arrives(e, w.job.record, c));
    WriteProgress(e, ServerOf(w), w.job, c);
  }

  lemma WriteStep(w: World, complete: bool, arrives: bool)
    requires Sized(w) && w.connected && w.job.Prepared? && (complete ==> arrives)
    ensures Enabled(w, Write(complete, arrives))
            && Next(w, Write(complete, arrives)) == AfterWrite(w, complete, arrives)
  {
    hide AfterWrite;
  }

  lemma LastStage(e: Environment, w: World, c: Circumstances)
    requires Serves(e, w) && (w.job.Written? || w.job.Failing?)
    ensures var step := StageStep(e, w.job, c); Enabled(w, step) && Agrees(e, w, c, step)
  {
    hide Next, Stage, Enabled, Verdicted, Remembered;
    LastStep(e, w, c.stores);
    LastProgress(e, ServerOf(w), w.job, c);
  }

  lemma LastStep(e: Environment, w: World, stored: bool)
    requires Serves(e, w) && (w.job.Written? || w.job.Failing?)
    ensures Enabled(w, Finish(stored))
    ensures Next(w, Finish(stored)) == w.(job := NoJob, table := if stored then Verdicted(w.table, w.job) else w.table,
                                          session := Remembered(w.session, w.job, w.catalog.width, w.catalog.height))
  {
    hide Verdicted, Remembered;
  }

  lemma RecordsOne(w: World, step: Step)
    requires Sized(w) && Enabled(w, step)
    ensures Possible(w, [step]) && Records(w, [step]) == (if step.Write? && step.arrives then [w.job.record] else [])
  {
    hide Next;
    RunOne(w, step);
    assert [step][1..] == [];
    assert Records(w, [step]) == (if step.Write? && step.arrives then [w.job.record] else [])
             + Records(Next(w, step), []);
  }

  lemma StageAgrees(e: Environment, w: World, c: Circumstances)
    requires Serves(e, w) && !w.job.NoJob? && Built(e, w.job)
    ensures Enabled(w, StageStep(e, w.job, c)) && Agrees(e, w, c, StageStep(e, w.job, c))
  {
    hide Next, Enabled, Stage, ServerOf, Serves, Built, Agrees, Wire, Put;
    if w.job.Written? || w.job.Failing? {
      LastStage(e, w, c);
    } else if w.job.Numbered? {
      PrepareStage(e, w, c);
    } else if w.job.Prepared? {
      WriteStage(e, w, c);
    } else {
      EarlyStage(e, w, c);
    }
  }

  /**
   The next stage is this step: it can happen, puts its record on the wire, and leaves the world as the stage leaves the
   server.
   */
  ghost predicate Taken(e: Environment, w: World, c: Circumstances, step: Step) {
    && Sized(w) && !w.job.NoJob? && Enabled(w, step) && Agrees(e, w, c, step) && Possible(w, [step])
    && Records(w, [step]) == (if step.Write? && step.arrives then [w.job.record] else [])
  }

  lemma StageIsStep(e: Environment, w: World, c: Circumstances)
    requires Serves(e, w) && !w.job.NoJob? && Built(e, w.job)
    ensures Taken(e, w, c, StageStep(e, w.job, c))
  {
    hide Next, Enabled, Stage, StageStep, ServerOf, Serves, Built, Records, Possible, Wire, Put, Agrees;
    Connected(e, w);
    StageAgrees(e, w, c);
    RecordsOne(w, StageStep(e, w.job, c));
  }

  lemma Connected(e: Environment, w: World)
    requires Serves(e, w)
    ensures Sized(w)
  {
  }

  // ---------------------------------------------------------------------------------------------
  // Steps of others
  // ---------------------------------------------------------------------------------------------

  /** A step that is neither part of an attempt nor the end of the connection. */
  predicate Foreign(devices: set<string>, step: Step) {
    match step
    case Queue(device, _, _) => device in devices
    case TabletApplies(_) => true
    case TabletDrops => true
    case TabletReports(_) => true
    case Receive(_) => true
    case Elsewhere(_) => true
    case Prune(_) => true
    case _ => false
  }

  /** What such a step is to the attempt; the tablet's own steps are nothing to it. */
  ghost function EffectOf(w: World, step: Step): seq<Disturbance> {
    match step
    case Queue(device, frameID, rendered) => [Queues(Target(device, frameID, Ok(rendered)))]
    case Receive(stored) =>
      if w.toServer == [] then []
      else
        (match w.toServer[0]
         case Ack(sequence) => [Acknowledges(sequence, stored)]
         case Status(kind, display) => [Reports(kind, display, stored)])
    case Elsewhere(op) => [Statement(op)]
    case Prune(ids) => [Prunes(ids)]
    case _ => []
  }

  ghost function EffectsOf(w: World, steps: seq<Step>): seq<Disturbance>
    requires Sized(w) && Possible(w, steps)
    decreases |steps|
  {
    if steps == [] then [] else EffectOf(w, steps[0]) + EffectsOf(Next(w, steps[0]), steps[1..])
  }

  ghost predicate AllForeign(devices: set<string>, steps: seq<Step>) {
    forall i | 0 <= i < |steps| :: Foreign(devices, steps[i])
  }

  /** The step leaves the attempt alone, and the server as given. */
  ghost predicate Leads(e: Environment, w: World, step: Step, v: Server) {
    Sized(w) && Enabled(w, step) && Serves(e, Next(w, step)) && Next(w, step).job == w.job
      && ServerOf(Next(w, step)) == v
  }

  lemma OneDisturbance(devices: set<string>, device: string, v: Server, d: Disturbance)
    ensures DisturbedBy(devices, device, v, [d]) == Disturbed(devices, device, v, d)
  {
    hide Disturbed;
    assert [d][1..] == [];
  }

  lemma ForeignQueue(e: Environment, devices: set<string>, w: World, step: Step)
    requires Serves(e, w) && Enabled(w, step) && step.Queue? && step.device in devices
    ensures Leads(e, w, step, Disturbed(devices, e.device, ServerOf(w),
                                        Queues(Target(step.device, step.frameID, Ok(step.rendered)))))
  {
  }

  lemma ReceiveNext(w: World, stored: bool)
    requires Sized(w) && w.connected && w.toServer != []
    ensures Enabled(w, Receive(stored)) && Next(w, Receive(stored)) == AfterReceive(w, stored)
  {
    hide AfterReceive;
  }

  lemma ReceiveAck(w: World, stored: bool)
    requires w.toServer != [] && w.toServer[0].Ack?
    ensures var n := AfterAck(w.table, w.session, w.device, w.toServer[0].sequence, stored);
            AfterReceive(w, stored) == w.(table := n.0, session := n.1, toServer := w.toServer[1..])
  {
    hide AfterAck;
  }

  lemma ReceiveStatus(w: World, stored: bool)
    requires w.toServer != [] && w.toServer[0].Status?
    ensures var n := AfterStatus(w.table, w.session, w.device, w.toServer[0].kind, w.toServer[0].display, stored);
            AfterReceive(w, stored) == w.(table := n.0, session := n.1, toServer := w.toServer[1..])
  {
    hide AfterStatus;
  }

  lemma DisturbedAck(devices: set<string>, device: string, v: Server, sequence: U32, stored: bool)
    ensures var n := AfterAck(v.rows, v.session, device, sequence, stored);
            Disturbed(devices, device, v, Acknowledges(sequence, stored)) == v.(rows := n.0, session := n.1)
  {
    hide AfterAck;
  }

  lemma DisturbedStatus(devices: set<string>, device: string, v: Server, kind: U32, display: U32, stored: bool)
    ensures var n := AfterStatus(v.rows, v.session, device, kind, display, stored);
            Disturbed(devices, device, v, Reports(kind, display, stored)) == v.(rows := n.0, session := n.1)
  {
    hide AfterStatus;
  }

  lemma ForeignAck(e: Environment, devices: set<string>, w: World, stored: bool, sequence: U32)
    requires Serves(e, w) && w.toServer != [] && w.toServer[0] == Ack(sequence)
    ensures Leads(e, w, Receive(stored), Disturbed(devices, e.device, ServerOf(w), Acknowledges(sequence, stored)))
  {
    hide Next, AfterReceive, AfterAck, Disturbed;
    ReceiveNext(w, stored);
    ReceiveAck(w, stored);
    DisturbedAck(devices, e.device, ServerOf(w), sequence, stored);
  }

  lemma ForeignStatus(e: Environment, devices: set<string>, w: World, stored: bool, kind: U32, display: U32)
    requires Serves(e, w) && w.toServer != [] && w.toServer[0] == Status(kind, display)
    ensures Leads(e, w, Receive(stored), Disturbed(devices, e.device, ServerOf(w), Reports(kind, display, stored)))
  {
    hide Next, AfterReceive, AfterStatus, Disturbed;
    ReceiveNext(w, stored);
    ReceiveStatus(w, stored);
    DisturbedStatus(devices, e.device, ServerOf(w), kind, display, stored);
  }

  lemma ForeignStatement(e: Environment, devices: set<string>, w: World, step: Step)
    requires Serves(e, w) && Enabled(w, step) && (step.Elsewhere? || step.Prune?)
    ensures Leads(e, w, step, Disturbed(devices, e.device, ServerOf(w),
                                        if step.Elsewhere? then Statement(step.op) else Prunes(step.ids)))
  {
    hide Execute, Newest;
  }

  lemma ForeignTablet(e: Environment, w: World, step: Step)
    requires Serves(e, w) && Enabled(w, step) && (step.TabletApplies? || step.TabletDrops? || step.TabletReports?)
    ensures Leads(e, w, step, ServerOf(w))
  {
    hide Paint;
  }

  lemma ForeignStep(e: Environment, devices: set<string>, w: World, step: Step)
    requires Serves(e, w) && Enabled(w, step) && Foreign(devices, step)
    ensures Leads(e, w, step, DisturbedBy(devices, e.device, ServerOf(w), EffectOf(w, step)))
  {
    hide Next, Coherent, Placed, Newest, Disturbed, DisturbedBy, ServerOf, FrameShape;
    match step
    case Queue(device, frameID, rendered) =>
      ForeignQueue(e, devices, w, step);
      OneDisturbance(devices, e.device, ServerOf(w), Queues(Target(device, frameID, Ok(rendered))));
    case Receive(stored) =>
      match w.toServer[0] {
        case Ack(sequence) => ForeignAck(e, devices, w, stored, sequence);
        case Status(kind, display) => ForeignStatus(e, devices, w, stored, kind, display);
      }
      OneDisturbance(devices, e.device, ServerOf(w), EffectOf(w, step)[0]);
    case Elsewhere(op) =>
      ForeignStatement(e, devices, w, step);
      OneDisturbance(devices, e.device, ServerOf(w), Statement(op));
    case Prune(ids) =>
      ForeignStatement(e, devices, w, step);
      OneDisturbance(devices, e.device, ServerOf(w), Prunes(ids));
    case _ =>
      ForeignTablet(e, w, step);
      NoDisturbance(devices, e.device, ServerOf(w));
  }

  lemma {:induction false} ForeignRun(e: Environment, devices: set<string>, w: World, steps: seq<Step>)
    requires Serves(e, w) && Possible(w, steps) && AllForeign(devices, steps)
    ensures Serves(e, Run(w, steps)) && Run(w, steps).job == w.job && Records(w, steps) == []
    ensures ServerOf(Run(w, steps)) == DisturbedBy(devices, e.device, ServerOf(w), EffectsOf(w, steps))
    decreases |steps|
  {
    hide Next, Enabled, DisturbedBy, EffectOf, ServerOf;
    if steps == [] {
      NoDisturbance(devices, e.device, ServerOf(w));
    } else {
      ForeignStep(e, devices, w, steps[0]);
      ForeignRun(e, devices, Next(w, steps[0]), steps[1..]);
      DisturbedConcat(devices, e.device, ServerOf(w), EffectOf(w, steps[0]), EffectsOf(Next(w, steps[0]), steps[1..]));
    }
  }

  lemma NoDisturbance(devices: set<string>, device: string, v: Server)
    ensures DisturbedBy(devices, device, v, []) == v
  {
  }

  // ---------------------------------------------------------------------------------------------
  // The whole attempt
  // ---------------------------------------------------------------------------------------------

  /**
   The batch can happen, and after it the next stage; by `ForeignRun` and `StageIsStep` foreign steps never stand in its
   way.
   */
  ghost predicate Goes(e: Environment, w: World, c: Circumstances, batch: seq<Step>)
    requires !w.job.NoJob?
  {
    && Sized(w) && Possible(w, batch) && Enabled(Run(w, batch), StageStep(e, w.job, c))
    && StagesLeft(AfterStage(e, w, c, batch).job) < StagesLeft(w.job)
  }

  ghost function AfterStage(e: Environment, w: World, c: Circumstances, batch: seq<Step>): World
    requires !w.job.NoJob? && Sized(w) && Possible(w, batch) && Enabled(Run(w, batch), StageStep(e, w.job, c))
  {
    Next(Run(w, batch), StageStep(e, w.job, c))
  }

  /** Batch `k` of others' steps comes before stage `k`, and amounts to the disturbances `others(k)`. */
  ghost predicate Alongside(e: Environment, devices: set<string>, w: World, c: Circumstances, batches: nat -> seq<Step>,
                            others: nat -> seq<Disturbance>, k: nat)
    decreases StagesLeft(w.job)
  {
    w.job.NoJob? ||
    (&& AllForeign(devices, batches(k)) && Goes(e, w, c, batches(k)) && others(k) == EffectsOf(w, batches(k))
     && Alongside(e, devices, AfterStage(e, w, c, batches(k)), c, batches, others, k + 1))
  }

  /** The attempt's own steps, with those of others in between. */
  ghost function Interleaved(e: Environment, w: World, c: Circumstances, batches: nat -> seq<Step>, k: nat): seq<Step>
    decreases StagesLeft(w.job)
  {
    if w.job.NoJob? || !Goes(e, w, c, batches(k)) then []
    else batches(k) + [StageStep(e, w.job, c)] + Interleaved(e, AfterStage(e, w, c, batches(k)), c, batches, k + 1)
  }

  /** Foreign steps that can happen never stand in the way of the next stage. */
  lemma ForeignGoes(e: Environment, devices: set<string>, w: World, c: Circumstances, batch: seq<Step>)
    requires Serves(e, w) && !w.job.NoJob? && Built(e, w.job) && AllForeign(devices, batch) && Sized(w)
             && Possible(w, batch)
    ensures Goes(e, w, c, batch)
    ensures var w1, w2 := Run(w, batch), AfterStage(e, w, c, batch);
            Serves(e, w1) && w1.job == w.job && Taken(e, w1, c, StageStep(e, w.job, c)) && Serves(e, w2)
              && Built(e, w2.job)
  {
    hide Next, Enabled, Stage, StageStep, ServerOf, Serves, Built, Records, Run, Possible;
    ForeignRun(e, devices, w, batch);
    var w1 := Run(w, batch);
    StageIsStep(e, w1, c);
    StageAdvances(e, ServerOf(w1), w1.job, c);
  }

  lemma {:induction false} RecordsConcat(w: World, first: seq<Step>, second: seq<Step>)
    requires Sized(w) && Possible(w, first) && Possible(Run(w, first), second)
    ensures Possible(w, first + second)
            && Records(w, first + second) == Records(w, first) + Records(Run(w, first), second)
    decreases |first|
  {
    hide Next, Enabled, Sized;
    RunConcat(w, first, second);
    if first == [] {
      assert first + second == second;
    } else {
      RecordsConcat(Next(w, first[0]), first[1..], second);
      assert (first + second)[1..] == first[1..] + second;
    }
  }

  /** At most one record goes out, and if it arrives it is exactly the bytes written; a successful call has sent one. */
  ghost predicate Carried(e: Environment, job: Job, records: seq<ImageRecord>, o: Outcome) {
    && |records| <= 1 && (records != [] ==> Ok(o.written) == Wire(e, records[0]))
    && (job.NoJob? || job.Written? || job.Failing? ==> records == [] && o.written == [])
    && (o.sent ==> records != [] || (job.Written? && job.complete))
  }

  lemma SilentCarried(e: Environment, v: Server, job: Job, c: Circumstances, records: seq<ImageRecord>, o: Outcome)
    requires !job.NoJob? && !job.Prepared?
    requires Carried(e, Stage(e, v, job, c).job, records, o)
    ensures Stage(e, v, job, c).written == []
    ensures Carried(e, job, records, Outcome(o.server, o.written, o.sent || (job.Written? && job.complete)))
  {
    hide Wire, Patch, ConfirmedBase, PendingId, Decide, Issued, AfterIssue, Assignments.PrepareSend, Ended;
  }

  lemma CarriedOn(e: Environment, w: World, c: Circumstances, records: seq<ImageRecord>, o: Outcome)
    requires Serves(e, w) && !w.job.NoJob? && Built(e, w.job)
    requires var p := Stage(e, ServerOf(w), w.job, c); Carried(e, p.job, records, o)
    ensures var step, p := StageStep(e, w.job, c), Stage(e, ServerOf(w), w.job, c);
            Carried(e, w.job, (if step.Write? && step.arrives then [w.job.record] else []) + records,
                    Outcome(o.server, p.written + o.written, o.sent || (w.job.Written? && w.job.complete)))
  {
    hide Wire, Stage, Serves, ServerOf;
    if w.job.Prepared? {
      WriteProgress(e, ServerOf(w), w.job, c);
      assert Put(e, w.job.record, c) + [] == Put(e, w.job.record, c);
    } else {
      SilentCarried(e, ServerOf(w), w.job, c, records, o);
      assert [] + o.written == o.written && [] + records == records;
    }
  }

  /** The batch before a stage, and the stage itself. */
  lemma BatchAndStage(e: Environment, devices: set<string>, w: World, c: Circumstances, batch: seq<Step>)
    requires Serves(e, w) && !w.job.NoJob? && Built(e, w.job) && AllForeign(devices, batch) && Goes(e, w, c, batch)
    ensures var w1, w2, step := Run(w, batch), AfterStage(e, w, c, batch), StageStep(e, w.job, c);
            && w1.job == w.job && Serves(e, w1) && Serves(e, w2) && Built(e, w2.job)
            && ServerOf(w1) == DisturbedBy(devices, e.device, ServerOf(w), EffectsOf(w, batch))
            && Records(w, batch) == []
            && Possible(w1, [step]) && Run(w1, [step]) == w2
            && Records(w1, [step]) == (if step.Write? && step.arrives then [w1.job.record] else [])
            && ServerOf(w2) == Stage(e, ServerOf(w1), w.job, c).server && w2.job == Stage(e, ServerOf(w1), w.job, c).job
  {
    hide Next, Enabled, Stage, StageStep, ServerOf, Serves, Built, Records, Run, Possible, DisturbedBy;
    ForeignRun(e, devices, w, batch);
    var w1 := Run(w, batch);
    StageIsStep(e, w1, c);
    RunOne(w1, StageStep(e, w.job, c));
  }

  lemma JoinRuns(w: World, batch: seq<Step>, step: Step, rest: seq<Step>)
    requires Sized(w) && Possible(w, batch) && Records(w, batch) == [] && Possible(Run(w, batch), [step])
    requires Possible(Run(Run(w, batch), [step]), rest)
    ensures var steps, w1 := batch + [step] + rest, Run(w, batch);
            && Possible(w, steps) && Run(w, steps) == Run(Run(w1, [step]), rest)
            && Records(w, steps) == Records(w1, [step]) + Records(Run(w1, [step]), rest)
  {
    hide Next, Enabled, Run, Possible, Records;
    RunConcat(w, batch, [step]);
    RunConcat(w, batch + [step], rest);
    RecordsConcat(w, batch, [step]);
    RecordsConcat(w, batch + [step], rest);
  }

  /** From any stage on. */
  lemma {:induction false} RestIsRun(e: Environment, devices: set<string>, w: World, c: Circumstances,
                                     batches: nat -> seq<Step>, others: nat -> seq<Disturbance>, k: nat)
    requires Serves(e, w) && Built(e, w.job) && Alongside(e, devices, w, c, batches, others, k)
    ensures var steps, o := Interleaved(e, w, c, batches, k), Rest(e, devices, ServerOf(w), w.job, c, others, k);
            && Sized(w) && Possible(w, steps)
            && var w' := Run(w, steps);
               && ServerOf(w') == o.server && w'.job.NoJob? && Serves(e, w')
               && Carried(e, w.job, Records(w, steps), o)
    decreases StagesLeft(w.job)
  {
    hide Next, Enabled, Sized, Run, Possible, Records, Stage, StageStep, ServerOf, Serves, Built, Carried, Rest,
         DisturbedBy, AllForeign;
    Connected(e, w);
    if w.job.NoJob? {
      RestNone(e, devices, ServerOf(w), c, others, k);
      NothingCarried(e, ServerOf(w));
      NothingRun(w);
    } else {
      var w1, w2 := Run(w, batches(k)), AfterStage(e, w, c, batches(k));
      BatchAndStage(e, devices, w, c, batches(k));
      hide Goes, AfterStage;
      RestIsRun(e, devices, w2, c, batches, others, k + 1);
      RestStep(e, devices, ServerOf(w), w.job, c, others, k);
      var rest := Interleaved(e, w2, c, batches, k + 1);
      JoinRuns(w, batches(k), StageStep(e, w.job, c), rest);
      CarriedOn(e, w1, c, Records(w2, rest), Rest(e, devices, ServerOf(w2), w2.job, c, others, k + 1));
    }
  }

  lemma NothingRun(w: World)
    requires Sized(w)
    ensures Possible(w, []) && Run(w, []) == w && Records(w, []) == []
  {
  }

  lemma NothingCarried(e: Environment, v: Server)
    ensures Carried(e, NoJob, [], Outcome(v, [], false))
  {
  }

  /**
   Every call of `deliverLatest` whose connection lasts, whatever others do between its accesses to what they share, is
   a run of the protocol with the same effect on table and session; a record it puts in flight is exactly the complete
   bytes written, and these read back as that record, its own frame id and number included.
   */
  lemma AttemptIsRun(e: Environment, devices: set<string>, w: World, c: Circumstances, batches: nat -> seq<Step>,
                     others: nat -> seq<Disturbance>)
    requires Serves(e, w) && w.job.NoJob? && !w.session.closed
    requires Alongside(e, devices, Next(w, Begin), c, batches, others, 0)
    ensures var steps, o := [Begin] + Interleaved(e, Next(w, Begin), c, batches, 0),
            Attempted(e, devices, ServerOf(w), c, others);
            && Possible(w, steps)
            && var w', records := Run(w, steps), Records(w, steps);
               && ServerOf(w') == o.server && w'.job.NoJob?
               && |records| <= 1 && (o.sent ==> records != [])
               && (records != [] ==> Ok(o.written) == Wire(e, records[0]))
               && (records != [] && records[0].frameID != 0 ==> Carries(e, o.written, records[0]))
  {
    hide Rest, Run, Possible, Interleaved, Alongside, Wire;
    var w1 := Next(w, Begin);
    RestIsRun(e, devices, w1, c, batches, others, 0);
    RunOne(w, Begin);
    RunConcat(w, [Begin], Interleaved(e, w1, c, batches, 0));
    BeginCarries(w);
    RecordsConcat(w, [Begin], Interleaved(e, w1, c, batches, 0));
    var records := Records(w, [Begin] + Interleaved(e, w1, c, batches, 0));
    if records != [] && records[0].frameID != 0 {
      WireCarries(e, Attempted(e, devices, ServerOf(w), c, others).written, records[0]);
    }
  }

  /** Whatever follows them on the stream, the bytes read as this record: number, frame id and primitive. */
  ghost predicate Carries(e: Environment, bytes: Bytes, record: ImageRecord) {
    forall rest: Bytes ::
      M.ReadsBack(bytes, e.crc, rest, M.Message(e.uuid, record.sequence, record.frameID, [record.primitive]))
  }

  lemma WireCarries(e: Environment, bytes: Bytes, record: ImageRecord)
    requires Wire(e, record) == Ok(bytes) && record.frameID != 0
    ensures Carries(e, bytes, record)
  {
    hide M.Build, M.ReadsBack;
    forall rest: Bytes
      ensures M.ReadsBack(bytes, e.crc, rest, M.Message(e.uuid, record.sequence, record.frameID, [record.primitive]))
    {
      M.WireRoundTrip(e.uuid, record.sequence, record.frameID, [record.primitive], e.compress, e.crc, rest);
    }
  }

  /** Every row, record and record in flight has a frame id. */
  ghost predicate Identified(w: World) {
    && (forall id | id in w.table :: w.table[id].frameID != 0)
    && (w.job.Loaded? || w.job.Checked? ==> w.job.row.frameID != 0)
    && (w.job.Based? || w.job.Numbered? || w.job.Prepared? || w.job.Written? ==> w.job.record.frameID != 0)
    && forall i | 0 <= i < |w.toTablet| :: w.toTablet[i].frameID != 0
  }

  lemma StepIdentified(w: World, step: Step)
    requires Identified(w) && Sized(w) && Enabled(w, step)
    ensures Identified(Next(w, step))
  {
    hide Coherent, Paint, Placed, AfterRender, AfterCheck, AfterNumber, AfterPrepare, Newest, MarkDelivered, Reconcile,
         Execute, Verdicted;
    match step
    case Load(_) => AttemptIdentified(w, step);
    case Check(_) => AttemptIdentified(w, step);
    case Render => AttemptIdentified(w, step);
    case Number => AttemptIdentified(w, step);
    case Prepare(_) => AttemptIdentified(w, step);
    case Finish(_) => FinishIdentified(w, step);
    case Connect(_, stored) => ConnectKeepsIdentity(w.table, w.device, w.tablet.display, stored);
    case Elsewhere(op) => ExecuteKeepsIdentity(w.table, w.device, op);
    case Receive(_) => ReceiveIdentified(w, step);
    case _ =>
  }

  lemma AttemptIdentified(w: World, step: Step)
    requires Identified(w) && Sized(w) && Enabled(w, step)
    requires step.Load? || step.Check? || step.Render? || step.Number? || step.Prepare?
    ensures Identified(Next(w, step))
  {
    hide Coherent, Patch, Newest, ConfirmedBase, Decide;
  }

  lemma FinishIdentified(w: World, step: Step)
    requires Identified(w) && Sized(w) && Enabled(w, step) && step.Finish?
    ensures Identified(Next(w, step))
  {
    hide Coherent, Remembered;
  }

  lemma ReceiveIdentified(w: World, step: Step)
    requires Identified(w) && Sized(w) && Enabled(w, step) && step.Receive?
    ensures Identified(Next(w, step))
  {
    hide Coherent, MarkDelivered, MarkAcknowledged, AcknowledgedBy;
    match w.toServer[0]
    case Ack(sequence) => ExecuteKeepsIdentity(w.table, w.device, OpMarkAcknowledged(sequence));
    case Status(_, display) => ExecuteKeepsIdentity(w.table, w.device, OpMarkDelivered(display));
  }

  /** In every run from a server without rows or records, all records in flight have one. */
  lemma {:induction false} RunIdentified(w: World, steps: seq<Step>)
    requires Identified(w) && Sized(w) && Possible(w, steps)
    ensures Identified(Run(w, steps))
    decreases |steps|
  {
    hide Next, Enabled, Sized, Identified;
    if steps != [] {
      StepIdentified(w, steps[0]);
      RunIdentified(Next(w, steps[0]), steps[1..]);
    }
  }

  lemma BeginCarries(w: World)
    requires Sized(w) && Enabled(w, Begin)
    ensures Possible(w, [Begin]) && Records(w, [Begin]) == []
  {
    RunOne(w, Begin);
    assert [Begin][1..] == [];
    assert Records(w, [Begin]) == [] + Records(Next(w, Begin), []);
  }

  /** With nobody else at work the conditions are met, at every stage. */
  lemma {:induction false} AloneAlongside(e: Environment, devices: set<string>, w: World, c: Circumstances,
                                          batches: nat -> seq<Step>, others: nat -> seq<Disturbance>, k: nat)
    requires Serves(e, w) && Built(e, w.job)
    requires forall i: nat :: batches(i) == [] && others(i) == []
    ensures Alongside(e, devices, w, c, batches, others, k)
    decreases StagesLeft(w.job)
  {
    hide Next, Enabled, Sized, Run, Records, Stage, StageStep, ServerOf, Serves, Built, EffectOf;
    Connected(e, w);
    if !w.job.NoJob? {
      NothingRun(w);
      NoDisturbance(devices, e.device, ServerOf(w));
      ForeignGoes(e, devices, w, c, batches(k));
      AloneAlongside(e, devices, AfterStage(e, w, c, batches(k)), c, batches, others, k + 1);
    }
  }

  // ---------------------------------------------------------------------------------------------
  // Queueing
  // ---------------------------------------------------------------------------------------------

  function QueueSteps(targets: seq<Target>): (steps: seq<Step>)
    requires forall i | 0 <= i < |targets| :: targets[i].rendered.Ok?
    ensures |steps| == |targets|
  {
    seq(|targets|, i requires 0 <= i < |targets| =>
      Queue(targets[i].device, RandomID(targets[i].draw), targets[i].rendered.value))
  }

  /** Random frame ids that were never used before and differ from each other, and frames of the display's size. */
  ghost predicate FreshTargets(w: World, targets: seq<Target>) {
    && (forall i | 0 <= i < |targets| :: targets[i].rendered.Ok? && RandomID(targets[i].draw) !in w.catalog.used)
    && (forall i, j | 0 <= i < j < |targets| :: RandomID(targets[i].draw) != RandomID(targets[j].draw))
    && (forall i | 0 <= i < |targets| && targets[i].device == w.device && targets[i].rendered.value.Some? ::
          FrameShape(w.catalog.width, w.catalog.height, targets[i].rendered.value.value))
  }

  function FrameIDs(targets: seq<Target>): (ids: set<U32>)
  {
    set i | 0 <= i < |targets| :: RandomID(targets[i].draw)
  }

  /** The effect of one queue step on the parts that matter here. */
  lemma QueueOne(w: World, target: Target)
    requires Sized(w) && target.rendered.Ok? && RandomID(target.draw) !in w.catalog.used
    requires target.device == w.device && target.rendered.value.Some? ==>
               FrameShape(w.catalog.width, w.catalog.height, target.rendered.value.value)
    ensures var step := Queue(target.device, RandomID(target.draw), target.rendered.value);
            && Enabled(w, step)
            && var w' := Next(w, step);
               && w'.table == w.table[w.nextId := NewRow(target)] && w'.nextId == w.nextId + 1 && w'.device == w.device
               && w'.catalog.width == w.catalog.width && w'.catalog.height == w.catalog.height
               && w'.catalog.used == w.catalog.used + {RandomID(target.draw)}
  {
  }

  lemma NoTargets(targets: seq<Target>)
    requires targets == []
    ensures QueueSteps(targets) == [] && FrameIDs(targets) == {}
  {
  }

  lemma LastTarget(w: World, targets: seq<Target>)
    requires FreshTargets(w, targets) && targets != []
    ensures var front, last := targets[..|targets| - 1], targets[|targets| - 1];
            && FreshTargets(w, front) && last.rendered.Ok? && RandomID(last.draw) !in w.catalog.used + FrameIDs(front)
            && FrameIDs(targets) == FrameIDs(front) + {RandomID(last.draw)}
            && (last.device == w.device && last.rendered.value.Some?
                ==> FrameShape(w.catalog.width, w.catalog.height, last.rendered.value.value))
            && QueueSteps(targets) == QueueSteps(front) + [Queue(last.device, RandomID(last.draw), last.rendered.value)]
  {
    hide RandomID, FrameShape;
    var front, last := targets[..|targets| - 1], targets[|targets| - 1];
    forall id
      ensures id in FrameIDs(targets) <==> id in FrameIDs(front) || id == RandomID(last.draw)
    {
      if id in FrameIDs(targets) {
        var i :| 0 <= i < |targets| && id == RandomID(targets[i].draw);
        assert i < |front| ==> front[i] == targets[i];
      }
      if id in FrameIDs(front) {
        var i :| 0 <= i < |front| && id == RandomID(front[i].draw);
        assert front[i] == targets[i];
      }
    }
  }

  /** The rows one `CreateAssignments` transaction inserts are those of that many queue steps. */
  lemma {:induction false} CreateIsRun(w: World, targets: seq<Target>)
    requires Sized(w) && FreshTargets(w, targets) && forall i | 0 <= i < |targets| :: targets[i].rendered.Ok?
    ensures Possible(w, QueueSteps(targets))
    ensures var w' := Run(w, QueueSteps(targets));
            && w'.table == Inserted(w.table, w.nextId, targets) && w'.nextId == w.nextId + |targets|
            && w'.catalog.width == w.catalog.width && w'.catalog.height == w.catalog.height && w'.device == w.device
            && w'.catalog.used == w.catalog.used + FrameIDs(targets)
  {
    hide Next, Enabled, RandomID, FrameShape, FreshTargets, QueueSteps, FrameIDs, NewRow;
    if targets == [] {
      NoTargets(targets);
    } else {
      var front, last := targets[..|targets| - 1], targets[|targets| - 1];
      LastTarget(w, targets);
      CreateIsRun(w, front);
      var w1 := Run(w, QueueSteps(front));
      var step := Queue(last.device, RandomID(last.draw), last.rendered.value);
      QueueOne(w1, last);
      RunOne(w1, step);
      RunConcat(w, QueueSteps(front), [step]);
    }
  }
}
