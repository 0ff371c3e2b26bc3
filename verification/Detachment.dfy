/**
 A call of `deliverLatest` whose connection is replaced or dropped in its middle: the stages up to there, and from there
 on statements of a goroutine that no longer belongs to the connection, beside whatever the next connection does.
 */
module Detachment {
  import opened Common
  import opened Assignments
  import opened Session
  import opened Attempt
  import opened Delivery
  import opened Store
  import opened Interference
  import opened GatewayAttempt
  import opened Refinement

  // ---------------------------------------------------------------------------------------------
  // What any step is to such a call
  // ---------------------------------------------------------------------------------------------

  /** The statement an attempt ends with. */
  function VerdictOp(job: Job): StoreOp
    requires job.Written? || job.Failing?
  {
    if job.Failing? && job.verdict == GiveUp then OpMarkFailed(job.id)
    else OpMarkSent(job.id, job.Written? && job.complete)
  }

  /** What the step does to the table. */
  ghost function RowEffect(w: World, step: Step): seq<Disturbance>
    requires Enabled(w, step)
  {
    match step
    case Queue(device, frameID, rendered) => [Queues(Target(device, frameID, Ok(rendered)))]
    case Connect(_, stored) =>
      (if stored then [Statement(OpMarkDelivered(w.tablet.display))] else [])
          + [Statement(OpReconcile(w.tablet.display))]
    case Prepare(outcome) =>
      if outcome == PrepareFails then [] else [Statement(OpPrepareSend(w.job.id, w.job.record.sequence))]
    case Finish(stored) => if stored then [Statement(VerdictOp(w.job))] else []
    case Receive(stored) => if stored then [Statement(ReplyOp(w.toServer[0]))] else []
    case Elsewhere(op) => [Statement(op)]
    case Prune(ids) => [Prunes(ids)]
    case _ => []
  }

  function ReplyOp(reply: Reply): StoreOp {
    match reply
    case Ack(sequence) => OpMarkAcknowledged(sequence)
    case Status(_, display) => OpMarkDelivered(display)
  }

  /** Table and row counter are the server's. */
  ghost predicate SameRows(w: World, v: Server) {
    v.rows == w.table && v.nextId == w.nextId
  }

  predicate Queueable(devices: set<string>, step: Step) {
    step.Queue? ==> step.device in devices
  }

  lemma StatementAlone(devices: set<string>, device: string, v: Server, op: StoreOp)
    ensures DisturbedBy(devices, device, v, [Statement(op)]) == v.(rows := Execute(v.rows, device, op))
  {
    hide Execute, DisturbedBy;
    OneDisturbance(devices, device, v, Statement(op));
  }

  /** The table after the two statements of a first status. */
  lemma ConnectRows(devices: set<string>, w: World, v: Server, step: Step)
    requires Sized(w) && Enabled(w, step) && step.Connect? && SameRows(w, v)
    ensures DisturbedBy(devices, w.device, v, RowEffect(w, step))
         == Server(Next(w, step).table, Next(w, step).nextId, v.session)
  {
    hide DisturbedBy, MarkDelivered, Reconcile;
    var first := if step.stored then [Statement(OpMarkDelivered(w.tablet.display))] else [];
    var v1 := if step.stored then v.(rows := Execute(v.rows, w.device, OpMarkDelivered(w.tablet.display))) else v;
    if step.stored {
      StatementAlone(devices, w.device, v, OpMarkDelivered(w.tablet.display));
    } else {
      NoDisturbance(devices, w.device, v);
    }
    StatementAlone(devices, w.device, v1, OpReconcile(w.tablet.display));
    DisturbedConcat(devices, w.device, v, first, [Statement(OpReconcile(w.tablet.display))]);
  }

  lemma ReceiveRows(w: World, stored: bool)
    requires Sized(w) && Enabled(w, Receive(stored))
    ensures var w' := Next(w, Receive(stored));
            && w'.table == (if stored then Execute(w.table, w.device, ReplyOp(w.toServer[0])) else w.table)
            && w'.nextId == w.nextId
  {
    hide MarkDelivered, AcknowledgedBy, Coherent;
  }

  /** The table after a step of the connection's own attempt. */
  lemma AttemptRows(w: World, step: Step)
    requires Sized(w) && Enabled(w, step) && (step.Prepare? || step.Finish?)
    ensures var w' := Next(w, step);
            && w'.nextId == w.nextId
            && w'.table == (if RowEffect(w, step) == [] then w.table
               else Execute(w.table, w.device, RowEffect(w, step)[0].op))
    ensures RowEffect(w, step) == [] || (|RowEffect(w, step)| == 1 && RowEffect(w, step)[0].Statement?)
  {
    hide Coherent, Remembered, Assignments.PrepareSend, Assignments.MarkSent, Assignments.MarkFailed;
  }

  lemma AttemptRowStep(devices: set<string>, w: World, v: Server, step: Step)
    requires Sized(w) && Enabled(w, step) && (step.Prepare? || step.Finish?) && SameRows(w, v)
    ensures DisturbedBy(devices, w.device, v, RowEffect(w, step))
         == Server(Next(w, step).table, Next(w, step).nextId, v.session)
  {
    hide Next, Enabled, RowEffect, DisturbedBy, Execute;
    AttemptRows(w, step);
    var effect := RowEffect(w, step);
    if effect == [] {
      NoDisturbance(devices, w.device, v);
    } else {
      StatementAlone(devices, w.device, v, effect[0].op);
      assert effect == [Statement(effect[0].op)];
    }
  }

  /** Steps that leave the table alone. */
  lemma OtherRows(w: World, step: Step)
    requires Sized(w) && Enabled(w, step)
    requires !step.Queue? && !step.Connect? && !step.Prepare? && !step.Finish? && !step.Receive? && !step.Elsewhere?
             && !step.Prune?
    ensures Next(w, step).table == w.table && Next(w, step).nextId == w.nextId && RowEffect(w, step) == []
  {
    hide Coherent, AfterLoad, AfterCheck, AfterRender, AfterNumber;
  }

  lemma RowStep(devices: set<string>, w: World, v: Server, step: Step)
    requires Sized(w) && Enabled(w, step) && Queueable(devices, step) && SameRows(w, v)
    ensures DisturbedBy(devices, w.device, v, RowEffect(w, step))
         == Server(Next(w, step).table, Next(w, step).nextId, v.session)
    ensures Next(w, step).device == w.device
  {
    SameDevice(w, step);
    hide Coherent, DisturbedBy, Execute, Newest, MarkDelivered, Reconcile, AfterReceive;
    match step
    case Queue(device, frameID, rendered) =>
      OneDisturbance(devices, w.device, v, Queues(Target(device, frameID, Ok(rendered))));
    case Connect(_, _) => ConnectRows(devices, w, v, step);
    case Receive(stored) =>
      ReceiveRows(w, stored);
      if stored {
        StatementAlone(devices, w.device, v, ReplyOp(w.toServer[0]));
      } else {
        NoDisturbance(devices, w.device, v);
      }
    case Elsewhere(op) => StatementAlone(devices, w.device, v, op);
    case Prune(ids) => OneDisturbance(devices, w.device, v, Prunes(ids));
    case Prepare(_) => AttemptRowStep(devices, w, v, step);
    case Finish(_) => AttemptRowStep(devices, w, v, step);
    case _ =>
      NoDisturbance(devices, w.device, v);
      OtherRows(w, step);
  }

  lemma SameDevice(w: World, step: Step)
    requires Sized(w) && Enabled(w, step)
    ensures Next(w, step).device == w.device
  {
    hide Coherent;
  }

  ghost function RowEffects(w: World, steps: seq<Step>): seq<Disturbance>
    requires Sized(w) && Possible(w, steps)
    decreases |steps|
  {
    if steps == [] then [] else RowEffect(w, steps[0]) + RowEffects(Next(w, steps[0]), steps[1..])
  }

  ghost predicate AllQueueable(devices: set<string>, steps: seq<Step>) {
    forall i | 0 <= i < |steps| :: Queueable(devices, steps[i])
  }

  lemma {:induction false} RowRun(devices: set<string>, w: World, v: Server, steps: seq<Step>)
    requires Sized(w) && Possible(w, steps) && AllQueueable(devices, steps) && SameRows(w, v)
    ensures DisturbedBy(devices, w.device, v, RowEffects(w, steps))
         == Server(Run(w, steps).table, Run(w, steps).nextId, v.session)
    ensures Run(w, steps).device == w.device
    decreases |steps|
  {
    hide Next, Enabled, Sized, DisturbedBy, RowEffect;
    if steps == [] {
      NoDisturbance(devices, w.device, v);
    } else {
      RowStep(devices, w, v, steps[0]);
      var w1 := Next(w, steps[0]);
      var v1 := Server(w1.table, w1.nextId, v.session);
      RowRun(devices, w1, v1, steps[1..]);
      DisturbedConcat(devices, w.device, v, RowEffect(w, steps[0]), RowEffects(w1, steps[1..]));
    }
  }

  // ---------------------------------------------------------------------------------------------
  // The rest of the call
  // ---------------------------------------------------------------------------------------------

  /** What a stage of such a call is to the protocol: a stray statement, or nothing. */
  ghost function Leftover(e: Environment, job: Job, c: Circumstances): seq<Step> {
    match job
    case Numbered(id, record, _) =>
      if PreparedAs(e, record, c) == PrepareFails then [] else [Elsewhere(OpPrepareSend(id, record.sequence))]
    case Written(_, _, _, _) => if c.stores then [Elsewhere(VerdictOp(job))] else []
    case Failing(_, _) => if c.stores then [Elsewhere(VerdictOp(job))] else []
    case _ => []
  }

  lemma LeftoverRun(e: Environment, w: World, v: Server, job: Job, c: Circumstances)
    requires Sized(w) && SameRows(w, v) && !job.NoJob?
    ensures Possible(w, Leftover(e, job, c))
    ensures var w', p := Run(w, Leftover(e, job, c)), Stage(e, v, job, c);
            SameRows(w', p.server) && w'.device == w.device
  {
    LeftoverTable(e, v, job, c, w.device);
    hide Stage, Leftover, Wire;
    var steps := Leftover(e, job, c);
    if steps == [] {
      NothingRun(w);
    } else {
      StrayStep(w, steps[0].op);
      assert steps == [steps[0]];
    }
  }

  lemma StrayStep(w: World, op: StoreOp)
    requires Sized(w)
    ensures Possible(w, [Elsewhere(op)]) && Run(w, [Elsewhere(op)]) == w.(table := Execute(w.table, w.device, op))
  {
    hide Execute, Coherent;
    RunOne(w, Elsewhere(op));
  }

  /** Each stage changes the table by its leftover statement, and nothing else of what is shared. */
  lemma LeftoverTable(e: Environment, v: Server, job: Job, c: Circumstances, device: string)
    requires !job.NoJob?
    ensures var p, steps := Stage(e, v, job, c), Leftover(e, job, c);
            && p.server.nextId == v.nextId
            && (steps == [] ==> p.server.rows == v.rows)
            && (steps != [] ==>
                  |steps| == 1 && steps[0].Elsewhere? && p.server.rows == Execute(v.rows, device, steps[0].op))
  {
    hide Stage, Noted, Wire, Put, Remembered, Assignments.PrepareSend, Assignments.MarkSent, Assignments.MarkFailed;
    if job.Numbered? {
      PrepareProgress(e, v, job, c);
    } else if job.Prepared? {
      WriteProgress(e, v, job, c);
    } else if job.Written? || job.Failing? {
      LastProgress(e, v, job, c);
    } else {
      EarlyProgress(e, v, job, c);
    }
  }

  /** The world, and the server the call sees, once stage `k` and the batch before the next one are over. */
  ghost function WorldAfter(e: Environment, w: World, job: Job, c: Circumstances, batch: seq<Step>): World
    requires Sized(w) && Possible(w, Leftover(e, job, c)) && Possible(Run(w, Leftover(e, job, c)), batch)
  {
    Run(Run(w, Leftover(e, job, c)), batch)
  }

  ghost function ServerAfter(e: Environment, devices: set<string>, v: Server, job: Job, c: Circumstances,
                             batch: seq<Disturbance>): Server
    requires !job.NoJob?
  {
    DisturbedBy(devices, e.device, Stage(e, v, job, c).server, batch)
  }

  /** The batch before the next stage can happen, and amounts to these disturbances. */
  ghost predicate Follows(e: Environment, devices: set<string>, w: World, job: Job, c: Circumstances, batch: seq<Step>,
                          others: seq<Disturbance>) {
    && Sized(w) && Possible(w, Leftover(e, job, c)) && AllQueueable(devices, batch)
    && Possible(Run(w, Leftover(e, job, c)), batch) && others == RowEffects(Run(w, Leftover(e, job, c)), batch)
  }

  /** About to take stage `k` off the connection; any steps may come before each later stage. */
  ghost predicate Detached(e: Environment, devices: set<string>, w: World, v: Server, job: Job, c: Circumstances,
                           batches: nat -> seq<Step>, others: nat -> seq<Disturbance>, k: nat)
    decreases StagesLeft(job)
  {
    job.NoJob? || Stage(e, v, job, c).job.NoJob? ||
    (&& StagesLeft(Stage(e, v, job, c).job) < StagesLeft(job)
     && Follows(e, devices, w, job, c, batches(k + 1), others(k + 1))
     && Detached(e, devices, WorldAfter(e, w, job, c, batches(k + 1)),
                 ServerAfter(e, devices, v, job, c, others(k + 1)), Stage(e, v, job, c).job, c, batches, others, k + 1))
  }

  /** The stray statements of the call, with the steps of others in between. */
  ghost function Strays(e: Environment, devices: set<string>, w: World, v: Server, job: Job, c: Circumstances,
                        batches: nat -> seq<Step>, others: nat -> seq<Disturbance>, k: nat): seq<Step>
    decreases StagesLeft(job)
  {
    if job.NoJob? then []
    else if Stage(e, v, job, c).job.NoJob? || StagesLeft(Stage(e, v, job, c).job) >= StagesLeft(job)
    then Leftover(e, job, c)
    else if !Follows(e, devices, w, job, c, batches(k + 1), others(k + 1)) then []
    else
      Leftover(e, job, c) + batches(k + 1)
      + Strays(e, devices, WorldAfter(e, w, job, c, batches(k + 1)), ServerAfter(e, devices, v, job, c, others(k + 1)),
               Stage(e, v, job, c).job, c, batches, others, k + 1)
  }

  /** From the stage at hand on, the call has the effect of its stray statements. */
  lemma {:induction false} StraysAreRun(e: Environment, devices: set<string>, w: World, v: Server, job: Job,
                                        c: Circumstances, batches: nat -> seq<Step>, others: nat -> seq<Disturbance>,
                                        k: nat)
    requires Sized(w) && w.device == e.device && SameRows(w, v) && !job.NoJob?
    requires Detached(e, devices, w, v, job, c, batches, others, k)
    ensures var steps, p := Strays(e, devices, w, v, job, c, batches, others, k), Stage(e, v, job, c);
            Possible(w, steps) && SameRows(Run(w, steps), Rest(e, devices, p.server, p.job, c, others, k + 1).server)
    decreases StagesLeft(job)
  {
    hide Next, Enabled, Sized, Run, Possible, Stage, Leftover, DisturbedBy, SameRows, Rest, RowEffects, AllQueueable;
    LeftoverRun(e, w, v, job, c);
    StageAdvances(e, v, job, c);
    var p, left := Stage(e, v, job, c), Leftover(e, job, c);
    var w1 := Run(w, left);
    if p.job.NoJob? {
      RestNone(e, devices, p.server, c, others, k + 1);
    } else {
      var batch := batches(k + 1);
      RowRun(devices, w1, p.server, batch);
      var w2, v2 := WorldAfter(e, w, job, c, batch), ServerAfter(e, devices, v, job, c, others(k + 1));
      RowsOf(w2, v2, p.server.session);
      StraysAreRun(e, devices, w2, v2, p.job, c, batches, others, k + 1);
      RestStep(e, devices, p.server, p.job, c, others, k + 1);
      var rest := Strays(e, devices, w2, v2, p.job, c, batches, others, k + 1);
      RunConcat(w, left, batch);
      RunConcat(w, left + batch, rest);
    }
  }

  lemma RowsOf(w: World, v: Server, s: SessionState)
    requires v == Server(w.table, w.nextId, s)
    ensures SameRows(w, v)
  {
  }

  // ---------------------------------------------------------------------------------------------
  // The whole call
  // ---------------------------------------------------------------------------------------------

  /**
   The connection is replaced or dropped: what comes before, the step itself, and what comes between it and the next
   stage.
   */
  datatype Cut = Cut(before: seq<Step>, step: Step, after: seq<Step>)

  /** The cut can happen now, and before it the connection is still the call's. */
  ghost predicate Cuts(devices: set<string>, w: World, cut: Cut) {
    && Sized(w) && AllForeign(devices, cut.before) && Possible(w, cut.before)
    && (cut.step.Connect? || cut.step.Disconnect?) && Enabled(Run(w, cut.before), cut.step)
    && AllQueueable(devices, cut.after) && Possible(Next(Run(w, cut.before), cut.step), cut.after)
  }

  /** What the cut is to the call: its session closes, and from then on it only shares the table. */
  ghost function CutEffects(devices: set<string>, w: World, cut: Cut): seq<Disturbance>
    requires Cuts(devices, w, cut)
  {
    var w1 := Run(w, cut.before);
    EffectsOf(w, cut.before) + [Closes] + RowEffect(w1, cut.step) + RowEffects(Next(w1, cut.step), cut.after)
  }

  ghost function CutWorld(devices: set<string>, w: World, cut: Cut): World
    requires Cuts(devices, w, cut)
  {
    Run(Next(Run(w, cut.before), cut.step), cut.after)
  }

  /** The cut comes before the stage at hand. */
  ghost predicate CutNow(e: Environment, devices: set<string>, w: World, c: Circumstances,
                         batches: nat -> seq<Step>, others: nat -> seq<Disturbance>, k: nat, cut: Cut) {
    && Cuts(devices, w, cut) && others(k) == CutEffects(devices, w, cut)
    && Detached(e, devices, CutWorld(devices, w, cut), DisturbedBy(devices, e.device, ServerOf(w), others(k)), w.job, c,
                batches, others, k)
  }

  /** The steps of others come in batches before the stages, as in `Alongside`, and the cut comes before stage `at`. */
  ghost predicate CutAlong(e: Environment, devices: set<string>, w: World, c: Circumstances,
                           batches: nat -> seq<Step>, others: nat -> seq<Disturbance>, k: nat, at: nat, cut: Cut)
    requires k <= at
    decreases at - k
  {
    && !w.job.NoJob?
    && if k == at then CutNow(e, devices, w, c, batches, others, k, cut)
       else
         && AllForeign(devices, batches(k)) && Goes(e, w, c, batches(k)) && others(k) == EffectsOf(w, batches(k))
         && CutAlong(e, devices, AfterStage(e, w, c, batches(k)), c, batches, others, k + 1, at, cut)
  }

  /**
   The call's steps up to the cut, the cut, and the call's stray statements after it, with the steps of others in
   between.
   */
  ghost function CutRun(e: Environment, devices: set<string>, w: World, c: Circumstances,
                        batches: nat -> seq<Step>, others: nat -> seq<Disturbance>, k: nat, at: nat,
                        cut: Cut): seq<Step>
    requires k <= at
    decreases at - k
  {
    if k == at then
      if !Cuts(devices, w, cut) then []
      else
        cut.before + [cut.step] + cut.after
        + Strays(e, devices, CutWorld(devices, w, cut), DisturbedBy(devices, e.device, ServerOf(w), others(k)), w.job,
                 c, batches, others, k)
    else if w.job.NoJob? || !Goes(e, w, c, batches(k)) then []
    else
      batches(k) + [StageStep(e, w.job, c)]
      + CutRun(e, devices, AfterStage(e, w, c, batches(k)), c, batches, others, k + 1, at, cut)
  }

  lemma ClosedRows(devices: set<string>, device: string, w: World, v: Server)
    requires SameRows(w, v)
    ensures SameRows(w, DisturbedBy(devices, device, v, [Closes]))
  {
    hide DisturbedBy;
    OneDisturbance(devices, device, v, Closes);
  }

  /** The server the call sees after the cut. */
  lemma CutServer(e: Environment, devices: set<string>, w: World, cut: Cut)
    requires Serves(e, w) && Cuts(devices, w, cut)
    ensures SameRows(CutWorld(devices, w, cut),
                     DisturbedBy(devices, e.device, ServerOf(w), CutEffects(devices, w, cut)))
    ensures CutWorld(devices, w, cut).device == e.device
  {
    hide Next, Enabled, Possible, Run, RowEffect, RowEffects, EffectsOf, DisturbedBy;
    ForeignRun(e, devices, w, cut.before);
    var w1, v := Run(w, cut.before), ServerOf(w);
    var w2 := Next(w1, cut.step);
    var v1 := DisturbedBy(devices, e.device, v, EffectsOf(w, cut.before));
    ClosedRows(devices, e.device, w1, v1);
    var v2 := DisturbedBy(devices, e.device, v1, [Closes]);
    RowStep(devices, w1, v2, cut.step);
    var v3 := DisturbedBy(devices, e.device, v2, RowEffect(w1, cut.step));
    RowRun(devices, w2, v3, cut.after);
    DisturbedConcat(devices, e.device, v, EffectsOf(w, cut.before), [Closes]);
    DisturbedConcat(devices, e.device, v, EffectsOf(w, cut.before) + [Closes], RowEffect(w1, cut.step));
    DisturbedConcat(devices, e.device, v, EffectsOf(w, cut.before) + [Closes] + RowEffect(w1, cut.step),
                    RowEffects(w2, cut.after));
  }

  lemma CutPossible(devices: set<string>, w: World, cut: Cut)
    requires Cuts(devices, w, cut)
    ensures var steps := cut.before + [cut.step] + cut.after;
            Possible(w, steps) && Run(w, steps) == CutWorld(devices, w, cut)
  {
    hide Next, Enabled, Possible, Run;
    RunOne(Run(w, cut.before), cut.step);
    RunConcat(w, cut.before, [cut.step]);
    RunConcat(w, cut.before + [cut.step], cut.after);
  }

  /** The steps can happen from here, and leave the table as the call leaves it. */
  ghost predicate Leaves(w: World, steps: seq<Step>, o: Outcome) {
    Sized(w) && Possible(w, steps) && SameRows(Run(w, steps), o.server)
  }

  lemma CutNowIsRun(e: Environment, devices: set<string>, w: World, c: Circumstances,
                    batches: nat -> seq<Step>, others: nat -> seq<Disturbance>, k: nat, cut: Cut)
    requires Serves(e, w) && !w.job.NoJob? && CutNow(e, devices, w, c, batches, others, k, cut)
    ensures Leaves(w, CutRun(e, devices, w, c, batches, others, k, k, cut),
                   Rest(e, devices, ServerOf(w), w.job, c, others, k))
  {
    hide Next, Enabled, Sized, Possible, Run, Stage, DisturbedBy, SameRows, Rest, Serves, ServerOf, Detached, CutWorld,
         CutEffects, Strays;
    CutServer(e, devices, w, cut);
    CutPossible(devices, w, cut);
    var w', v' := CutWorld(devices, w, cut), DisturbedBy(devices, e.device, ServerOf(w), others(k));
    StraysAreRun(e, devices, w', v', w.job, c, batches, others, k);
    RestStep(e, devices, ServerOf(w), w.job, c, others, k);
    RunConcat(w, cut.before + [cut.step] + cut.after, Strays(e, devices, w', v', w.job, c, batches, others, k));
  }

  lemma {:induction false} CutIsRun(e: Environment, devices: set<string>, w: World, c: Circumstances,
                                    batches: nat -> seq<Step>, others: nat -> seq<Disturbance>, k: nat, at: nat,
                                    cut: Cut)
    requires k <= at
    requires Serves(e, w) && Built(e, w.job) && CutAlong(e, devices, w, c, batches, others, k, at, cut)
    ensures Leaves(w, CutRun(e, devices, w, c, batches, others, k, at, cut),
                   Rest(e, devices, ServerOf(w), w.job, c, others, k))
    decreases at - k
  {
    hide Next, Enabled, Sized, Run, Possible, Records, Stage, StageStep, ServerOf, Serves, Built, Rest, DisturbedBy,
         AllForeign, CutNow;
    if k == at {
      CutNowIsRun(e, devices, w, c, batches, others, k, cut);
    } else {
      Connected(e, w);
      var w1, w2, step := Run(w, batches(k)), AfterStage(e, w, c, batches(k)), StageStep(e, w.job, c);
      BatchAndStage(e, devices, w, c, batches(k));
      CutIsRun(e, devices, w2, c, batches, others, k + 1, at, cut);
      RestStep(e, devices, ServerOf(w), w.job, c, others, k);
      var rest := CutRun(e, devices, w2, c, batches, others, k + 1, at, cut);
      RunConcat(w, batches(k), [step]);
      RunConcat(w, batches(k) + [step], rest);
    }
  }

  /**
   A call of `deliverLatest` whose connection is replaced or dropped before its stage `at` is a run too: its stages up
   to there, the end of the connection, and then its statements as those of a goroutine elsewhere, whatever others do in
   between, be it on the next connection.
   */
  lemma CutCallIsRun(e: Environment, devices: set<string>, w: World, c: Circumstances,
                     batches: nat -> seq<Step>, others: nat -> seq<Disturbance>, at: nat, cut: Cut)
    requires Serves(e, w) && w.job.NoJob? && !w.session.closed
    requires CutAlong(e, devices, Next(w, Begin), c, batches, others, 0, at, cut)
    ensures Leaves(w, [Begin] + CutRun(e, devices, Next(w, Begin), c, batches, others, 0, at, cut),
                   Attempted(e, devices, ServerOf(w), c, others))
  {
    hide Rest, Run, Possible, CutRun, CutAlong, Wire, SameRows;
    var w1 := Next(w, Begin);
    CutIsRun(e, devices, w1, c, batches, others, 0, at, cut);
    RunOne(w, Begin);
    RunConcat(w, [Begin], CutRun(e, devices, w1, c, batches, others, 0, at, cut));
  }

  /** With nobody at work after the cut the conditions on the later stages are met. */
  lemma {:induction false} DetachedAlone(e: Environment, devices: set<string>, w: World, v: Server, job: Job,
                                         c: Circumstances, batches: nat -> seq<Step>, others: nat -> seq<Disturbance>,
                                         k: nat)
    requires Sized(w) && SameRows(w, v)
    requires forall i: nat :: i > k ==> batches(i) == [] && others(i) == []
    ensures Detached(e, devices, w, v, job, c, batches, others, k)
    decreases StagesLeft(job)
  {
    hide Next, Enabled, Sized, Stage, Leftover, SameRows, RowEffect;
    if !job.NoJob? {
      StageAdvances(e, v, job, c);
      LeftoverRun(e, w, v, job, c);
      var p, w1 := Stage(e, v, job, c), Run(w, Leftover(e, job, c));
      if !p.job.NoJob? {
        NothingRun(w1);
        NoDisturbance(devices, e.device, p.server);
        DetachedAlone(e, devices, w1, p.server, p.job, c, batches, others, k + 1);
      }
    }
  }
}
