/** How often, in which order and after which acknowledgements the delivery protocol writes an assignment. */
module Budget {
  import opened Common
  import opened Assignments
  import opened Session
  import opened Attempt
  import opened Delivery
  import C = Coherence
  import D = Delta

  /** One for the assignment whose record is prepared but not yet written. */
  ghost function Underway(job: Job, id: nat): nat {
    if job.Prepared? && job.id == id then 1 else 0
  }

  /** The session has counted the attempt, but nothing is written yet. */
  ghost function Counted(job: Job, id: nat): nat {
    if (job.Based? || job.Numbered? || job.Prepared?) && job.id == id then 1 else 0
  }

  ghost predicate RowsInv(t: Table, nextId: nat) {
    0 < nextId && forall id | id in t :: 0 < id < nextId
  }

  /**
   The lifetime budget: attempts never exceed what the row has counted, and a row is let through only below the limit.
   */
  ghost predicate LifetimeInv(t: Table, nextId: nat, m: map<nat, nat>, job: Job) {
    && (forall id: nat :: CountOf(m, id) + Underway(job, id) <= MAX_TOTAL_ATTEMPTS)
    && (forall id: nat | CountOf(m, id) + Underway(job, id) > 0 :: id < nextId)
    && (forall id | id in t :: CountOf(m, id) + Underway(job, id) <= t[id].sendAttempts)
    && (job.Loaded? ==> job.id < nextId && CountOf(m, job.id) <= job.row.sendAttempts)
    && (job.Checked? || job.Based? || job.Numbered? ==> job.id < nextId && CountOf(m, job.id) < MAX_TOTAL_ATTEMPTS)
  }

  /** The budget of one connection, and the order of its writes. */
  ghost predicate ConnectionInv(newest: nat, m: map<nat, nat>, s: SessionState, job: Job) {
    && (forall id: nat :: CountOf(m, id) + Counted(job, id) <= MAX_ATTEMPTS)
    && (forall id: nat | CountOf(m, id) + Counted(job, id) > 0 :: id <= s.attemptID)
    && CountOf(m, s.attemptID) + Counted(job, s.attemptID) <= s.attempts <= MAX_ATTEMPTS
    && s.attemptID <= newest
    && (job.Loaded? ==> s.attemptID <= job.id <= newest)
    && (job.Checked? ==> job.id == s.attemptID && s.attempts < MAX_ATTEMPTS)
    && (job.Based? || job.Numbered? || job.Prepared? || job.Written? ==> job.id == s.attemptID)
  }

  ghost predicate BudgetInv(w: World) {
    && RowsInv(w.table, w.nextId)
    && LifetimeInv(w.table, w.nextId, w.attempts, w.job)
    && (w.connected ==> ConnectionInv(Newest(w.table, w.device), w.attemptsHere, w.session, w.job))
    && (forall id: nat :: CountOf(w.attemptsHere, id) <= MAX_ATTEMPTS)
    && (!w.job.NoJob? ==> w.connected)
  }

  // ---------------------------------------------------------------------------------------------
  // The table
  // ---------------------------------------------------------------------------------------------

  /** The rows are those of `t`, and none counts fewer attempts. */
  ghost predicate CountsKept(t: Table, t': Table) {
    && t'.Keys == t.Keys
    && forall id | id in t :: t'[id].device == t[id].device && t'[id].sendAttempts >= t[id].sendAttempts
  }

  lemma CountsNewest(t: Table, t': Table, device: string)
    requires t'.Keys == t.Keys && forall id | id in t :: t'[id].device == t[id].device
    ensures Newest(t', device) == Newest(t, device)
  {
    assert IdsOf(t', device) == IdsOf(t, device);
  }

  lemma QueueNewest(w: World, device: string, frameID: U32, rendered: Option<Bytes>)
    requires RowsInv(w.table, w.nextId)
    ensures Newest(w.table, w.device) <= Newest(AfterQueue(w, device, frameID, rendered).table, w.device)
  {
    var t' := AfterQueue(w, device, frameID, rendered).table;
    assert IdsOf(w.table, w.device) <= IdsOf(t', w.device);
    if IdsOf(w.table, w.device) != {} {
      assert Newest(w.table, w.device) in IdsOf(t', w.device);
    }
  }

  lemma StatementsKeepCounts(t: Table, device: string, op: StoreOp)
    ensures CountsKept(t, Execute(t, device, op))
  {
  }

  // ---------------------------------------------------------------------------------------------
  // Steps
  // ---------------------------------------------------------------------------------------------

  lemma LoadKeeps(w: World, step: Step)
    requires BudgetInv(w) && (step.Begin? || step.Load?) && Sized(w) && Enabled(w, step)
    ensures BudgetInv(Next(w, step))
  {
  }

  /** The checks let a row through only while both budgets have an attempt left. */
  lemma CheckKeeps(w: World, step: Step)
    requires BudgetInv(w) && step.Check? && Sized(w) && Enabled(w, step)
    ensures BudgetInv(Next(w, step))
  {
    hide Acknowledged, Newest;
  }

  lemma RenderKeeps(w: World, step: Step)
    requires BudgetInv(w) && (step.Render? || step.Number?) && Sized(w) && Enabled(w, step)
    ensures BudgetInv(Next(w, step))
  {
    hide Patch, ConfirmedBase, Newest;
  }

  lemma PrepareKeeps(w: World, step: Step)
    requires BudgetInv(w) && step.Prepare? && Sized(w) && Enabled(w, step)
    ensures BudgetInv(Next(w, step))
  {
    hide Newest;
    CountsNewest(w.table, Next(w, step).table, w.device);
  }

  /** A write turns one committed attempt into one counted attempt. */
  lemma BumpCounts(m: map<nat, nat>, job: Job, job': Job)
    requires job.Prepared? && job'.Written?
    ensures forall id: nat :: CountOf(Bump(m, job.id), id) + Underway(job', id) == CountOf(m, id) + Underway(job, id)
    ensures forall id: nat :: CountOf(Bump(m, job.id), id) + Counted(job', id) == CountOf(m, id) + Counted(job, id)
    ensures forall id: nat :: CountOf(Bump(m, job.id), id) <= CountOf(m, id) + Underway(job, id)
  {
  }

  lemma WriteKeeps(w: World, step: Step)
    requires BudgetInv(w) && step.Write? && Sized(w) && Enabled(w, step)
    ensures BudgetInv(Next(w, step))
  {
    var w' := Next(w, step);
    BumpCounts(w.attempts, w.job, w'.job);
    BumpCounts(w.attemptsHere, w.job, w'.job);
  }

  /** Statements of anyone, an attempt of a replaced connection included. */
  lemma StatementKeeps(w: World, t': Table)
    requires BudgetInv(w) && CountsKept(w.table, t')
    ensures RowsInv(t', w.nextId) && LifetimeInv(t', w.nextId, w.attempts, w.job)
            && Newest(t', w.device) == Newest(w.table, w.device)
  {
    CountsNewest(w.table, t', w.device);
  }

  lemma FinishKeeps(w: World, step: Step)
    requires BudgetInv(w) && step.Finish? && Sized(w) && Enabled(w, step)
    ensures BudgetInv(Next(w, step))
  {
    hide Verdicted, Remembered, Newest;
    VerdictKeepsCounts(w.table, w.session, w.job, w.catalog.width, w.catalog.height);
    StatementKeeps(w, Next(w, step).table);
  }

  lemma VerdictKeepsCounts(t: Table, s: SessionState, job: Job, width: int, height: int)
    requires job.Written? || job.Failing?
    ensures CountsKept(t, Verdicted(t, job))
    ensures Remembered(s, job, width, height).attemptID == s.attemptID
            && Remembered(s, job, width, height).attempts == s.attempts
  {
  }

  lemma ReceiveAckKeeps(w: World, step: Step)
    requires BudgetInv(w) && step.Receive? && Sized(w) && Enabled(w, step) && w.toServer[0].Ack?
    ensures BudgetInv(Next(w, step))
  {
    hide Coherent, D.Paint, D.Changed, Newest, MarkDelivered, MarkAcknowledged, AcknowledgedBy, D.Placed;
    StatementsKeepCounts(w.table, w.device, OpMarkAcknowledged(w.toServer[0].sequence));
    StatementKeeps(w, MarkAcknowledged(w.table, w.device, w.toServer[0].sequence));
  }

  lemma ReceiveStatusKeeps(w: World, step: Step)
    requires BudgetInv(w) && step.Receive? && Sized(w) && Enabled(w, step) && w.toServer[0].Status?
    ensures BudgetInv(Next(w, step))
  {
    hide Coherent, D.Paint, D.Changed, Newest, MarkDelivered, MarkAcknowledged, D.Placed;
    StatementsKeepCounts(w.table, w.device, OpMarkDelivered(w.toServer[0].display));
    StatementKeeps(w, MarkDelivered(w.table, w.device, w.toServer[0].display));
  }

  lemma ElsewhereKeeps(w: World, step: Step)
    requires BudgetInv(w) && step.Elsewhere? && Sized(w) && Enabled(w, step)
    ensures BudgetInv(Next(w, step))
  {
    StatementsKeepCounts(w.table, w.device, step.op);
    StatementKeeps(w, Execute(w.table, w.device, step.op));
  }

  lemma ConnectKeeps(w: World, step: Step)
    requires BudgetInv(w) && step.Connect? && Sized(w) && Enabled(w, step)
    ensures BudgetInv(Next(w, step))
  {
    hide Coherent, Newest, MarkDelivered, Reconcile, D.Paint, D.Changed;
    ConnectCounts(w.table, w.device, w.tablet.display, step.stored);
    StatementKeeps(w, Next(w, step).table);
  }

  lemma ConnectCounts(t: Table, device: string, display: U32, stored: bool)
    ensures CountsKept(t, Reconcile(if stored then MarkDelivered(t, device, display) else t, device, display))
  {
    hide MarkDelivered, Reconcile;
    StatementsKeepCounts(t, device, OpMarkDelivered(display));
    StatementsKeepCounts(if stored then MarkDelivered(t, device, display) else t, device, OpReconcile(display));
  }

  lemma QueueKeeps(w: World, step: Step)
    requires BudgetInv(w) && step.Queue? && Sized(w) && Enabled(w, step)
    ensures BudgetInv(Next(w, step))
  {
    QueueNewest(w, step.device, step.frameID, step.rendered);
  }

  lemma PruneKeeps(w: World, step: Step)
    requires BudgetInv(w) && step.Prune? && Sized(w) && Enabled(w, step)
    ensures BudgetInv(Next(w, step))
  {
    PruneNewest(w.table, w.device, step.ids);
  }

  lemma StepKeeps(w: World, step: Step)
    requires BudgetInv(w) && Sized(w) && Enabled(w, step)
    ensures BudgetInv(Next(w, step))
  {
    match step
    case Queue(_, _, _) => QueueKeeps(w, step);
    case Connect(_, _) => ConnectKeeps(w, step);
    case Disconnect =>
    case Reboot(_) =>
    case Begin => LoadKeeps(w, step);
    case Load(_) => LoadKeeps(w, step);
    case Check(_) => CheckKeeps(w, step);
    case Render => RenderKeeps(w, step);
    case Number => RenderKeeps(w, step);
    case Prepare(_) => PrepareKeeps(w, step);
    case Write(_, _) => WriteKeeps(w, step);
    case Finish(_) => FinishKeeps(w, step);
    case TabletApplies(_) =>
    case TabletDrops =>
    case TabletReports(_) =>
    case Receive(_) => if w.toServer[0].Ack? { ReceiveAckKeeps(w, step); } else { ReceiveStatusKeeps(w, step); }
    case Elsewhere(_) => ElsewhereKeeps(w, step);
    case Prune(_) => PruneKeeps(w, step);
  }

  // ---------------------------------------------------------------------------------------------
  // Runs
  // ---------------------------------------------------------------------------------------------

  lemma {:induction false} RunKeeps(w: World, steps: seq<Step>)
    requires BudgetInv(w) && Sized(w) && Possible(w, steps)
    ensures BudgetInv(Run(w, steps))
    decreases |steps|
  {
    if steps != [] {
      StepKeeps(w, steps[0]);
      RunKeeps(Next(w, steps[0]), steps[1..]);
    }
  }

  /**
   Over every run from a fresh server an assignment is written at most nine times in its life and at most three
   times on the current connection, and the record about to be written is never older than one written there before.
   */
  lemma DeliveryBudget(start: World, steps: seq<Step>)
    requires C.Init(start) && Possible(start, steps)
    ensures var w := Run(start, steps);
            && (forall id: nat :: CountOf(w.attempts, id) <= 9 && CountOf(w.attemptsHere, id) <= 3)
            && (w.job.Prepared? ==> forall id: nat | CountOf(w.attemptsHere, id) > 0 :: id <= w.job.id)
  {
    RunKeeps(start, steps);
  }

  /** The row has used up its attempts, and no attempt on it is past its checks. */
  ghost predicate Spent(w: World, id: nat) {
    && 0 < id < w.nextId
    && (w.job.Checked? || w.job.Based? || w.job.Numbered? || w.job.Prepared? ==> w.job.id != id)
    && (w.job.Loaded? && w.job.id == id ==> w.job.row.sendAttempts >= MAX_TOTAL_ATTEMPTS)
    && (id in w.table ==> w.table[id].sendAttempts >= MAX_TOTAL_ATTEMPTS)
  }

  lemma SpentStep(w: World, step: Step, id: nat)
    requires Spent(w, id) && Sized(w) && Enabled(w, step)
    ensures Spent(Next(w, step), id)
    ensures CountOf(Next(w, step).attempts, id) == CountOf(w.attempts, id)
  {
    hide Coherent, D.Paint, Patch, Newest, D.Placed, ConfirmedBase, Acknowledged, Remembered, MarkDelivered, Reconcile;
    match step
    case Connect(_, _) => ConnectCounts(w.table, w.device, w.tablet.display, step.stored);
    case Receive(_) => SpentReceive(w, step, id);
    case Elsewhere(op) => StatementsKeepCounts(w.table, w.device, op);
    case _ =>
  }

  lemma SpentReceive(w: World, step: Step, id: nat)
    requires Spent(w, id) && Sized(w) && Enabled(w, step) && step.Receive?
    ensures Spent(Next(w, step), id)
    ensures CountOf(Next(w, step).attempts, id) == CountOf(w.attempts, id)
  {
    hide Coherent, MarkDelivered, MarkAcknowledged, AcknowledgedBy;
    match w.toServer[0]
    case Ack(sequence) => StatementsKeepCounts(w.table, w.device, OpMarkAcknowledged(sequence));
    case Status(_, display) => StatementsKeepCounts(w.table, w.device, OpMarkDelivered(display));
  }

  /** Once its budget is spent an assignment is never written again, whatever requeues it. */
  lemma {:induction false} SpentNeverWritten(w: World, steps: seq<Step>, id: nat)
    requires Spent(w, id) && Sized(w) && Possible(w, steps)
    ensures CountOf(Run(w, steps).attempts, id) == CountOf(w.attempts, id)
    decreases |steps|
  {
    if steps != [] {
      SpentStep(w, steps[0], id);
      SpentNeverWritten(Next(w, steps[0]), steps[1..], id);
    }
  }
}
