/**
 Delivery sticks, and nothing is written while the newest assignment is done: over every run, and exactly until which
 step.
 */
module Stickiness {
  import opened Common
  import opened Assignments
  import opened Session
  import opened Attempt
  import opened Delivery
  import D = Delta
  import C = Coherence
  import T = Settlement

  // ---------------------------------------------------------------------------------------------
  // A delivered row
  // ---------------------------------------------------------------------------------------------

  ghost predicate IsDelivered(t: Table, id: nat) {
    id in t && t[id].state == Delivered
  }

  /** Reconciliation finds the newest row delivered and the tablet showing something else. */
  ghost predicate Undelivers(w: World, step: Step, id: nat) {
    && IsDelivered(w.table, id) && w.table[id].device == w.device && id == Newest(w.table, w.device)
    && match step
       case Connect(_, _) => w.tablet.display != w.table[id].frameID
       case Elsewhere(op) => op.OpReconcile? && op.displayState != w.table[id].frameID
       case _ => false
  }

  /** Delivery ends, or the row itself does. */
  ghost predicate EndsDelivery(w: World, step: Step, id: nat) {
    Undelivers(w, step, id) || (step.Prune? && id in step.ids)
  }

  lemma ConnectUndelivers(t: Table, device: string, display: U32, stored: bool, id: nat)
    requires IsDelivered(t, id)
    ensures var t' := AfterFirstStatus(t, device, 0, display, stored).0;
            IsDelivered(t', id) <==> !(t[id].device == device && id == Newest(t, device) && display != t[id].frameID)
  {
    var u := if stored then MarkDelivered(t, device, display) else t;
    ExecuteKeepsIdentity(t, device, OpMarkDelivered(display));
    NewestSame(t, u, device);
    hide Newest;
    DeliveredSticks(t, device, OpMarkDelivered(display), id);
    DeliveredSticks(u, device, OpReconcile(display), id);
  }

  lemma DeliveredStep(w: World, step: Step, id: nat)
    requires Sized(w) && Enabled(w, step) && IsDelivered(w.table, id) && id < w.nextId
    ensures IsDelivered(Next(w, step).table, id) <==> !EndsDelivery(w, step, id)
    ensures id < Next(w, step).nextId
  {
    hide Coherent, D.Paint, Patch, Newest, ConfirmedBase, Decide, MarkDelivered, Reconcile, AfterFirstStatus, Execute,
         PendingId, Remembered;
    match step
    case Connect(kind, stored) =>
      ConnectUndelivers(w.table, w.device, w.tablet.display, stored, id);
      FirstStatusTable(w.table, w.device, kind, w.tablet.display, stored);
    case Elsewhere(op) => DeliveredSticks(w.table, w.device, op, id);
    case Receive(_) => ReceiveSticks(w, step, id);
    case _ =>
  }

  lemma FirstStatusTable(t: Table, device: string, kind: U32, display: U32, stored: bool)
    ensures AfterFirstStatus(t, device, kind, display, stored).0 == AfterFirstStatus(t, device, 0, display, stored).0
  {
  }

  lemma ReceiveSticks(w: World, step: Step, id: nat)
    requires Sized(w) && Enabled(w, step) && step.Receive? && IsDelivered(w.table, id)
    ensures IsDelivered(Next(w, step).table, id)
  {
    hide MarkDelivered, MarkAcknowledged, AcknowledgedBy, Coherent;
    match w.toServer[0]
    case Ack(sequence) => DeliveredSticks(w.table, w.device, OpMarkAcknowledged(sequence), id);
    case Status(_, display) => DeliveredSticks(w.table, w.device, OpMarkDelivered(display), id);
  }

  /** The row is delivered at every point of the run. */
  ghost predicate DeliveredAllAlong(w: World, steps: seq<Step>, id: nat)
    requires Sized(w) && Possible(w, steps)
    decreases |steps|
  {
    IsDelivered(w.table, id) && (steps != [] ==> DeliveredAllAlong(Next(w, steps[0]), steps[1..], id))
  }

  ghost predicate NeverEnded(w: World, steps: seq<Step>, id: nat)
    requires Sized(w) && Possible(w, steps)
    decreases |steps|
  {
    steps != [] ==> !EndsDelivery(w, steps[0], id) && NeverEnded(Next(w, steps[0]), steps[1..], id)
  }

  /**
   Over any run - attempts under way on the row, late statements, failed writes, statuses - a delivered row stays
   delivered exactly until a reconciliation finds it newest and another frame shown, or until it is pruned.
   */
  lemma {:induction false} DeliveredStays(w: World, steps: seq<Step>, id: nat)
    requires Sized(w) && Possible(w, steps) && IsDelivered(w.table, id) && id < w.nextId
    ensures DeliveredAllAlong(w, steps, id) <==> NeverEnded(w, steps, id)
    ensures NeverEnded(w, steps, id) ==> IsDelivered(Run(w, steps).table, id)
    decreases |steps|
  {
    hide Next, Enabled, Sized, EndsDelivery, IsDelivered;
    if steps != [] {
      DeliveredStep(w, steps[0], id);
      if !EndsDelivery(w, steps[0], id) {
        DeliveredStays(Next(w, steps[0]), steps[1..], id);
      } else {
        assert !DeliveredAllAlong(Next(w, steps[0]), steps[1..], id);
      }
    }
  }

  // ---------------------------------------------------------------------------------------------
  // A newest row that is done
  // ---------------------------------------------------------------------------------------------

  /** The newest row is delivered or failed, or has no attempt left; or there is none. */
  ghost predicate Done(t: Table, device: string) {
    match PendingId(t, device)
    case None => true
    case Some(id) => t[id].sendAttempts >= MAX_TOTAL_ATTEMPTS
  }

  /** A late outcome stored for a failed row makes it pending again. */
  ghost predicate Revives(w: World, step: Step)
    requires Enabled(w, step)
  {
    var id := Newest(w.table, w.device);
    && id in w.table && w.table[id].device == w.device && w.table[id].state == Failed
    && match step
       case Elsewhere(op) => op.OpMarkSent? && op.id == id
       case Finish(stored) => stored && w.job.id == id && !(w.job.Failing? && w.job.verdict == GiveUp)
       case _ => false
  }

  /**
   The steps after which there is something to send: a new assignment, or the newest one wanted again with attempts
   left.
   */
  ghost predicate Wakes(w: World, step: Step)
    requires Enabled(w, step)
  {
    var id := Newest(w.table, w.device);
    || (step.Queue? && step.device == w.device)
    || (id in w.table && w.table[id].sendAttempts < MAX_TOTAL_ATTEMPTS && (Undelivers(w, step, id) || Revives(w, step)))
  }

  /** Records of assignment `id` the attempt in progress may still write. */
  ghost function Outstanding(job: Job, id: nat): nat {
    if (|| (job.Loaded? && job.row.sendAttempts < MAX_TOTAL_ATTEMPTS)
        || job.Checked? || job.Based? || job.Numbered? || job.Prepared?) && job.id == id
    then 1 else 0
  }

  lemma QueueDone(t: Table, device: string, id: nat, row: Row)
    requires Done(t, device) && row.state == Queued && row.sendAttempts == 0 && forall k | k in t :: k < id
    ensures Done(t[id := row], device) <==> row.device != device
  {
    if row.device == device {
      assert id in IdsOf(t[id := row], device);
    } else {
      assert IdsOf(t[id := row], device) == IdsOf(t, device);
    }
  }

  /** What one statement does to a newest row that is done. */
  lemma StatementDone(t: Table, device: string, op: StoreOp)
    requires Done(t, device)
    ensures var id := Newest(t, device);
            Done(Execute(t, device, op), device) <==>
              !(id in t && t[id].device == device && t[id].sendAttempts < MAX_TOTAL_ATTEMPTS
                && ((t[id].state == Delivered && op.OpReconcile? && op.displayState != t[id].frameID)
                    || (t[id].state == Failed && op.OpMarkSent? && op.id == id)))
  {
    ExecuteKeepsIdentity(t, device, op);
    NewestSame(t, Execute(t, device, op), device);
  }

  /** The first of the two statements of a first status does not touch what the second looks for. */
  lemma FirstStatusDone(t: Table, device: string, kind: U32, display: U32, stored: bool)
    requires Done(t, device)
    ensures var id := Newest(t, device);
            Done(AfterFirstStatus(t, device, kind, display, stored).0, device) <==>
              !(id in t && t[id].device == device && t[id].sendAttempts < MAX_TOTAL_ATTEMPTS && t[id].state == Delivered
                && display != t[id].frameID)
  {
    var u := if stored then MarkDelivered(t, device, display) else t;
    StatementDone(t, device, OpMarkDelivered(display));
    ExecuteKeepsIdentity(t, device, OpMarkDelivered(display));
    NewestSame(t, u, device);
    StatementDone(u, device, OpReconcile(display));
    DeliveredNewest(t, device, display);
  }

  lemma DeliveredNewest(t: Table, device: string, display: U32)
    ensures var id, u := Newest(t, device), MarkDelivered(t, device, display);
            id in t ==>
              && u[id].sendAttempts == t[id].sendAttempts
              && (u[id].state == Delivered ==> t[id].state == Delivered || t[id].frameID == display)
              && (t[id].state == Delivered ==> u[id].state == Delivered)
  {
    hide Newest;
  }

  lemma PruneDone(t: Table, device: string, ids: set<nat>)
    requires Newest(t, device) !in ids
    ensures Done(t - ids, device) <==> Done(t, device)
  {
    PruneNewest(t, device, ids);
    hide Newest;
  }

  lemma ReceiveDone(w: World, step: Step)
    requires Sized(w) && Enabled(w, step) && step.Receive? && Done(w.table, w.device)
    ensures Done(Next(w, step).table, w.device)
  {
    hide MarkDelivered, MarkAcknowledged, AcknowledgedBy, Coherent, Done, Newest;
    match w.toServer[0]
    case Ack(sequence) => StatementDone(w.table, w.device, OpMarkAcknowledged(sequence));
    case Status(_, display) => StatementDone(w.table, w.device, OpMarkDelivered(display));
  }

  /** The statements of the attempt itself. */
  lemma AttemptDone(w: World, step: Step)
    requires Sized(w) && Enabled(w, step) && T.IsAttempt(step) && Done(w.table, w.device)
    ensures Done(Next(w, step).table, w.device) <==> !Wakes(w, step)
  {
    hide Coherent, Patch, ConfirmedBase, Decide, PendingId, Newest, Done, Remembered, Assignments.MarkSent,
         Assignments.MarkFailed, Assignments.PrepareSend;
    match step
    case Prepare(_) => StatementDone(w.table, w.device, OpPrepareSend(w.job.id, w.job.record.sequence));
    case Finish(_) =>
      if w.job.Failing? && w.job.verdict == GiveUp {
        StatementDone(w.table, w.device, OpMarkFailed(w.job.id));
      } else {
        StatementDone(w.table, w.device, OpMarkSent(w.job.id, w.job.Written? && w.job.complete));
      }
    case _ =>
  }

  lemma DoneStep(w: World, step: Step)
    requires Sized(w) && Enabled(w, step) && Done(w.table, w.device) && forall id | id in w.table :: id < w.nextId
    ensures Done(Next(w, step).table, w.device) <==> !Wakes(w, step)
    ensures Next(w, step).device == w.device && forall id | id in Next(w, step).table :: id < Next(w, step).nextId
  {
    DoneRows(w, step);
    hide Coherent, D.Paint, Newest, Done, MarkDelivered, Reconcile, Execute, PendingId, AfterReceive;
    match step
    case Queue(device, frameID, rendered) =>
      QueueDone(w.table, w.device, w.nextId, Row(device, frameID, Queued, None, false, 0, rendered));
    case Connect(kind, stored) => FirstStatusDone(w.table, w.device, kind, w.tablet.display, stored);
    case Receive(_) => ReceiveDone(w, step);
    case Elsewhere(op) => StatementDone(w.table, w.device, op);
    case Prune(ids) => PruneDone(w.table, w.device, ids);
    case _ =>
      if T.IsAttempt(step) {
        AttemptDone(w, step);
      }
  }

  lemma DoneRows(w: World, step: Step)
    requires Sized(w) && Enabled(w, step) && forall id | id in w.table :: id < w.nextId
    ensures Next(w, step).device == w.device && forall id | id in Next(w, step).table :: id < Next(w, step).nextId
  {
    hide Coherent, D.Paint, Newest, Patch, ConfirmedBase, Decide, PendingId, Remembered;
  }

  /** Loading finds nothing to send, and what was loaded before is written at most once. */
  lemma OutstandingStep(w: World, step: Step, id: nat)
    requires Sized(w) && Enabled(w, step) && Done(w.table, w.device)
    ensures CountOf(Next(w, step).attempts, id) + Outstanding(Next(w, step).job, id)
              <= CountOf(w.attempts, id) + Outstanding(w.job, id)
  {
    hide Coherent, D.Paint, Patch, Newest, ConfirmedBase, PrepareSend, Verdicted, Remembered, MarkDelivered, Reconcile,
         Execute;
  }

  ghost predicate DoneAllAlong(w: World, steps: seq<Step>)
    requires Sized(w) && Possible(w, steps)
    decreases |steps|
  {
    Done(w.table, w.device) && (steps != [] ==> DoneAllAlong(Next(w, steps[0]), steps[1..]))
  }

  ghost predicate NeverWakes(w: World, steps: seq<Step>)
    requires Sized(w) && Possible(w, steps)
    decreases |steps|
  {
    steps != [] ==> !Wakes(w, steps[0]) && NeverWakes(Next(w, steps[0]), steps[1..])
  }

  /**
   Over any run that starts with the newest row delivered, failed or out of attempts: it stays so exactly until a step
   that wakes it, and until then nothing is written, except that an attempt which had already loaded its row may still
   write that one record - also if it is delivered by a status between its load and its write.
   */
  lemma {:induction false} NothingWritten(w: World, steps: seq<Step>, id: nat)
    requires Sized(w) && Possible(w, steps) && Done(w.table, w.device) && forall k | k in w.table :: k < w.nextId
    ensures DoneAllAlong(w, steps) <==> NeverWakes(w, steps)
    ensures NeverWakes(w, steps) ==>
              CountOf(Run(w, steps).attempts, id) <= CountOf(w.attempts, id) + Outstanding(w.job, id)
    decreases |steps|
  {
    hide Next, Enabled, Sized, Wakes, Done, Outstanding;
    if steps != [] {
      DoneStep(w, steps[0]);
      OutstandingStep(w, steps[0], id);
      if !Wakes(w, steps[0]) {
        NothingWritten(Next(w, steps[0]), steps[1..], id);
      } else {
        assert !DoneAllAlong(Next(w, steps[0]), steps[1..]);
      }
    }
  }

  // ---------------------------------------------------------------------------------------------
  // Exactly when nothing is written
  // ---------------------------------------------------------------------------------------------

  ghost predicate NothingMore(w: World, id: nat)
    requires Sized(w)
  {
    forall steps: seq<Step> | Possible(w, steps) && NeverWakes(w, steps) ::
      CountOf(Run(w, steps).attempts, id) == CountOf(w.attempts, id)
  }

  /** What was loaded is out of attempts, and the attempt in progress will not write `id`. */
  ghost predicate Idle(w: World, id: nat) {
    && Done(w.table, w.device) && (forall k | k in w.table :: k < w.nextId)
    && (w.job.Loaded? ==> w.job.row.sendAttempts >= MAX_TOTAL_ATTEMPTS)
    && !(w.connected && T.Committed(w.job, id))
  }

  lemma IdleStep(w: World, step: Step, id: nat)
    requires Sized(w) && Enabled(w, step) && !Wakes(w, step) && Idle(w, id)
    ensures Idle(Next(w, step), id) && CountOf(Next(w, step).attempts, id) == CountOf(w.attempts, id)
  {
    DoneStep(w, step);
    IdleJob(w, step, id);
  }

  lemma IdleJob(w: World, step: Step, id: nat)
    requires Sized(w) && Enabled(w, step) && Idle(w, id)
    ensures var w' := Next(w, step);
            && (w'.job.Loaded? ==> w'.job.row.sendAttempts >= MAX_TOTAL_ATTEMPTS)
            && !(w'.connected && T.Committed(w'.job, id)) && CountOf(w'.attempts, id) == CountOf(w.attempts, id)
  {
    hide Coherent, D.Paint, Patch, Newest, ConfirmedBase, PrepareSend, Verdicted, Remembered, MarkDelivered, Reconcile,
         Execute;
  }

  lemma {:induction false} IdleRun(w: World, steps: seq<Step>, id: nat)
    requires Sized(w) && Possible(w, steps) && NeverWakes(w, steps) && Idle(w, id)
    ensures CountOf(Run(w, steps).attempts, id) == CountOf(w.attempts, id)
    decreases |steps|
  {
    hide Next, Enabled, Sized, Wakes, Idle;
    if steps != [] {
      IdleStep(w, steps[0], id);
      IdleRun(Next(w, steps[0]), steps[1..], id);
    }
  }

  lemma {:induction false} RaceNeverWakes(w: World, id: nat)
    requires Sized(w) && w.connected && T.Committed(w.job, id)
    ensures Possible(w, T.RaceSteps(w.job)) && NeverWakes(w, T.RaceSteps(w.job))
    decreases |T.RaceSteps(w.job)|
  {
    hide Next, Enabled, Sized, Newest;
    var w' := T.RaceStep(w, id);
    if !w.job.Prepared? {
      RaceNeverWakes(w', id);
    }
  }

  /**
   With the newest row delivered, failed or out of attempts, no run without a waking step writes assignment `id` if and
   only if no attempt on it has passed its check with a frame to write. (An attempt that has loaded a row with attempts
   left and not checked it yet is the case of the next lemma.)
   */
  lemma NothingWrittenExactly(w: World, id: nat)
    requires Sized(w) && Done(w.table, w.device) && forall k | k in w.table :: k < w.nextId
    requires w.job.Loaded? ==> w.job.row.sendAttempts >= MAX_TOTAL_ATTEMPTS
    ensures NothingMore(w, id) <==> !(w.connected && T.Committed(w.job, id))
  {
    hide Next, Enabled, Done;
    if w.connected && T.Committed(w.job, id) {
      T.RaceWrites(w, id);
      RaceNeverWakes(w, id);
    } else {
      forall steps: seq<Step> | Possible(w, steps) && NeverWakes(w, steps)
        ensures CountOf(Run(w, steps).attempts, id) == CountOf(w.attempts, id)
      {
        IdleRun(w, steps, id);
      }
    }
  }

  /**
   The row loaded would pass the checks now, has a frame, and a number can be drawn for it before the counter wraps.
   */
  ghost predicate WouldPass(w: World, id: nat) {
    && w.connected && w.job.Loaded? && w.job.id == id && w.job.row.rendered.Some?
    && Decide(w.session, id, w.job.row, true) == Proceed && w.session.nextSeq < TWO32 - 1
  }

  /** Runs without a waking step and without a wrap. */
  ghost predicate NothingMoreBelowWrap(w: World, id: nat)
    requires Sized(w)
  {
    forall steps: seq<Step> | Possible(w, steps) && NeverWakes(w, steps) && Throughout(w, steps, T.NoWrap) ::
      CountOf(Run(w, steps).attempts, id) == CountOf(w.attempts, id)
  }

  /** The attempt in progress will not write `id` before a wrap. */
  ghost predicate IdleBelowWrap(w: World, id: nat) {
    && Done(w.table, w.device) && (forall k | k in w.table :: k < w.nextId)
    && !WouldPass(w, id) && !(w.connected && T.Racing(w, id))
  }

  lemma RefusedStep(w: World, step: Step, id: nat)
    requires Sized(w) && Enabled(w, step) && T.OrderInv(w) && T.NoWrap(w, step) && IdleBelowWrap(w, id)
    requires step.Receive?
    ensures var w' := Next(w, step);
            !WouldPass(w', id) && !(w'.connected && T.Racing(w', id)) && w'.attempts == w.attempts
  {
    hide Coherent, MarkDelivered, MarkAcknowledged, AcknowledgedBy, Done;
    if C.Live(w) && w.toServer[0].Ack? {
      T.NoAckPending(w);
    }
  }

  lemma IdleBelowWrapJob(w: World, step: Step, id: nat)
    requires Sized(w) && Enabled(w, step) && T.OrderInv(w) && T.NoWrap(w, step) && IdleBelowWrap(w, id)
    ensures var w' := Next(w, step);
            !WouldPass(w', id) && !(w'.connected && T.Racing(w', id))
              && CountOf(w'.attempts, id) == CountOf(w.attempts, id)
  {
    hide Coherent, D.Paint, Patch, Newest, ConfirmedBase, PrepareSend, Verdicted, Remembered, MarkDelivered, Reconcile,
         Execute;
    if step.Receive? {
      RefusedStep(w, step, id);
    }
  }

  lemma {:induction false} IdleBelowWrapRun(w: World, steps: seq<Step>, id: nat)
    requires Sized(w) && Possible(w, steps) && NeverWakes(w, steps) && Throughout(w, steps, T.NoWrap)
    requires T.OrderInv(w) && IdleBelowWrap(w, id)
    ensures CountOf(Run(w, steps).attempts, id) == CountOf(w.attempts, id)
    decreases |steps|
  {
    hide Next, Enabled, Sized, Wakes, WouldPass, T.Racing, T.OrderInv, T.NoWrap, Done;
    if steps != [] {
      DoneStep(w, steps[0]);
      IdleBelowWrapJob(w, steps[0], id);
      T.StepKeeps(w, steps[0]);
      IdleBelowWrapRun(Next(w, steps[0]), steps[1..], id);
    }
  }

  /**
   The same for any attempt in progress, in any world a run without a wrap leads to: nothing is written exactly if no
   attempt has passed its check and the row loaded, if any, would not pass it now.
   */
  lemma LoadedExactly(w: World, id: nat)
    requires Sized(w) && Done(w.table, w.device) && (forall k | k in w.table :: k < w.nextId) && T.OrderInv(w)
    ensures NothingMoreBelowWrap(w, id) <==> !WouldPass(w, id) && !(w.connected && T.Racing(w, id))
  {
    hide Done, T.OrderInv, Run;
    if WouldPass(w, id) {
      PassedWrites(w, id);
    } else if w.connected && T.Racing(w, id) {
      hide Next, Enabled;
      T.RaceWrites(w, id);
      RaceNeverWakes(w, id);
      SteadyIsNoWrap(w, T.RaceSteps(w.job));
    } else {
      hide Next, Enabled, WouldPass;
      forall steps: seq<Step> | Possible(w, steps) && NeverWakes(w, steps) && Throughout(w, steps, T.NoWrap)
        ensures CountOf(Run(w, steps).attempts, id) == CountOf(w.attempts, id)
      {
        IdleBelowWrapRun(w, steps, id);
      }
    }
  }

  lemma SteadyIsNoWrap(w: World, steps: seq<Step>)
    requires Sized(w) && Possible(w, steps) && Throughout(w, steps, T.Steady)
    ensures Throughout(w, steps, T.NoWrap)
  {
    T.SteadyNoWrap(w, steps);
  }

  /** Checked and written with nothing else happening. */
  lemma PassedWrites(w: World, id: nat)
    requires Sized(w) && WouldPass(w, id)
    ensures !NothingMoreBelowWrap(w, id)
  {
    var w1 := CheckPasses(w, id);
    hide Next, Enabled, Sized, WouldPass, Newest;
    T.RaceWrites(w1, id);
    RaceNeverWakes(w1, id);
    SteadyIsNoWrap(w1, T.RaceSteps(w1.job));
    var steps := [Check(true)] + T.RaceSteps(w1.job);
    assert steps[1..] == T.RaceSteps(w1.job);
    assert Possible(w, steps) && NeverWakes(w, steps) && Throughout(w, steps, T.NoWrap);
    assert CountOf(Run(w, steps).attempts, id) == CountOf(w.attempts, id) + 1;
  }

  lemma CheckPasses(w: World, id: nat) returns (w': World)
    requires Sized(w) && WouldPass(w, id)
    ensures Enabled(w, Check(true)) && w' == Next(w, Check(true)) && !Wakes(w, Check(true)) && T.NoWrap(w, Check(true))
    ensures Sized(w') && w'.connected && T.Racing(w', id) && w'.attempts == w.attempts
  {
    hide Newest;
    w' := Next(w, Check(true));
  }

  /**
   The status that is too late: it delivers the row of an attempt past its check, which is written once more all the
   same.
   */
  lemma DeliveredThenWritten(w: World, id: nat, kind: U32)
    requires Sized(w) && w.connected && id in w.table && w.table[id].device == w.device
             && id == Newest(w.table, w.device) && id < w.nextId
    requires T.Committed(w.job, id) && w.table[id].frameID != 0
    requires w.toServer != [] && w.toServer[0] == Status(kind, w.table[id].frameID)
    ensures Enabled(w, Receive(true)) && IsDelivered(Next(w, Receive(true)).table, id)
    ensures var w1 := Next(w, Receive(true)); var steps := T.RaceSteps(w1.job);
            && Possible(w1, steps) && IsDelivered(Run(w1, steps).table, id)
            && CountOf(Run(w1, steps).attemptsHere, id) == CountOf(w.attemptsHere, id) + 1
  {
    hide T.RaceSteps, Run, Possible;
    var w1 := TooLate(w, id, kind);
    T.RaceWrites(w1, id);
    RaceNeverEnds(w1, id);
    DeliveredStays(w1, T.RaceSteps(w1.job), id);
  }

  lemma TooLate(w: World, id: nat, kind: U32) returns (w1: World)
    requires Sized(w) && w.connected && id in w.table && w.table[id].device == w.device
             && id == Newest(w.table, w.device) && id < w.nextId
    requires T.Committed(w.job, id) && w.table[id].frameID != 0
    requires w.toServer != [] && w.toServer[0] == Status(kind, w.table[id].frameID)
    ensures Enabled(w, Receive(true)) && w1 == Next(w, Receive(true)) && IsDelivered(w1.table, id)
            && T.Committed(w1.job, id)
    ensures Sized(w1) && w1.connected && w1.attemptsHere == w.attemptsHere && id < w1.nextId
  {
    w1 := Next(w, Receive(true));
    NewestDelivered(w.table, w.device, id);
  }

  lemma NewestDelivered(t: Table, device: string, id: nat)
    requires id in t && t[id].device == device && id == Newest(t, device) && t[id].frameID != 0
    ensures IsDelivered(MarkDelivered(t, device, t[id].frameID), id)
  {
    hide Newest;
    if t[id].state != Delivered {
      var ids := UndeliveredWithFrame(t, device, t[id].frameID);
      assert id in ids && forall k | k in ids :: k in IdsOf(t, device);
    }
  }

  lemma {:induction false} RaceNeverEnds(w: World, id: nat)
    requires Sized(w) && w.connected && T.Committed(w.job, id)
    ensures Possible(w, T.RaceSteps(w.job)) && NeverEnded(w, T.RaceSteps(w.job), id)
    decreases |T.RaceSteps(w.job)|
  {
    hide Next, Enabled, Sized;
    var w' := T.RaceStep(w, id);
    if !w.job.Prepared? {
      RaceNeverEnds(w', id);
    }
  }
}
