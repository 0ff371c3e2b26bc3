/** Which assignment an acknowledgement is credited to: exactly when it is that of the record it answers. */
module Acknowledgement {
  import opened Common
  import opened Assignments
  import opened Session
  import opened Attempt
  import opened Delivery
  import C = Coherence
  import D = Delta
  import B = Budget
  import T = Settlement

  /** No attempt of a replaced connection still gives a row a number. */
  ghost predicate Serialised(w: World, step: Step) {
    !(step.Elsewhere? && step.op.OpPrepareSend?)
  }

  ghost predicate Unsent(t: Table, device: string, low: nat) {
    forall k | k in t && t[k].device == device && low < k :: t[k].sentSequence == None
  }

  /** Rows above the one written last carry later numbers, or none. */
  ghost predicate LaterNumbers(t: Table, device: string, low: nat, sequence: U32) {
    forall k | k in t && t[k].device == device && low < k && t[k].sentSequence.Some? ::
        sequence < t[k].sentSequence.value
  }

  /** What the rows above the one tried last say, and above the one loaded, and above the one written last. */
  ghost predicate Numbers(c: Catalog, device: string, t: Table, s: SessionState, job: Job) {
    && (0 < s.attemptID ==> Unsent(t, device, s.attemptID))
    && (job.Loaded? ==> Unsent(t, device, job.id))
    && var last := C.LastFrame(s, job);
       last in c.frames ==> LaterNumbers(t, device, c.frames[last].rank, C.LastSequence(s, job))
  }

  ghost predicate NumbersInv(w: World) {
    C.Live(w) ==> Numbers(w.catalog, w.device, w.table, w.session, w.job)
  }

  /** The numbers rows carry, and whose rows they are. */
  ghost predicate SameNumbers(t: Table, t': Table) {
    t'.Keys <= t.Keys && forall k | k in t' :: t'[k].device == t[k].device && t'[k].sentSequence == t[k].sentSequence
  }

  lemma StatementNumbers(t: Table, device: string, op: StoreOp)
    requires !op.OpPrepareSend?
    ensures SameNumbers(t, Execute(t, device, op))
  {
  }

  lemma SameKeeps(t: Table, t': Table, device: string, low: nat, sequence: U32)
    requires SameNumbers(t, t')
    ensures Unsent(t, device, low) ==> Unsent(t', device, low)
    ensures LaterNumbers(t, device, low, sequence) ==> LaterNumbers(t', device, low, sequence)
  {
  }

  lemma TableKeeps(w: World, t': Table, s': SessionState)
    requires NumbersInv(w) && C.Live(w) && SameNumbers(w.table, t')
    requires s'.attemptID == w.session.attemptID && s'.lastFrameID == w.session.lastFrameID
             && s'.lastSentSeq == w.session.lastSentSeq
    ensures Numbers(w.catalog, w.device, t', s', w.job)
  {
  }

  lemma QueueKeeps(w: World, step: Step)
    requires T.Invariants(w) && NumbersInv(w) && Enabled(w, step) && step.Queue?
    ensures NumbersInv(Next(w, step))
  {
    hide Newest, C.LiveInv, C.QueueInv, T.OrderInv, B.LifetimeInv, B.ConnectionInv, T.WrittenInv;
  }

  lemma ReceiveKeeps(w: World, step: Step)
    requires Sized(w) && NumbersInv(w) && Enabled(w, step) && step.Receive?
    ensures NumbersInv(Next(w, step))
  {
    hide Numbers, MarkDelivered, MarkAcknowledged, AcknowledgedBy;
    var w' := Next(w, step);
    match w.toServer[0] {
      case Ack(sequence) => StatementNumbers(w.table, w.device, OpMarkAcknowledged(sequence));
      case Status(_, display) => StatementNumbers(w.table, w.device, OpMarkDelivered(display));
    }
    if C.Live(w) {
      TableKeeps(w, w'.table, w'.session);
    }
  }

  /** Steps of others. */
  lemma OtherKeeps(w: World, step: Step)
    requires T.Invariants(w) && NumbersInv(w) && Enabled(w, step) && Serialised(w, step) && !T.IsAttempt(step)
    ensures NumbersInv(Next(w, step))
  {
    hide D.Paint, Newest, MarkDelivered, Reconcile, Execute, C.LiveInv, C.QueueInv, T.OrderInv, B.BudgetInv,
         T.WrittenInv, AfterReceive, AfterQueue;
    match step
    case Queue(_, _, _) => QueueKeeps(w, step);
    case Elsewhere(op) => StatementNumbers(w.table, w.device, op);
    case Receive(_) => ReceiveKeeps(w, step);
    case _ =>
  }

  lemma LoadKeeps(w: World, step: Step)
    requires Sized(w) && NumbersInv(w) && Enabled(w, step)
             && (step.Begin? || step.Load? || step.Check? || step.Render? || step.Number?)
    ensures NumbersInv(Next(w, step))
  {
    hide Patch, ConfirmedBase, Decide, Coherent;
    if step.Load? {
      assert Unsent(w.table, w.device, Newest(w.table, w.device)) by {
        assert forall k | k in w.table && w.table[k].device == w.device :: k in IdsOf(w.table, w.device);
      }
      hide Newest;
    }
  }

  lemma PrepareKeeps(w: World, step: Step)
    requires T.Invariants(w) && NumbersInv(w) && Enabled(w, step) && step.Prepare?
    ensures NumbersInv(Next(w, step))
  {
    hide Newest, C.LiveInv, C.QueueInv, C.TableInv, B.LifetimeInv, Coherent;
  }

  lemma WriteKeeps(w: World, step: Step)
    requires T.Invariants(w) && NumbersInv(w) && Enabled(w, step) && step.Write?
    ensures NumbersInv(Next(w, step))
  {
    hide Newest, C.QueueInv, C.TableInv, B.LifetimeInv;
  }

  lemma FinishKeeps(w: World, step: Step)
    requires Sized(w) && NumbersInv(w) && Enabled(w, step) && step.Finish?
    ensures NumbersInv(Next(w, step))
  {
    hide Unsent, LaterNumbers;
    VerdictNumbers(w.table, w.job);
    SameKeeps(w.table, Next(w, step).table, w.device, w.session.attemptID, 0);
    var last := C.LastFrame(w.session, w.job);
    if last in w.catalog.frames {
      SameKeeps(w.table, Next(w, step).table, w.device, w.catalog.frames[last].rank, C.LastSequence(w.session, w.job));
    }
  }

  lemma VerdictNumbers(t: Table, job: Job)
    requires job.Written? || job.Failing?
    ensures SameNumbers(t, Verdicted(t, job)) && SameNumbers(t, t)
  {
  }

  /** Steps of the attempt. */
  lemma AttemptKeeps(w: World, step: Step)
    requires T.Invariants(w) && NumbersInv(w) && Enabled(w, step) && T.IsAttempt(step)
    ensures NumbersInv(Next(w, step))
  {
    hide Next, Enabled, NumbersInv, C.LiveInv, C.QueueInv, T.OrderInv, B.BudgetInv, T.WrittenInv;
    if step.Prepare? {
      PrepareKeeps(w, step);
    } else if step.Write? {
      WriteKeeps(w, step);
    } else if step.Finish? {
      FinishKeeps(w, step);
    } else {
      LoadKeeps(w, step);
    }
  }

  lemma {:induction false} RunKeeps(w: World, steps: seq<Step>)
    requires T.Invariants(w) && NumbersInv(w) && Possible(w, steps)
    requires Throughout(w, steps, T.NoWrap) && Throughout(w, steps, Serialised)
    ensures NumbersInv(Run(w, steps))
    decreases |steps|
  {
    hide T.OrderInv, B.BudgetInv, T.WrittenInv, NumbersInv, Next, Enabled, T.NoWrap, Serialised;
    if steps != [] {
      if T.IsAttempt(steps[0]) {
        AttemptKeeps(w, steps[0]);
      } else {
        OtherKeeps(w, steps[0]);
      }
      T.InvariantsKept(w, steps[0]);
      RunKeeps(Next(w, steps[0]), steps[1..]);
    }
  }

  /** The statement takes the newest row that waits. */
  lemma NewestAwaiting(t: Table, device: string, id: nat, sequence: U32)
    ensures AcknowledgedBy(t, device, sequence) == Some(id) <==>
              Awaits(t, device, id, sequence) && forall k: nat | id < k :: !Awaits(t, device, k, sequence)
    ensures AcknowledgedBy(t, device, sequence) == None <==> forall k: nat :: !Awaits(t, device, k, sequence)
  {
    var ids := AwaitingAck(t, device, sequence);
    WaitingIds(t, device, sequence);
    if ids != {} {
      assert Awaits(t, device, Max(ids), sequence);
    }
  }

  /**
   After any history from a fresh server without a counter wrap, an acknowledgement of the last record is credited to
   that record's assignment if and only if the row is queued or sent, still carries the number, is not acknowledged yet,
   and no newer row waits with that number. It stays unmatched exactly if no row waits with it, and is noted exactly if
   it is matched and stored. A newer row waits with that number only if an attempt of a replaced connection gave it to
   it.
   */
  lemma CreditedExactly(start: World, history: seq<Step>, stored: bool)
    requires C.Init(start) && Possible(start, history) && Throughout(start, history, T.NoWrap)
    requires var w := Run(start, history);
             && C.Live(w) && w.toServer != [] && C.LastFrame(w.session, w.job) in w.catalog.frames
             && w.toServer[0] == Ack(C.LastSequence(w.session, w.job))
    ensures var w := Run(start, history);
            var id, sequence := w.catalog.frames[C.LastFrame(w.session, w.job)].rank, C.LastSequence(w.session, w.job);
            && (AcknowledgedBy(w.table, w.device, sequence) == Some(id) <==>
                  && Awaits(w.table, w.device, id, sequence)
                  && forall k: nat | id < k :: !Awaits(w.table, w.device, k, sequence))
            && (AcknowledgedBy(w.table, w.device, sequence) == None
                <==> forall k: nat :: !Awaits(w.table, w.device, k, sequence))
            && (Acknowledged(Next(w, Receive(stored)).session, sequence) <==>
                  stored && exists k: nat :: Awaits(w.table, w.device, k, sequence))
            && (Throughout(start, history, Serialised)
                ==> forall k: nat | id < k :: !Awaits(w.table, w.device, k, sequence))
  {
    hide T.OrderInv, B.BudgetInv, T.WrittenInv, NumbersInv, Next, Enabled, Awaits, AcknowledgedBy, Serialised,
         LaterNumbers;
    T.InitInvs(start);
    T.RunKeeps(start, history);
    var w := Run(start, history);
    var id, sequence := w.catalog.frames[C.LastFrame(w.session, w.job)].rank, C.LastSequence(w.session, w.job);
    NewestAwaiting(w.table, w.device, id, sequence);
    T.NoAckPending(w);
    AckNoted(w, stored);
    if Throughout(start, history, Serialised) {
      InitNumbers(start);
      RunKeeps(start, history);
      LastNumbers(w);
      NoneLater(w.table, w.device, id, sequence);
    }
  }

  lemma NoneLater(t: Table, device: string, id: nat, sequence: U32)
    requires LaterNumbers(t, device, id, sequence)
    ensures forall k: nat | id < k :: !Awaits(t, device, k, sequence)
  {
  }

  lemma InitNumbers(start: World)
    requires C.Init(start)
    ensures NumbersInv(start)
  {
  }

  lemma LastNumbers(w: World)
    requires NumbersInv(w) && C.Live(w) && C.LastFrame(w.session, w.job) in w.catalog.frames
    ensures LaterNumbers(w.table, w.device, w.catalog.frames[C.LastFrame(w.session, w.job)].rank,
                         C.LastSequence(w.session, w.job))
  {
  }

  lemma AckNoted(w: World, stored: bool)
    requires Sized(w) && C.Live(w) && w.toServer != [] && w.toServer[0].Ack?
             && w.session.ackedSeq < w.toServer[0].sequence
    ensures Enabled(w, Receive(stored))
    ensures Acknowledged(Next(w, Receive(stored)).session, w.toServer[0].sequence) <==>
              stored && AcknowledgedBy(w.table, w.device, w.toServer[0].sequence).Some?
  {
    hide AcknowledgedBy, MarkAcknowledged, Coherent;
  }
}
