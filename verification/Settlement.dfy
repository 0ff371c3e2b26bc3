/**
 Records, acknowledgements and what has been acknowledged stay in order on one connection; when an acknowledged
 assignment is written again.
 */
module Settlement {
  import opened Common
  import opened Assignments
  import opened Session
  import opened Attempt
  import opened Delivery
  import C = Coherence
  import D = Delta
  import B = Budget

  /** The sequence numbers of the acknowledgements on their way to the server. */
  ghost function Acks(q: seq<Reply>): seq<U32> {
    if q == [] then []
    else if q[0].Ack? then [q[0].sequence] + Acks(q[1..])
    else Acks(q[1..])
  }

  ghost function Sequences(q: seq<ImageRecord>): (s: seq<U32>)
    ensures |s| == |q|
    ensures forall i | 0 <= i < |q| :: s[i] == q[i].sequence
  {
    seq(|q|, i requires 0 <= i < |q| => q[i].sequence)
  }

  lemma {:induction false} AcksAppend(q: seq<Reply>, r: Reply)
    ensures Acks(q + [r]) == if r.Ack? then Acks(q) + [r.sequence] else Acks(q)
  {
    if q != [] {
      AcksAppend(q[1..], r);
      assert (q + [r])[1..] == q[1..] + [r];
    } else {
      assert [r][1..] == [];
    }
  }

  ghost predicate Increasing(low: U32, s: seq<U32>, high: U32) {
    && low <= high
    && (forall i | 0 <= i < |s| :: low < s[i] <= high)
    && (forall i, j | 0 <= i < j < |s| :: s[i] < s[j])
  }

  /** The sequence counter of the connection does not wrap in this step. */
  ghost predicate NoWrap(w: World, step: Step) {
    && (step.Number? ==> w.session.nextSeq < TWO32 - 1)
    && (step.Receive? && w.toServer != [] && w.toServer[0].Status? ==> w.toServer[0].kind < TWO32 - 1)
  }

  /** Sequence numbers below the limit are spent on this connection. */
  ghost function Limit(s: SessionState, job: Job): U32 {
    if job.Numbered? || job.Prepared? then job.record.sequence else Issued(s)
  }

  ghost predicate CounterInv(s: SessionState, job: Job) {
    && C.LastSequence(s, job) < Limit(s, job)
    && (job.Numbered? || job.Prepared? ==> 0 < job.record.sequence < Issued(s))
  }

  /**
   Acknowledged number, acknowledgements under way, records in flight: one strictly increasing chain up to the last
   record.
   */
  ghost predicate OrderInv(w: World) {
    && (C.Live(w) ==>
          && Increasing(w.session.ackedSeq, Acks(w.toServer) + Sequences(w.toTablet), C.LastSequence(w.session, w.job))
          && CounterInv(w.session, w.job))
    && (!w.job.NoJob? ==> C.Live(w))
  }

  lemma DropHead(low: U32, s: seq<U32>, high: U32, i: nat)
    requires Increasing(low, s, high) && i < |s|
    ensures Increasing(low, s[..i] + s[i + 1..], high)
    ensures i == 0 ==> Increasing(s[0], s[1..], high)
  {
  }

  lemma Extend(low: U32, s: seq<U32>, high: U32, next: U32)
    requires Increasing(low, s, high) && high < next
    ensures Increasing(low, s, next) && Increasing(low, s + [next], next)
  {
  }

  lemma ApplyKeeps(w: World, step: Step)
    requires OrderInv(w) && Sized(w) && (step.TabletApplies? || step.TabletDrops?) && Enabled(w, step)
    ensures OrderInv(Next(w, step))
  {
    hide Coherent, D.Paint, D.Placed, Increasing, Acks, Sequences;
    var w' := Next(w, step);
    var a, f := Acks(w.toServer), Sequences(w.toTablet);
    assert Sequences(w'.toTablet) == f[1..];
    if step.TabletApplies? && step.acknowledges {
      AcksAppend(w.toServer, Ack(w.toTablet[0].sequence));
      assert Acks(w'.toServer) + Sequences(w'.toTablet) == a + f;
    } else if C.Live(w) {
      DropHead(w.session.ackedSeq, a + f, C.LastSequence(w.session, w.job), |a|);
      assert Acks(w'.toServer) + Sequences(w'.toTablet) == (a + f)[..|a|] + (a + f)[|a| + 1..];
    }
  }

  lemma ReportKeeps(w: World, step: Step)
    requires OrderInv(w) && Sized(w) && step.TabletReports? && Enabled(w, step)
    ensures OrderInv(Next(w, step))
  {
    AcksAppend(w.toServer, Status(step.kind, w.tablet.display));
  }

  lemma ReceiveKeeps(w: World, step: Step)
    requires OrderInv(w) && Sized(w) && step.Receive? && Enabled(w, step) && NoWrap(w, step)
    ensures OrderInv(Next(w, step))
  {
    hide Increasing, Sequences, MarkDelivered, MarkAcknowledged, AcknowledgedBy, Coherent;
    if C.Live(w) && w.toServer[0].Ack? {
      var chain := Acks(w.toServer) + Sequences(w.toTablet);
      assert chain[0] == w.toServer[0].sequence;
      DropHead(w.session.ackedSeq, chain, C.LastSequence(w.session, w.job), 0);
      assert chain[1..] == Acks(w.toServer[1..]) + Sequences(w.toTablet);
      assert chain[..0] + chain[1..] == chain[1..];
    }
  }

  /** The record being written carries a number above everything issued before on the connection. */
  lemma WriteKeeps(w: World, step: Step)
    requires OrderInv(w) && Sized(w) && step.Write? && Enabled(w, step)
    ensures OrderInv(Next(w, step))
  {
    hide Newest, Increasing, Acks;
    var w' := Next(w, step);
    var chain := Acks(w.toServer) + Sequences(w.toTablet);
    Extend(w.session.ackedSeq, chain, C.LastSequence(w.session, w.job), w.job.record.sequence);
    if step.arrives {
      assert Sequences(w'.toTablet) == Sequences(w.toTablet) + [w.job.record.sequence];
      assert Acks(w'.toServer) + Sequences(w'.toTablet) == chain + [w.job.record.sequence];
    }
  }

  lemma ConnectKeeps(w: World, step: Step)
    requires OrderInv(w) && Sized(w) && step.Connect? && Enabled(w, step)
    ensures OrderInv(Next(w, step))
  {
    hide MarkDelivered, Reconcile;
    assert Acks([]) + Sequences([]) == [];
  }

  /** Issuing a number raises the limit by one, and keeps the old one for the record now numbered. */
  lemma AttemptKeeps(w: World, step: Step)
    requires OrderInv(w) && Sized(w) && Enabled(w, step) && NoWrap(w, step)
    requires step.Begin? || step.Load? || step.Check? || step.Render? || step.Number? || step.Prepare? || step.Finish?
    ensures OrderInv(Next(w, step))
  {
    hide Patch, ConfirmedBase, Newest, Decide, Acks, Sequences, Increasing, Coherent, PrepareSend, Verdicted, PendingId;
  }

  lemma StepKeeps(w: World, step: Step)
    requires OrderInv(w) && Sized(w) && Enabled(w, step) && NoWrap(w, step)
    ensures OrderInv(Next(w, step))
  {
    hide D.Paint, Newest, MarkDelivered, Reconcile, Execute, D.Placed, Acks, Sequences, Increasing;
    match step
    case Queue(_, _, _) =>
    case Connect(_, _) => ConnectKeeps(w, step);
    case Disconnect =>
    case Reboot(_) =>
    case Begin => AttemptKeeps(w, step);
    case Load(_) => AttemptKeeps(w, step);
    case Check(_) => AttemptKeeps(w, step);
    case Render => AttemptKeeps(w, step);
    case Number => AttemptKeeps(w, step);
    case Prepare(_) => AttemptKeeps(w, step);
    case Write(_, _) => WriteKeeps(w, step);
    case Finish(_) => AttemptKeeps(w, step);
    case TabletApplies(_) => ApplyKeeps(w, step);
    case TabletDrops => ApplyKeeps(w, step);
    case TabletReports(_) => ReportKeeps(w, step);
    case Receive(_) => ReceiveKeeps(w, step);
    case Elsewhere(_) =>
    case Prune(_) =>
  }

  lemma {:induction false} AckInChain(q: seq<Reply>, i: nat)
    requires i < |q| && q[i].Ack?
    ensures q[i].sequence in Acks(q)
  {
    if i > 0 {
      AckInChain(q[1..], i - 1);
    }
  }

  /** As long as the counter does not wrap no number is used twice. */
  lemma BelowWrapUnused(w: World, step: Step)
    requires OrderInv(w)
    ensures C.NoReuse(w, step)
  {
    if step.Prepare? && w.job.Numbered? {
      var chain := Acks(w.toServer) + Sequences(w.toTablet);
      forall i | 0 <= i < |w.toServer| && w.toServer[i].Ack?
        ensures w.toServer[i].sequence != w.job.record.sequence
      {
        AckInChain(w.toServer, i);
        assert w.toServer[i].sequence in chain;
      }
      forall i | 0 <= i < |w.toTablet|
        ensures w.toTablet[i].sequence != w.job.record.sequence
      {
        assert Sequences(w.toTablet)[i] == chain[|Acks(w.toServer)| + i];
      }
    }
  }

  /** In particular the framebuffer theorem holds for every run in which no connection's counter wraps. */
  lemma {:induction false} BelowWrapNoReuse(w: World, steps: seq<Step>)
    requires OrderInv(w) && Sized(w) && Possible(w, steps) && Throughout(w, steps, NoWrap)
    ensures Throughout(w, steps, C.NoReuse)
    decreases |steps|
  {
    hide OrderInv;
    if steps != [] {
      BelowWrapUnused(w, steps[0]);
      StepKeeps(w, steps[0]);
      BelowWrapNoReuse(Next(w, steps[0]), steps[1..]);
    }
  }

  /** An acknowledgement can only replace the noted one if it belongs to a later record. */
  lemma NoAckPending(w: World)
    requires OrderInv(w) && C.Live(w) && w.toServer != [] && w.toServer[0].Ack?
    ensures w.session.ackedSeq < w.toServer[0].sequence <= C.LastSequence(w.session, w.job)
  {
    var chain := Acks(w.toServer) + Sequences(w.toTablet);
    assert chain[0] == w.toServer[0].sequence;
  }

  ghost predicate Invariants(w: World) {
    C.Inv(w) && OrderInv(w) && B.BudgetInv(w) && WrittenInv(w)
  }

  /** The last record's assignment has been written on this connection. */
  ghost predicate WrittenInv(w: World) {
    var last := C.LastFrame(w.session, w.job);
    C.Live(w) && last in w.catalog.frames ==> CountOf(w.attemptsHere, w.catalog.frames[last].rank) > 0
  }

  lemma WrittenStep(w: World, step: Step)
    requires C.Inv(w) && WrittenInv(w) && Enabled(w, step)
    ensures WrittenInv(Next(w, step))
  {
    hide C.QueueInv, C.TableInv, Coherent, Patch, D.Paint, Newest, ConfirmedBase, Decide, MarkDelivered, Reconcile,
         Execute, D.Placed, Verdicted, PrepareSend;
    if IsAttempt(step) {
      WrittenAttempt(w, step);
    }
  }

  /** The steps of `deliverLatest` itself. */
  predicate IsAttempt(step: Step) {
    step.Begin? || step.Load? || step.Check? || step.Render? || step.Number? || step.Prepare? || step.Write?
      || step.Finish?
  }

  lemma WrittenAttempt(w: World, step: Step)
    requires C.Inv(w) && WrittenInv(w) && Enabled(w, step) && IsAttempt(step)
    ensures WrittenInv(Next(w, step))
  {
    hide C.QueueInv, C.TableInv, Coherent, Patch, Newest, ConfirmedBase, Decide, Verdicted, PrepareSend, PendingId;
  }

  lemma InvariantsKept(w: World, step: Step)
    requires Invariants(w) && Enabled(w, step) && NoWrap(w, step)
    ensures Invariants(Next(w, step))
  {
    hide Next, Enabled, OrderInv, B.BudgetInv, WrittenInv;
    BelowWrapUnused(w, step);
    C.StepKeeps(w, step);
    StepKeeps(w, step);
    B.StepKeeps(w, step);
    WrittenStep(w, step);
  }

  /** Every run from a fresh server keeps the invariants the statements below start from. */
  lemma {:induction false} RunKeeps(w: World, steps: seq<Step>)
    requires Invariants(w) && Possible(w, steps) && Throughout(w, steps, NoWrap)
    ensures Invariants(Run(w, steps))
    decreases |steps|
  {
    hide OrderInv, B.BudgetInv, WrittenInv, Next, Enabled;
    if steps != [] {
      InvariantsKept(w, steps[0]);
      RunKeeps(Next(w, steps[0]), steps[1..]);
    }
  }

  lemma InitInvs(start: World)
    requires C.Init(start)
    ensures Invariants(start)
  {
    C.InitInv(start);
  }

  /** One connection: no wrap, and no new connection, which would start over its numbers and its count of writes. */
  ghost predicate Steady(w: World, step: Step) {
    NoWrap(w, step) && !step.Connect?
  }

  // ---------------------------------------------------------------------------------------------
  // The numbers of one connection
  // ---------------------------------------------------------------------------------------------

  /** The numbers drawn in a run, in order. */
  ghost function Drawn(w: World, steps: seq<Step>): seq<U32>
    requires Sized(w) && Possible(w, steps)
    decreases |steps|
  {
    if steps == [] then []
    else (if steps[0].Number? then [Issued(w.session)] else []) + Drawn(Next(w, steps[0]), steps[1..])
  }

  /** No step lowers the counter, a draw moves it on, and a status lifts it above its kind. */
  lemma CounterStep(w: World, step: Step)
    requires Sized(w) && Enabled(w, step) && Steady(w, step)
    ensures Issued(Next(w, step).session) >= Issued(w.session)
    ensures step.Number? ==> Issued(Next(w, step).session) == Issued(w.session) + 1
    ensures step.Receive? && w.toServer[0].Status? ==> Issued(Next(w, step).session) > w.toServer[0].kind
  {
    hide Coherent, D.Paint, Patch, Newest, ConfirmedBase, Decide, PrepareSend, Verdicted, MarkDelivered, Execute,
         PendingId;
  }

  /** Strictly increasing numbers from `low` on, below `high`. */
  ghost predicate Rising(low: U32, drawn: seq<U32>, high: U32) {
    && low <= high
    && (forall i | 0 <= i < |drawn| :: low <= drawn[i] < high)
    && (forall i, j | 0 <= i < j < |drawn| :: drawn[i] < drawn[j])
  }

  lemma RisingOn(low: U32, next: U32, drawn: seq<U32>, high: U32)
    requires Rising(next, drawn, high) && low <= next
    ensures Rising(low, drawn, high) && (low < next ==> Rising(low, [low] + drawn, high))
  {
  }

  /**
   Over any run of one connection below the wrap the numbers drawn strictly increase, from the next one on, and none is
   0.
   */
  lemma {:induction false} NumbersRise(w: World, steps: seq<Step>)
    requires Sized(w) && Possible(w, steps) && Throughout(w, steps, Steady)
    ensures 0 < Issued(w.session) && Rising(Issued(w.session), Drawn(w, steps), Issued(Run(w, steps).session))
    decreases |steps|
  {
    hide Next, Enabled, Sized, Steady, Rising;
    if steps == [] {
      NoneDrawn(w);
    } else {
      CounterStep(w, steps[0]);
      var w1 := Next(w, steps[0]);
      NumbersRise(w1, steps[1..]);
      RisingOn(Issued(w.session), Issued(w1.session), Drawn(w1, steps[1..]), Issued(Run(w1, steps[1..]).session));
      assert [] + Drawn(w1, steps[1..]) == Drawn(w1, steps[1..]);
    }
  }

  lemma NoneDrawn(w: World)
    requires Sized(w)
    ensures Rising(Issued(w.session), Drawn(w, []), Issued(Run(w, []).session))
  {
  }

  // ---------------------------------------------------------------------------------------------
  // When an acknowledged assignment is written again
  // ---------------------------------------------------------------------------------------------

  /**
   The last record of the connection belongs to assignment `id`, the one tried last, and its acknowledgement is noted.
   */
  ghost predicate Noted(w: World, id: nat) {
    && C.Live(w) && w.session.attemptID == id
    && C.LastFrame(w.session, w.job) in w.catalog.frames && w.catalog.frames[C.LastFrame(w.session, w.job)].rank == id
    && Acknowledged(w.session, C.LastSequence(w.session, w.job))
  }

  /** An attempt on `id` has passed its check and has a frame to write. */
  predicate Committed(job: Job, id: nat) {
    match job
    case Checked(k, row, _) => k == id && row.rendered.Some?
    case Based(k, _, _) => k == id
    case Numbered(k, _, _) => k == id
    case Prepared(k, _, _) => k == id
    case _ => false
  }

  /** It can still draw a number before the counter wraps, if it has none yet. */
  ghost predicate Racing(w: World, id: nat) {
    Committed(w.job, id) && (w.job.Checked? || w.job.Based? ==> w.session.nextSeq < TWO32 - 1)
  }

  /** `id` is acknowledged and nothing races, or the connection is past it. */
  ghost predicate Settled(w: World, id: nat) {
    !w.connected || w.session.closed || w.session.attemptID > id || (Noted(w, id) && !Racing(w, id))
  }

  lemma SettledReceive(w: World, step: Step, id: nat)
    requires C.Inv(w) && OrderInv(w) && Settled(w, id) && Enabled(w, step) && step.Receive? && NoWrap(w, step)
    ensures Settled(Next(w, step), id)
  {
    hide Coherent, MarkDelivered, MarkAcknowledged, D.Changed;
    if C.Live(w) && w.toServer[0].Ack? {
      NoAckPending(w);
    }
  }

  /** The acknowledged frame is the pending one, so `deliverLatest` leaves it alone. */
  lemma SettledCheck(w: World, step: Step, id: nat)
    requires C.Inv(w) && B.BudgetInv(w) && Settled(w, id) && Enabled(w, step) && step.Check?
    ensures Settled(Next(w, step), id)
  {
    hide Coherent, Newest, C.QueueInv, C.TableInv, B.LifetimeInv;
    if w.job.id == id && w.session.attemptID == id {
      assert w.job.row.frameID == w.session.lastFrameID;
    }
  }

  lemma SettledStep(w: World, step: Step, id: nat)
    requires C.Inv(w) && OrderInv(w) && B.BudgetInv(w) && Settled(w, id)
    requires Enabled(w, step) && Steady(w, step)
    ensures Settled(Next(w, step), id)
    ensures CountOf(Next(w, step).attemptsHere, id) == CountOf(w.attemptsHere, id)
  {
    hide OrderInv, C.LiveInv, C.QueueInv, C.TableInv, B.LifetimeInv, D.Placed;
    hide Coherent, D.Paint, Newest, Decide, MarkDelivered, Reconcile, Execute;
    if step.Check? {
      SettledCheck(w, step, id);
    } else if step.Receive? {
      SettledReceive(w, step, id);
    } else if IsAttempt(step) {
      SettledAttempt(w, step, id);
    }
  }

  lemma SettledAttempt(w: World, step: Step, id: nat)
    requires C.Inv(w) && B.BudgetInv(w) && Settled(w, id)
    requires Enabled(w, step) && NoWrap(w, step) && IsAttempt(step) && !step.Check?
    ensures Settled(Next(w, step), id)
    ensures CountOf(Next(w, step).attemptsHere, id) == CountOf(w.attemptsHere, id)
  {
    hide C.QueueInv, C.TableInv, B.LifetimeInv, Coherent, Patch, Newest, ConfirmedBase, Verdicted, PrepareSend,
         PendingId;
  }

  /** Over any run of the connection that starts settled, assignment `id` is not written. */
  lemma {:induction false} SettledNotRewritten(w: World, steps: seq<Step>, id: nat)
    requires Invariants(w) && Settled(w, id) && Possible(w, steps) && Throughout(w, steps, Steady)
    ensures CountOf(Run(w, steps).attemptsHere, id) == CountOf(w.attemptsHere, id)
    decreases |steps|
  {
    hide OrderInv, B.BudgetInv, WrittenInv, Settled, Next, Enabled;
    if steps != [] {
      SettledStep(w, steps[0], id);
      InvariantsKept(w, steps[0]);
      SettledNotRewritten(Next(w, steps[0]), steps[1..], id);
    }
  }

  /** No run of the connection writes `id` again. */
  ghost predicate NotWrittenAgain(w: World, id: nat)
    requires Sized(w)
  {
    forall steps: seq<Step> | Possible(w, steps) && Throughout(w, steps, Steady) ::
      CountOf(Run(w, steps).attemptsHere, id) == CountOf(w.attemptsHere, id)
  }

  /** How the attempt in progress gets to its write. */
  function RaceSteps(job: Job): seq<Step> {
    match job
    case Checked(_, _, _) => [Render, Number, Prepare(Ready), Write(true, true)]
    case Based(_, _, _) => [Number, Prepare(Ready), Write(true, true)]
    case Numbered(_, _, _) => [Prepare(Ready), Write(true, true)]
    case _ => [Write(true, true)]
  }

  lemma RaceStep(w: World, id: nat) returns (w': World)
    requires Sized(w) && w.connected && Committed(w.job, id)
    ensures var step := RaceSteps(w.job)[0];
            Enabled(w, step) && w' == Next(w, step) && (Racing(w, id) ==> Steady(w, step))
    ensures Sized(w') && w'.connected
    ensures w.job.Prepared? ==>
              && CountOf(w'.attemptsHere, id) == CountOf(w.attemptsHere, id) + 1
              && CountOf(w'.attempts, id) == CountOf(w.attempts, id) + 1 && RaceSteps(w.job)[1..] == []
    ensures !w.job.Prepared? ==>
              && w'.attemptsHere == w.attemptsHere && w'.attempts == w.attempts && Committed(w'.job, id)
              && (Racing(w, id) ==> Racing(w', id)) && RaceSteps(w'.job) == RaceSteps(w.job)[1..]
  {
    hide Patch, ConfirmedBase, PrepareSend;
    w' := Next(w, RaceSteps(w.job)[0]);
  }

  /** A committed attempt does write one more record, if nothing else happens. */
  lemma {:induction false} RaceWrites(w: World, id: nat)
    requires Sized(w) && w.connected && Committed(w.job, id)
    ensures Possible(w, RaceSteps(w.job)) && (Racing(w, id) ==> Throughout(w, RaceSteps(w.job), Steady))
    ensures CountOf(Run(w, RaceSteps(w.job)).attemptsHere, id) == CountOf(w.attemptsHere, id) + 1
    ensures CountOf(Run(w, RaceSteps(w.job)).attempts, id) == CountOf(w.attempts, id) + 1
    decreases |RaceSteps(w.job)|
  {
    hide Next, Enabled, Sized, Racing;
    var w' := RaceStep(w, id);
    if !w.job.Prepared? {
      RaceWrites(w', id);
    } else {
      assert Run(w', []) == w';
    }
  }

  /**
   With the acknowledgement of the last record noted, its assignment is never written again exactly if no attempt races.
   */
  lemma NotedExactly(w: World, id: nat)
    requires Invariants(w) && Noted(w, id)
    ensures NotWrittenAgain(w, id) <==> !Racing(w, id)
  {
    hide OrderInv, B.BudgetInv, WrittenInv, Next, Enabled;
    if Racing(w, id) {
      RaceWrites(w, id);
    } else {
      forall steps: seq<Step> | Possible(w, steps) && Throughout(w, steps, Steady)
        ensures CountOf(Run(w, steps).attemptsHere, id) == CountOf(w.attemptsHere, id)
      {
        SettledNotRewritten(w, steps, id);
      }
    }
  }

  /** Records the attempt in progress may still write of assignment `id`. */
  function StillToWrite(job: Job, id: nat): nat {
    match job
    case Begun(_) => 1
    case Loaded(k, _, _) => if k == id then 1 else 0
    case Checked(k, _, _) => if k == id then 1 else 0
    case Based(k, _, _) => if k == id then 1 else 0
    case Numbered(k, _, _) => if k == id then 1 else 0
    case Prepared(k, _, _) => if k == id then 1 else 0
    case _ => 0
  }

  ghost predicate NoNewAttempt(w: World, step: Step) {
    !step.Begin?
  }

  lemma OneRecordStep(w: World, step: Step, id: nat)
    requires Sized(w) && Enabled(w, step) && !step.Begin?
    ensures CountOf(Next(w, step).attempts, id) + StillToWrite(Next(w, step).job, id)
              <= CountOf(w.attempts, id) + StillToWrite(w.job, id)
    ensures CountOf(Next(w, step).attemptsHere, id) + StillToWrite(Next(w, step).job, id)
              <= CountOf(w.attemptsHere, id) + StillToWrite(w.job, id)
  {
    hide Coherent, D.Paint, Patch, Newest, ConfirmedBase, Decide, PrepareSend, Verdicted, Remembered, MarkDelivered,
         Reconcile, Execute, PendingId;
  }

  /**
   An attempt writes at most one record, whatever others do meanwhile: until the next one begins nothing else is
   written.
   */
  lemma {:induction false} OneRecordPerAttempt(w: World, steps: seq<Step>, id: nat)
    requires Sized(w) && Possible(w, steps) && Throughout(w, steps, NoNewAttempt)
    ensures CountOf(Run(w, steps).attempts, id) <= CountOf(w.attempts, id) + StillToWrite(w.job, id)
    ensures CountOf(Run(w, steps).attemptsHere, id) <= CountOf(w.attemptsHere, id) + StillToWrite(w.job, id)
    decreases |steps|
  {
    hide Next, Enabled, Sized, StillToWrite;
    if steps != [] {
      OneRecordStep(w, steps[0], id);
      OneRecordPerAttempt(Next(w, steps[0]), steps[1..], id);
    }
  }

  /**
   After any history from a fresh server, once the acknowledgement of the last record is noted: its assignment is never
   written again on that connection if and only if no attempt on it passed its check before. Otherwise it is written at
   most once more by that attempt, and at most twice more in all.
   */
  lemma RewrittenExactlyIfRacing(start: World, history: seq<Step>, id: nat)
    requires C.Init(start) && Possible(start, history) && Throughout(start, history, NoWrap)
    requires Noted(Run(start, history), id)
    ensures var w := Run(start, history);
            && (NotWrittenAgain(w, id) <==> !Racing(w, id))
            && (forall steps: seq<Step> | Possible(w, steps) && Throughout(w, steps, NoNewAttempt) ::
                  CountOf(Run(w, steps).attemptsHere, id) <= CountOf(w.attemptsHere, id) + 1)
            && (forall steps: seq<Step> | Possible(w, steps) && Throughout(w, steps, Steady) ::
                  CountOf(Run(w, steps).attemptsHere, id) <= CountOf(w.attemptsHere, id) + 2)
  {
    hide OrderInv, Next, Enabled;
    InitInvs(start);
    RunKeeps(start, history);
    var w := Run(start, history);
    NotedExactly(w, id);
    forall steps: seq<Step> | Possible(w, steps) && Throughout(w, steps, NoNewAttempt)
      ensures CountOf(Run(w, steps).attemptsHere, id) <= CountOf(w.attemptsHere, id) + 1
    {
      OneRecordPerAttempt(w, steps, id);
    }
    forall steps: seq<Step> | Possible(w, steps) && Throughout(w, steps, Steady)
      ensures CountOf(Run(w, steps).attemptsHere, id) <= CountOf(w.attemptsHere, id) + 2
    {
      SteadyNoWrap(w, steps);
      RunKeeps(w, steps);
      assert CountOf(Run(w, steps).attemptsHere, id) <= MAX_ATTEMPTS;
    }
  }

  lemma {:induction false} SteadyNoWrap(w: World, steps: seq<Step>)
    requires Sized(w) && Possible(w, steps) && Throughout(w, steps, Steady)
    ensures Throughout(w, steps, NoWrap)
    decreases |steps|
  {
    hide Next, Enabled, NoWrap;
    if steps != [] {
      SteadyNoWrap(Next(w, steps[0]), steps[1..]);
    }
  }
}
