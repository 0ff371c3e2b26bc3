/** Runs from a fresh server in which an acknowledgement comes at the wrong moment. */
module Races {
  import opened Common
  import opened Pixels
  import opened Assignments
  import opened Session
  import opened Attempt
  import opened Delivery
  import opened Undisturbed
  import C = Coherence
  import D = Delta
  import S = Stickiness
  import T = Settlement
  import W = Wraparound

  // ---------------------------------------------------------------------------------------------
  // A write that fails although its record arrives
  // ---------------------------------------------------------------------------------------------

  /** The tablet applies and acknowledges the record before the failed write is stored. */
  const BROKEN := [Number, Prepare(Ready), Write(false, true), TabletApplies(true)] + [Finish(true)]
  const BREAKING := CHECKING + ([Render] + BROKEN)

  lemma BrokenWrite(w: World, id: nat, record: ImageRecord, pixels: Bytes) returns (w': World)
    requires Sized(w) && w.connected && w.job == Based(id, record, pixels) && w.toTablet == [] && w.toServer == []
    requires D.Placed(record.primitive, w.catalog.width, w.catalog.height)
    ensures Possible(w, BROKEN)
    ensures w' == Run(w, BROKEN)
    ensures w'.device == w.device && w'.catalog == w.catalog && w'.toServer == [Ack(Issued(w.session))] && w'.connected
            && Sized(w')
    ensures w'.table == MarkSent(PrepareSend(w.table, id, Issued(w.session)), id, false)
    ensures w'.session.ackedSeq == w.session.ackedSeq
  {
    hide D.Paint, D.Placed, Assignments.MarkSent, Assignments.PrepareSend, Issued, AfterIssue, Next, Enabled;
    IssuedOnly(w.session, id);
    var w2 := NumberedAndPrepared(w);
    var w4 := WrittenAndApplied(w2);
    RunFour(w, Number, Prepare(Ready), Write(false, true), TabletApplies(true));
    w' := BrokenStored(w4);
    RunOne(w4, Finish(true));
    RunConcat(w, [Number, Prepare(Ready), Write(false, true), TabletApplies(true)], [Finish(true)]);
  }

  lemma WrittenAndApplied(w: World) returns (w': World)
    requires Sized(w) && w.connected && w.job.Prepared? && w.toTablet == [] && w.toServer == []
    requires D.Placed(w.job.record.primitive, w.catalog.width, w.catalog.height)
    ensures Enabled(w, Write(false, true)) && Enabled(Next(w, Write(false, true)), TabletApplies(true))
    ensures w' == Next(Next(w, Write(false, true)), TabletApplies(true)) && Sized(w')
    ensures w'.job == Written(w.job.id, w.job.record, w.job.pixels, false)
            && w'.toServer == [Ack(w.job.record.sequence)]
    ensures w' == w.(job := w'.job, toServer := w'.toServer, tablet := w'.tablet, toTablet := w'.toTablet,
                     attempts := w'.attempts, attemptsHere := w'.attemptsHere)
  {
    hide D.Paint, D.Placed;
    w' := Next(Next(w, Write(false, true)), TabletApplies(true));
  }

  lemma BrokenStored(w: World) returns (w': World)
    requires Sized(w) && w.connected && w.job.Written? && !w.job.complete
    ensures Enabled(w, Finish(true)) && w' == Next(w, Finish(true)) && Sized(w')
    ensures w' == w.(job := NoJob, table := MarkSent(w.table, w.job.id, false), session := w.session.(closed := true))
  {
    hide Assignments.MarkSent;
    w' := Next(w, Finish(true));
  }

  /** A whole attempt of that kind at a first record of a connection, which carries the whole frame. */
  lemma BreakingRun(w: World, id: nat, pixels: Bytes) returns (w': World)
    requires ReadyToSend(w, id, pixels) && w.toTablet == [] && w.toServer == [] && w.session.lastFrameID == 0
    requires D.FrameShape(w.catalog.width, w.catalog.height, pixels)
    ensures Possible(w, BREAKING) && w' == Run(w, BREAKING)
    ensures w'.device == w.device && w'.toServer == [Ack(Issued(w.session))] && w'.connected && Sized(w')
    ensures w'.table == MarkSent(PrepareSend(w.table, id, Issued(w.session)), id, false)
    ensures w'.session.ackedSeq == w.session.ackedSeq
  {
    hide Decide, Newest, D.Changed, Next, Enabled, Assignments.MarkSent, Assignments.PrepareSend, Issued;
    CheckingRun(w, id, pixels);
    var w1 := Passed(w, id);
    var w2 := RenderOne(w1, pixels);
    RunOne(w1, Render);
    IssuedOnly(w.session, id);
    IssueSame(w1.session);
    assert D.Placed(w2.job.record.primitive, w.catalog.width, w.catalog.height) by {
      assert ConfirmedBase(w1.session, w1.job.display) == None;
      FullPlaced(w1.session, pixels, w.catalog.width, w.catalog.height);
    }
    w' := BrokenWrite(w2, id, w2.job.record, pixels);
    RunConcat(w1, [Render], BROKEN);
    RunConcat(w, CHECKING, [Render] + BROKEN);
  }

  lemma IssuedOnly(s: SessionState, id: nat)
    ensures Issued(Started(s, id)) == Issued(s) && AfterIssue(s).ackedSeq == s.ackedSeq
  {
  }

  lemma FullPlaced(s: SessionState, pixels: Bytes, w: int, h: int)
    requires D.FrameShape(w, h, pixels)
    ensures D.Placed(Patch(s, pixels, None, w, h), w, h)
  {
    D.FrameRows(w, h, pixels);
    W.PatchPlaced(pixels, pixels, w, h);
  }

  /** A run whose only record is applied and acknowledged, and whose acknowledgement nobody is waiting for. */
  lemma AckUnmatched(first: Bytes) returns (steps: seq<Step>)
    requires |first| == 2
    ensures C.Init(W.FRESH) && Sized(W.FRESH) && Possible(W.FRESH, steps)
    ensures var w := Run(W.FRESH, steps);
            && w.connected && w.toServer == [Ack(1)] && w.table.Keys == {1} && w.table[1].sentSequence == Some(1)
            && AcknowledgedBy(w.table, w.device, 1) == None
            && var w' := Next(w, Receive(true)); w'.table == w.table && !Acknowledged(w'.session, 1)
  {
    hide Next, Enabled, Newest, Run, Possible;
    var w := W.FirstQueued(first);
    NewestOnly(w.table, "d", 1);
    var w' := BreakingRun(w, 1, first);
    steps := [Queue("d", 1, Some(first)), Connect(0, true)] + BREAKING;
    RunConcat(W.FRESH, [Queue("d", 1, Some(first)), Connect(0, true)], BREAKING);
    assert w'.table == map[1 := Row("d", 1, State.Error, Some(1), false, 1, Some(first))];
    NobodyWaits(w'.table, first);
    UnmatchedIgnored(w', 1);
  }

  lemma NobodyWaits(t: Table, first: Bytes)
    requires t == map[1 := Row("d", 1, State.Error, Some(1), false, 1, Some(first))]
    ensures AcknowledgedBy(t, "d", 1) == None
  {
    assert AwaitingAck(t, "d", 1) == {};
  }

  lemma UnmatchedIgnored(w: World, sequence: U32)
    requires Sized(w) && w.connected && w.toServer == [Ack(sequence)]
             && AcknowledgedBy(w.table, w.device, sequence) == None
    requires w.session.ackedSeq == 0
    ensures Enabled(w, Receive(true))
    ensures var w' := Next(w, Receive(true)); w'.table == w.table && !Acknowledged(w'.session, sequence)
  {
  }

  // ---------------------------------------------------------------------------------------------
  // An acknowledgement credited to another assignment
  // ---------------------------------------------------------------------------------------------

  /**
   The tablet comes back without having shown anything: numbers start over, and the row still waits under its old one.
   */
  lemma Reconnected(first: Bytes, w: World) returns (w': World)
    requires |first| == 2
    requires Sized(w) && w.device == "d" && w.connected && w.tablet.display == 0 && w.nextId == 2
    requires w.catalog == Catalog(4, 1, map[1 := Frame(1, Some(first))], {0, 1})
    requires w.table == map[1 := W.RowOf(1, State.Sent, 1, false, first)]
    ensures Possible(w, [Disconnect, Connect(0, true)]) && w' == Run(w, [Disconnect, Connect(0, true)])
    ensures Sized(w') && w'.device == "d" && w'.connected && w'.job == NoJob && w'.toServer == [] && w'.toTablet == []
            && w'.nextId == 2
    ensures w'.catalog == w.catalog && w'.table == w.table
            && w'.session == SessionState(false, 0, 1, 0, 0, 0, 0, 0, 0, [], 0, 0)
  {
    RunTwo(w, Disconnect, Connect(0, true));
    w' := Next(Next(w, Disconnect), Connect(0, true));
  }

  /**
   Frame 1 is sent under number 1 and lost, the tablet reconnects and numbers start over; frame 2 goes out under number
   1, and its write fails although it arrives. Its acknowledgement is credited to frame 1, which nobody ever applied.
   */
  lemma CreditedElsewhere(first: Bytes, second: Bytes) returns (steps: seq<Step>)
    requires |first| == 2 && |second| == 2
    ensures C.Init(W.FRESH) && Sized(W.FRESH) && Possible(W.FRESH, steps)
    ensures var w := Run(W.FRESH, steps);
            && w.connected && w.toServer == [Ack(1)] && w.table.Keys == {1, 2} && w.table[2].sentSequence == Some(1)
            && AcknowledgedBy(w.table, w.device, 1) == Some(1)
  {
    hide Next, Enabled, Newest, Run, Possible, Decide;
    var sent, w1 := W.FirstSent(first);
    var w2 := Reconnected(first, w1);
    RunConcat(W.FRESH, sent, [Disconnect, Connect(0, true)]);
    var w3 := W.QueueOne(w2, 2, second);
    RunOne(w2, Queue("d", 2, Some(second)));
    RunConcat(W.FRESH, sent + [Disconnect, Connect(0, true)], [Queue("d", 2, Some(second))]);
    SecondReady(w3, first, second);
    var w4 := BreakingRun(w3, 2, second);
    RunConcat(W.FRESH, sent + [Disconnect, Connect(0, true)] + [Queue("d", 2, Some(second))], BREAKING);
    steps := sent + [Disconnect, Connect(0, true)] + [Queue("d", 2, Some(second))] + BREAKING;
    assert w4.table == map[1 := W.RowOf(1, State.Sent, 1, false, first),
                           2 := Row("d", 2, State.Error, Some(1), false, 1, Some(second))];
    FirstWaits(w4.table, first, second);
  }

  lemma SecondReady(w: World, first: Bytes, second: Bytes)
    requires Sized(w) && w.device == "d" && w.connected && w.job == NoJob
    requires w.session == SessionState(false, 0, 1, 0, 0, 0, 0, 0, 0, [], 0, 0)
    requires w.table == map[1 := W.RowOf(1, State.Sent, 1, false, first),
                            2 := Row("d", 2, Queued, None, false, 0, Some(second))]
    ensures ReadyToSend(w, 2, second)
  {
    NewestOnly(w.table, "d", 2);
  }

  lemma FirstWaits(t: Table, first: Bytes, second: Bytes)
    requires t == map[1 := W.RowOf(1, State.Sent, 1, false, first),
                      2 := Row("d", 2, State.Error, Some(1), false, 1, Some(second))]
    ensures AcknowledgedBy(t, "d", 1) == Some(1)
  {
    assert AwaitingAck(t, "d", 1) == {1};
  }

  // ---------------------------------------------------------------------------------------------
  // A retry that is past its check when the acknowledgement comes
  // ---------------------------------------------------------------------------------------------

  /** Steps that cannot make a counter wrap, whatever the world. */
  predicate Plain(step: Step) {
    !step.Number? && !step.Receive? && !step.Connect? && !step.Elsewhere?
  }

  lemma {:induction false} PlainSteady(w: World, steps: seq<Step>)
    requires Sized(w) && Possible(w, steps) && forall i | 0 <= i < |steps| :: Plain(steps[i])
    ensures Throughout(w, steps, T.Steady)
    decreases |steps|
  {
    hide Next, Enabled;
    if steps != [] {
      PlainSteady(Next(w, steps[0]), steps[1..]);
    }
  }

  lemma {:induction false} CalmNoWrap(w: World, steps: seq<Step>)
    requires Sized(w) && Possible(w, steps) && forall i | 0 <= i < |steps| :: !steps[i].Number? && !steps[i].Receive?
    ensures Throughout(w, steps, T.NoWrap)
    decreases |steps|
  {
    hide Next, Enabled;
    if steps != [] {
      CalmNoWrap(Next(w, steps[0]), steps[1..]);
    }
  }

  /** An attempt below the wrap, from its render on. */
  lemma FinishingSteady(w: World, id: nat, row: Row, pixels: Bytes)
    requires Sized(w) && w.connected && id in w.table && w.table[id].frameID == row.frameID
             && row.rendered == Some(pixels)
    requires w.session.attemptID == id && w.job == Checked(id, row, w.session.display) && w.session.nextSeq < TWO32 - 1
    ensures Possible(w, FINISHING) && Run(w, FINISHING) == AfterSending(w, id, pixels)
            && Throughout(w, FINISHING, T.Steady)
  {
    hide AfterSending, Next, Enabled, Run, Possible, Throughout, Sized;
    FinishingRun(w, id, row, pixels);
    var w1 := RenderOne(w, pixels);
    RunOne(w, Render);
    PlainSteady(w, [Render]);
    WritingSteady(w1);
    ThroughoutConcat(w, [Render], WRITING, T.Steady);
  }

  lemma WritingSteady(w: World)
    requires Sized(w) && w.connected && w.job.Based? && w.session.nextSeq < TWO32 - 1
    ensures Possible(w, WRITING) && Throughout(w, WRITING, T.Steady)
  {
    hide Next, Enabled, Run;
    WritingRun(w, w.job.id, w.job.record, w.job.pixels);
    assert WRITING[1..] == [Prepare(Ready), Write(true, true), Finish(true)];
    PlainSteady(Next(w, Number), WRITING[1..]);
  }

  lemma SendingSteady(w: World, id: nat, pixels: Bytes)
    requires ReadyToSend(w, id, pixels) && w.session.nextSeq < TWO32 - 1
    ensures Possible(w, SENDING) && Run(w, SENDING) == AfterSending(w, id, pixels) && Throughout(w, SENDING, T.Steady)
  {
    hide AfterSending, Next, Enabled, Run, Possible, Throughout, Decide, Newest;
    SendingRun(w, id, pixels);
    CheckingRun(w, id, pixels);
    PlainSteady(w, CHECKING);
    FinishingSteady(Passed(w, id), id, w.table[id], pixels);
    ThroughoutConcat(w, CHECKING, FINISHING, T.Steady);
  }

  /** The acknowledgement of the first record arrives when the retry has passed its check. */
  lemma AckedPastCheck(first: Bytes, w: World) returns (w': World)
    requires |first| == 2
    requires Sized(w) && w.device == "d" && w.connected && w.toServer == []
             && w.toTablet == [ImageRecord(1, 1, D.Primitive(0, 0, 4, 1, first), None)]
    requires w.catalog == Catalog(4, 1, map[1 := Frame(1, Some(first))], {0, 1})
    requires w.table == map[1 := W.RowOf(1, State.Sent, 1, false, first)]
    requires w.session == SessionState(false, 0, 2, 0, 1, 1, 1, 1, 0, first, 4, 1)
    requires w.job == Checked(1, w.table[1], 0)
    ensures Possible(w, [TabletApplies(true), Receive(true)]) && w' == Run(w, [TabletApplies(true), Receive(true)])
    ensures Throughout(w, [TabletApplies(true), Receive(true)], T.Steady)
    ensures w' == w.(toTablet := [], tablet := Tablet(Unpack(first), 1),
                     table := map[1 := W.RowOf(1, State.Sent, 1, true, first)], session := w.session.(ackedSeq := 1))
                       && Sized(w')
  {
    hide Next, Enabled;
    var w1 := W.FirstApplied(first, w);
    w' := W.FirstAcknowledged(first, w1);
    RunTwo(w, TabletApplies(true), Receive(true));
    assert [TabletApplies(true), Receive(true)][1..] == [Receive(true)];
  }

  lemma RetryReady(first: Bytes, w: World, sequence: U32, n: nat, acknowledged: U32)
    requires Sized(w) && w.device == "d" && w.connected && w.job == NoJob && n < MAX_ATTEMPTS
    requires w.table == map[1 := Row("d", 1, State.Sent, Some(sequence), false, n, Some(first))]
    requires w.session == SessionState(false, 0, w.session.nextSeq, acknowledged, 1, sequence, 1, n, 0, first, 4, 1)
    requires sequence != acknowledged
    ensures ReadyToSend(w, 1, first)
  {
    NewestOnly(w.table, "d", 1);
  }

  /**
   Frame 1 is sent; after the retry interval a second attempt passes its check, and then the acknowledgement of the
   first record is noted. The attempt writes the assignment a second time; as the acknowledged number is no longer that
   of the last record, the next attempt writes it a third time.
   */
  lemma RacedTwice(first: Bytes) returns (history: seq<Step>, race: seq<Step>, again: seq<Step>)
    requires |first| == 2
    ensures C.Init(W.FRESH) && Sized(W.FRESH) && Possible(W.FRESH, history) && Throughout(W.FRESH, history, T.NoWrap)
    ensures var w := Run(W.FRESH, history);
            && T.Noted(w, 1) && CountOf(w.attemptsHere, 1) == 1
            && Possible(w, race) && CountOf(Run(w, race).attemptsHere, 1) == 2
            && Possible(w, race + again) && Throughout(w, race + again, T.Steady)
            && CountOf(Run(w, race + again).attemptsHere, 1) == 3
  {
    hide Next, Enabled, Newest, Run, Possible, Throughout, Decide, AfterSending;
    var sent, w1 := W.FirstSent(first);
    FirstSentNoWrap(first);
    RetryReady(first, w1, 1, 1, 0);
    CheckingRun(w1, 1, first);
    PlainSteady(w1, CHECKING);
    T.SteadyNoWrap(w1, CHECKING);
    var w2 := Passed(w1, 1);
    var w3 := AckedPastCheck(first, w2);
    T.SteadyNoWrap(w2, [TabletApplies(true), Receive(true)]);
    history := sent + CHECKING + [TabletApplies(true), Receive(true)];
    ThroughoutConcat(W.FRESH, sent, CHECKING, T.NoWrap);
    RunConcat(W.FRESH, sent, CHECKING);
    ThroughoutConcat(W.FRESH, sent + CHECKING, [TabletApplies(true), Receive(true)], T.NoWrap);
    RunConcat(W.FRESH, sent + CHECKING, [TabletApplies(true), Receive(true)]);
    race := FINISHING;
    FinishingSteady(w3, 1, w2.table[1], first);
    var w4 := AfterSending(w3, 1, first);
    RacedState(first, w3);
    RetryReady(first, w4, 2, 2, 1);
    again := SENDING;
    SendingSteady(w4, 1, first);
    SentAgain(w4, first);
    ThroughoutConcat(w3, race, again, T.Steady);
    RunConcat(w3, race, again);
  }

  lemma RacedState(first: Bytes, w: World)
    requires |first| == 2 && w.device == "d" && w.table == map[1 := W.RowOf(1, State.Sent, 1, true, first)]
    requires w.catalog.width == 4 && w.catalog.height == 1 && w.attemptsHere == map[1 := 1]
    requires w.session == SessionState(false, 0, 2, 1, 1, 1, 1, 1, 0, first, 4, 1)
    ensures var w' := AfterSending(w, 1, first);
            && w'.table == map[1 := Row("d", 1, State.Sent, Some(2), false, 2, Some(first))]
            && w'.session == SessionState(false, 0, 3, 1, 1, 2, 1, 2, 0, first, 4, 1)
            && w'.attemptsHere == map[1 := 2] && w'.job == NoJob && w'.device == "d" && w'.connected == w.connected
            && w'.catalog == w.catalog && w'.tablet == w.tablet
  {
    hide D.Changed;
  }

  lemma SentAgain(w: World, first: Bytes)
    requires 1 in w.table
    ensures CountOf(AfterSending(w, 1, first).attemptsHere, 1) == CountOf(w.attemptsHere, 1) + 1
  {
    hide D.Changed;
  }

  lemma FirstSentNoWrap(first: Bytes)
    requires |first| == 2
    ensures var steps := [Queue("d", 1, Some(first)), Connect(0, true)] + SENDING;
            Possible(W.FRESH, steps) && Throughout(W.FRESH, steps, T.NoWrap)
  {
    hide Next, Enabled, Newest, Run, AfterSending;
    var w := W.FirstQueued(first);
    var opening := [Queue("d", 1, Some(first)), Connect(0, true)];
    CalmNoWrap(W.FRESH, opening);
    NewestOnly(w.table, "d", 1);
    SendingSteady(w, 1, first);
    T.SteadyNoWrap(w, SENDING);
    ThroughoutConcat(W.FRESH, opening, SENDING, T.NoWrap);
  }

  // ---------------------------------------------------------------------------------------------
  // An acknowledgement credited to a newer assignment
  // ---------------------------------------------------------------------------------------------

  /** The first connection begins an attempt and is replaced; nothing else has happened on it. */
  lemma Replaced(first: Bytes, w: World)
    requires Sized(w) && w.device == "d" && w.connected && w.tablet.display == 0
    requires w.job == NoJob && w.toServer == [] && w.toTablet == [] && w.attemptsHere == map[]
    requires w.table == map[1 := Row("d", 1, Queued, None, false, 0, Some(first))]
    requires w.session == SessionState(false, 0, 1, 0, 0, 0, 0, 0, 0, [], 0, 0)
    ensures Possible(w, [Begin, Connect(0, true)]) && Run(w, [Begin, Connect(0, true)]) == w
  {
    RunTwo(w, Begin, Connect(0, true));
    assert IdsOf(w.table, "d") == {1};
  }

  /**
   The newer row comes in and gets the number of the frame in flight: the attempt begun on the replaced connection loads
   it and draws the same number from its own session.
   */
  lemma Overtaken(first: Bytes, second: Bytes, w: World) returns (w': World)
    requires |first| == 2 && |second| == 2
    requires Sized(w) && w.device == "d" && w.connected && w.toServer == [] && w.nextId == 2
    requires w.toTablet == [ImageRecord(1, 1, D.Primitive(0, 0, 4, 1, first), None)]
    requires w.catalog == Catalog(4, 1, map[1 := Frame(1, Some(first))], {0, 1})
    requires w.table == map[1 := W.RowOf(1, State.Sent, 1, false, first)]
    ensures var steps := [TabletApplies(true), Queue("d", 2, Some(second)), Elsewhere(OpPrepareSend(2, 1))];
            Possible(w, steps) && w' == Run(w, steps)
    ensures w'.device == "d" && w'.connected && w'.session == w.session && w'.job == w.job && w'.toServer == [Ack(1)]
    ensures w'.table == map[1 := W.RowOf(1, State.Sent, 1, false, first),
                            2 := Row("d", 2, Queued, Some(1), false, 1, Some(second))]
    ensures w'.catalog.frames == map[1 := Frame(1, Some(first)), 2 := Frame(2, Some(second))]
  {
    hide Next, Enabled;
    var w1 := W.FirstApplied(first, w);
    var w2 := W.QueueOne(w1, 2, second);
    w' := Prepared(w2, second);
    RunThree(w, TabletApplies(true), Queue("d", 2, Some(second)), Elsewhere(OpPrepareSend(2, 1)));
  }

  lemma Prepared(w: World, second: Bytes) returns (w': World)
    requires Sized(w) && 2 in w.table
    ensures Enabled(w, Elsewhere(OpPrepareSend(2, 1))) && w' == Next(w, Elsewhere(OpPrepareSend(2, 1)))
    ensures w' == w.(table := Assignments.PrepareSend(w.table, 2, 1))
  {
    w' := Next(w, Elsewhere(OpPrepareSend(2, 1)));
  }

  /**
   A run without a wrap after which the last record's own row waits for its acknowledgement, and a newer row would take
   it: frame 1 is sent under number 1 on the second connection, frame 2 is queued, and an attempt begun on the first
   connection stores number 1 for it.
   */
  lemma CreditedToNewer(first: Bytes, second: Bytes) returns (steps: seq<Step>)
    requires |first| == 2 && |second| == 2
    ensures C.Init(W.FRESH) && Sized(W.FRESH) && Possible(W.FRESH, steps) && Throughout(W.FRESH, steps, T.NoWrap)
    ensures var w := Run(W.FRESH, steps);
            && C.Live(w) && w.toServer == [Ack(1)] && C.LastFrame(w.session, w.job) == 1
            && C.LastSequence(w.session, w.job) == 1
            && 1 in w.catalog.frames && w.catalog.frames[1].rank == 1
            && Awaits(w.table, w.device, 1, 1) && AcknowledgedBy(w.table, w.device, 1) == Some(2)
  {
    hide Next, Enabled, Newest, Run, Possible, Throughout, Decide, AfterSending;
    var opening := [Queue("d", 1, Some(first)), Connect(0, true)];
    var again := [Begin, Connect(0, true)];
    var last := [TabletApplies(true), Queue("d", 2, Some(second)), Elsewhere(OpPrepareSend(2, 1))];
    var w := W.FirstQueued(first);
    Replaced(first, w);
    NewestOnly(w.table, "d", 1);
    FirstReady(first, w);
    SendingSteady(w, 1, first);
    var sent, w1 := W.FirstSent(first);
    RunConcat(W.FRESH, opening, SENDING);
    var w2 := Overtaken(first, second, w1);
    CalmNoWrap(W.FRESH, opening);
    CalmNoWrap(w, again);
    T.SteadyNoWrap(w, SENDING);
    CalmNoWrap(w1, last);
    steps := opening + again + SENDING + last;
    ThroughoutConcat(W.FRESH, opening, again, T.NoWrap);
    RunConcat(W.FRESH, opening, again);
    ThroughoutConcat(W.FRESH, opening + again, SENDING, T.NoWrap);
    RunConcat(W.FRESH, opening + again, SENDING);
    ThroughoutConcat(W.FRESH, opening + again + SENDING, last, T.NoWrap);
    RunConcat(W.FRESH, opening + again + SENDING, last);
    BothWait(w2.table, first, second);
  }

  lemma FirstReady(first: Bytes, w: World)
    requires Sized(w) && w.device == "d" && w.connected && w.job == NoJob
    requires w.table == map[1 := Row("d", 1, Queued, None, false, 0, Some(first))]
    requires w.session == SessionState(false, 0, 1, 0, 0, 0, 0, 0, 0, [], 0, 0)
    ensures ReadyToSend(w, 1, first)
  {
    NewestOnly(w.table, "d", 1);
  }

  lemma BothWait(t: Table, first: Bytes, second: Bytes)
    requires t == map[1 := W.RowOf(1, State.Sent, 1, false, first),
                      2 := Row("d", 2, Queued, Some(1), false, 1, Some(second))]
    ensures Awaits(t, "d", 1, 1) && AcknowledgedBy(t, "d", 1) == Some(2)
  {
    assert AwaitingAck(t, "d", 1) == {1, 2};
  }

  // ---------------------------------------------------------------------------------------------
  // A delivered frame written again
  // ---------------------------------------------------------------------------------------------

  /**
   The tablet applies the record without acknowledging it, and its status delivers the row of the attempt past its
   check.
   */
  lemma DeliveredPastCheck(first: Bytes, w: World) returns (w': World)
    requires |first| == 2
    requires Sized(w) && w.device == "d" && w.connected && w.toServer == []
    requires w.toTablet == [ImageRecord(1, 1, D.Primitive(0, 0, 4, 1, first), None)]
    requires w.catalog == Catalog(4, 1, map[1 := Frame(1, Some(first))], {0, 1})
    requires w.table == map[1 := W.RowOf(1, State.Sent, 1, false, first)]
    ensures var steps := [TabletApplies(false), TabletReports(0), Receive(true)];
            Possible(w, steps) && w' == Run(w, steps)
    ensures Sized(w') && w'.device == "d" && w'.connected && w'.nextId == w.nextId && w'.job == w.job
    ensures w'.table == map[1 := W.RowOf(1, Delivered, 1, false, first)] && w'.attempts == w.attempts
  {
    hide Next, Enabled;
    var w1 := Unacknowledged(first, w);
    var w2 := Reported(w1);
    w' := StatusDelivers(first, w2);
    RunThree(w, TabletApplies(false), TabletReports(0), Receive(true));
  }

  lemma Unacknowledged(first: Bytes, w: World) returns (w': World)
    requires |first| == 2 && Sized(w) && w.catalog == Catalog(4, 1, map[1 := Frame(1, Some(first))], {0, 1})
    requires w.toTablet == [ImageRecord(1, 1, D.Primitive(0, 0, 4, 1, first), None)]
    ensures Enabled(w, TabletApplies(false)) && w' == Next(w, TabletApplies(false)) && Sized(w')
    ensures w' == w.(toTablet := [], tablet := Tablet(Unpack(first), 1))
  {
    D.PaintFull(first, 4, 1, w.tablet.framebuffer);
    w' := Next(w, TabletApplies(false));
  }

  lemma Reported(w: World) returns (w': World)
    requires Sized(w) && w.connected && w.toServer == [] && w.tablet.display == 1
    ensures Enabled(w, TabletReports(0)) && w' == Next(w, TabletReports(0)) && Sized(w')
    ensures w' == w.(toServer := [Status(0, 1)])
  {
    w' := Next(w, TabletReports(0));
  }

  lemma StatusDelivers(first: Bytes, w: World) returns (w': World)
    requires Sized(w) && w.device == "d" && w.connected && w.toServer == [Status(0, 1)]
    requires w.table == map[1 := W.RowOf(1, State.Sent, 1, false, first)]
    ensures Enabled(w, Receive(true)) && w' == Next(w, Receive(true)) && Sized(w')
    ensures w'.table == map[1 := W.RowOf(1, Delivered, 1, false, first)]
    ensures w' == w.(table := w'.table, session := w'.session, toServer := [])
  {
    w' := Next(w, Receive(true));
    assert UndeliveredWithFrame(w.table, "d", 1) == {1};
  }

  /** A run from a fresh server after which the newest row is delivered, and is written once more all the same. */
  lemma DeliveredRaced(first: Bytes) returns (history: seq<Step>, race: seq<Step>)
    requires |first| == 2
    ensures C.Init(W.FRESH) && Sized(W.FRESH) && Possible(W.FRESH, history)
    ensures var w := Run(W.FRESH, history);
            && S.IsDelivered(w.table, 1) && Newest(w.table, w.device) == 1 && S.Done(w.table, w.device)
            && Possible(w, race) && S.NeverWakes(w, race) && S.IsDelivered(Run(w, race).table, 1)
            && CountOf(Run(w, race).attempts, 1) == CountOf(w.attempts, 1) + 1
  {
    hide Next, Enabled, Newest, Run, Possible, Decide, AfterSending, S.NeverWakes;
    var sent, w1 := W.FirstSent(first);
    RetryReady(first, w1, 1, 1, 0);
    CheckingRun(w1, 1, first);
    var w2 := Passed(w1, 1);
    var w3 := DeliveredPastCheck(first, w2);
    var late := [TabletApplies(false), TabletReports(0), Receive(true)];
    history := sent + CHECKING + late;
    RunConcat(W.FRESH, sent, CHECKING);
    RunConcat(W.FRESH, sent + CHECKING, late);
    race := T.RaceSteps(w3.job);
    T.RaceWrites(w3, 1);
    S.RaceNeverWakes(w3, 1);
    S.RaceNeverEnds(w3, 1);
    S.DeliveredStays(w3, race, 1);
    DeliveredDone(w3.table, first);
  }

  lemma DeliveredDone(t: Table, first: Bytes)
    requires t == map[1 := W.RowOf(1, Delivered, 1, false, first)]
    ensures Newest(t, "d") == 1 && S.Done(t, "d") && S.IsDelivered(t, 1)
  {
    NewestOnly(t, "d", 1);
  }
}
