/**
 What the coherence argument needs of sequence numbers: exactly when reusing one breaks it, and a status that leads
 there.
 */
module Wraparound {
  import opened Common
  import opened Pixels
  import opened Delta
  import opened Assignments
  import opened Session
  import opened Attempt
  import opened Delivery
  import opened Undisturbed
  import C = Coherence

  // ---------------------------------------------------------------------------------------------
  // Two frames in a row, the first of them lost
  // ---------------------------------------------------------------------------------------------

  /** A connection at rest: nothing in flight in either direction, no attempt under way. */
  ghost predicate AtRest(w: World) {
    && Sized(w) && w.connected && !w.session.closed && w.job.NoJob? && w.toTablet == [] && w.toServer == []
    && 0 < w.nextId && (forall id | id in w.table :: id < w.nextId)
    && w.session.attemptID < w.nextId && w.session.renderFailedID < w.nextId
    && w.session.display in w.catalog.used
  }

  ghost predicate FreshPair(w: World, f: U32, g: U32) {
    f != 0 && g != 0 && f != g && f !in w.catalog.used && g !in w.catalog.used
  }

  /** Frame `f` is sent and lost, frame `g` is sent and applied. */
  function LoseOne(device: string, f: U32, a: Bytes, g: U32, b: Bytes): seq<Step> {
    [Queue(device, f, Some(a))] + SENDING + [TabletDrops] + [Queue(device, g, Some(b))] + SENDING
        + [TabletApplies(true)]
  }

  /** Queueing a frame for the device of the connection, and sending it: what becomes of the parts that matter. */
  lemma QueueAndSend(w: World, f: U32, pixels: Bytes) returns (w': World)
    requires AtRest(w) && f != 0 && f !in w.catalog.used && FrameShape(w.catalog.width, w.catalog.height, pixels)
    ensures Possible(w, [Queue(w.device, f, Some(pixels))] + SENDING)
            && w' == Run(w, [Queue(w.device, f, Some(pixels))] + SENDING)
    ensures w'.device == w.device && w'.connected && w'.job == NoJob && w'.nextId == w.nextId + 1
            && w'.tablet == w.tablet && w'.toServer == []
    ensures w'.catalog == w.catalog.(used := w.catalog.used + {f},
                                     frames := w.catalog.frames[f := Frame(w.nextId, Some(pixels))])
    ensures forall id | id in w'.table :: id < w'.nextId
    ensures w'.session == SendRecorded(AfterIssue(w.session.(attemptID := w.nextId, attempts := 1)), f,
                                       Issued(w.session), pixels, w.catalog.width, w.catalog.height)
    ensures w'.toTablet == [NewRecord(w, f, Issued(w.session), pixels, ConfirmedBase(w.session, w.session.display))]
  {
    hide Enabled, Changed, Newest, NewRecord, ConfirmedBase, Assignments.MarkSent, Assignments.PrepareSend, AfterIssue,
         Issued;
    var w1 := QueueOne(w, f, pixels);
    hide Next;
    NewestOnly(w1.table, w.device, w.nextId);
    SendingRun(w1, w.nextId, pixels);
    RunOne(w, Queue(w.device, f, Some(pixels)));
    RunConcat(w, [Queue(w.device, f, Some(pixels))], SENDING);
    w' := AfterSending(w1, w.nextId, pixels);
    SentKeys(w1, w.nextId, pixels);
    SameRecord(w, w1, f, pixels, ConfirmedBase(w.session, w.session.display));
    RecordFields(w1, f, pixels, ConfirmedBase(w.session, w.session.display));
  }

  lemma SentKeys(w: World, id: nat, pixels: Bytes)
    requires id in w.table
    ensures AfterSending(w, id, pixels).table.Keys == w.table.Keys
    ensures Issued(w.session.(attemptID := id, attempts := 1)) == Issued(w.session)
    ensures w.session.attemptID != id ==> Tried(w.session, id) == w.session.(attemptID := id, attempts := 1)
  {
    hide Changed, ConfirmedBase;
  }

  lemma SameRecord(w: World, w1: World, f: U32, pixels: Bytes, base: Option<U32>)
    requires w1.session == w.session && w1.catalog.width == w.catalog.width && w1.catalog.height == w.catalog.height
    ensures NewRecord(w1, f, Issued(w.session), pixels, base) == NewRecord(w, f, Issued(w.session), pixels, base)
  {
    hide Changed;
  }

  lemma QueueOne(w: World, f: U32, pixels: Bytes) returns (w': World)
    requires Sized(w) && f != 0 && f !in w.catalog.used && FrameShape(w.catalog.width, w.catalog.height, pixels)
    ensures Enabled(w, Queue(w.device, f, Some(pixels))) && w' == Next(w, Queue(w.device, f, Some(pixels)))
    ensures w' == w.(nextId := w.nextId + 1,
                     table := w.table[w.nextId := Row(w.device, f, Queued, None, false, 0, Some(pixels))],
                     catalog := w.catalog.(used := w.catalog.used + {f},
                                           frames := w.catalog.frames[f := Frame(w.nextId, Some(pixels))]))
  {
    w' := Next(w, Queue(w.device, f, Some(pixels)));
  }

  lemma DropOnly(w: World) returns (w': World)
    requires Sized(w) && |w.toTablet| == 1
    ensures Possible(w, [TabletDrops]) && w' == Run(w, [TabletDrops]) && w' == w.(toTablet := [])
  {
    w' := Next(w, TabletDrops);
    RunOne(w, TabletDrops);
  }

  /** The world before frame `g` is queued, the same whatever `g` is. */
  lemma FirstLost(w: World, f: U32, a: Bytes) returns (w': World)
    requires AtRest(w) && f != 0 && f !in w.catalog.used && FrameShape(w.catalog.width, w.catalog.height, a)
    ensures Possible(w, [Queue(w.device, f, Some(a))] + SENDING + [TabletDrops])
    ensures w' == Run(w, [Queue(w.device, f, Some(a))] + SENDING + [TabletDrops])
    ensures AtRest(w') && w'.device == w.device && w'.tablet == w.tablet
    ensures w'.catalog == w.catalog.(used := w.catalog.used + {f},
                                     frames := w.catalog.frames[f := Frame(w.nextId, Some(a))])
    ensures w'.session == SendRecorded(AfterIssue(w.session.(attemptID := w.nextId, attempts := 1)), f,
                                       Issued(w.session), a, w.catalog.width, w.catalog.height)
  {
    hide Next, Enabled, NewRecord, AfterIssue;
    var w1 := QueueAndSend(w, f, a);
    w' := DropOnly(w1);
    RunConcat(w, [Queue(w.device, f, Some(a))] + SENDING, [TabletDrops]);
    IssueOnly(w.session.(attemptID := w.nextId, attempts := 1));
  }

  lemma IssueOnly(s: SessionState)
    ensures AfterIssue(s) == s.(nextSeq := AfterIssue(s).nextSeq)
  {
  }

  /**
   The record of frame `g`: a partial update of the lost frame exactly if the number of that frame counts as
   acknowledged.
   */
  ghost function SecondRecord(w: World, f: U32, a: Bytes, b: Bytes): Primitive {
    if w.session.ackedSeq == Issued(w.session)
    then Changed(b, a, w.catalog.width, w.catalog.height, w.catalog.width, w.catalog.height)
    else Primitive(0, 0, w.catalog.width, w.catalog.height, b)
  }

  lemma SecondPrimitive(w: World, w1: World, f: U32, a: Bytes, g: U32, b: Bytes)
    requires w1.session == SendRecorded(AfterIssue(w.session.(attemptID := w.nextId, attempts := 1)), f,
                                        Issued(w.session), a, w.catalog.width, w.catalog.height)
    requires w1.catalog.width == w.catalog.width && w1.catalog.height == w.catalog.height
    requires f != 0 && w.session.display != f && FrameShape(w.catalog.width, w.catalog.height, b)
    ensures NewRecord(w1, g, Issued(w1.session), b, ConfirmedBase(w1.session, w1.session.display)).primitive
         == SecondRecord(w, f, a, b)
  {
    FrameRows(w.catalog.width, w.catalog.height, b);
  }

  /** The whole scenario can happen, and leaves the second record painted over whatever the tablet showed. */
  lemma LoseOneRun(w: World, f: U32, a: Bytes, g: U32, b: Bytes) returns (w': World)
    requires AtRest(w) && FreshPair(w, f, g)
    requires FrameShape(w.catalog.width, w.catalog.height, a) && FrameShape(w.catalog.width, w.catalog.height, b)
    ensures Placed(SecondRecord(w, f, a, b), w.catalog.width, w.catalog.height)
    ensures Possible(w, LoseOne(w.device, f, a, g, b)) && w' == Run(w, LoseOne(w.device, f, a, g, b))
    ensures Coherent(w'.catalog, w'.tablet) <==>
              Paint(w.tablet.framebuffer, w.catalog.width, w.catalog.height, SecondRecord(w, f, a, b)) == Unpack(b)
  {
    hide Next, Enabled, NewRecord, AfterIssue, Issued, Changed, Paint, SecondRecord, Unpack, ConfirmedBase, Placed;
    var w1 := FirstLost(w, f, a);
    var w2 := QueueAndSend(w1, g, b);
    SecondPrimitive(w, w1, f, a, g, b);
    SecondPlaced(w, f, a, b);
    var p := SecondRecord(w, f, a, b);
    assert w2.toTablet[0].primitive == p && w2.toTablet[0].frameID == g by {
      RecordFields(w1, g, b, ConfirmedBase(w1.session, w1.session.display));
    }
    w' := ApplyOnly(w2, p, g);
    var lost := [Queue(w.device, f, Some(a))] + SENDING + [TabletDrops];
    var sent := [Queue(w.device, g, Some(b))] + SENDING;
    RunConcat(w, lost, sent);
    RunConcat(w, lost + sent, [TabletApplies(true)]);
    assert lost + sent + [TabletApplies(true)] == LoseOne(w.device, f, a, g, b);
  }

  lemma RecordFields(w: World, g: U32, b: Bytes, base: Option<U32>)
    ensures NewRecord(w, g, Issued(w.session), b, base).frameID == g
            && NewRecord(w, g, Issued(w.session), b, base).sequence == Issued(w.session)
  {
    hide Changed;
  }

  lemma ApplyOnly(w: World, p: Primitive, g: U32) returns (w': World)
    requires Sized(w) && |w.toTablet| == 1 && w.toTablet[0].primitive == p && w.toTablet[0].frameID == g
    requires Placed(p, w.catalog.width, w.catalog.height)
    ensures Possible(w, [TabletApplies(true)]) && w' == Run(w, [TabletApplies(true)]) && w'.catalog == w.catalog
    ensures w'.tablet == Tablet(Paint(w.tablet.framebuffer, w.catalog.width, w.catalog.height, p), g)
  {
    w' := Next(w, TabletApplies(true));
    RunOne(w, TabletApplies(true));
  }

  lemma SecondPlaced(w: World, f: U32, a: Bytes, b: Bytes)
    requires FrameShape(w.catalog.width, w.catalog.height, a) && FrameShape(w.catalog.width, w.catalog.height, b)
    ensures Placed(SecondRecord(w, f, a, b), w.catalog.width, w.catalog.height)
  {
    PatchPlaced(b, a, w.catalog.width, w.catalog.height);
  }

  lemma PatchPlaced(cur: Bytes, prev: Bytes, w: int, h: int)
    requires FrameShape(w, h, cur) && FrameShape(w, h, prev)
    ensures Placed(Primitive(0, 0, w, h, cur), w, h) && Placed(Changed(cur, prev, w, h, w, h), w, h)
  {
    FrameRows(w, h, cur);
    if cur != prev {
      BoxPlaced(cur, w / 2, h, ChangedBox(cur, prev, w / 2, h));
    }
  }

  // ---------------------------------------------------------------------------------------------
  // Exactly when that goes wrong
  // ---------------------------------------------------------------------------------------------

  /** All zero, but for the low nibble of the first byte and the low nibble of the second. */
  function Sample(size: nat, first: Nibble, second: Nibble): (frame: Bytes)
    requires size >= 2
    ensures |frame| == size
  {
    seq(size, i => if i == 0 then first else if i == 1 then second else 0)
  }

  /** A patch between frames that differ in their second byte only leaves the very first pixel alone. */
  lemma FirstPixelUncovered(cur: Bytes, prev: Bytes, w: int, h: int)
    requires FrameShape(w, h, cur) && FrameShape(w, h, prev) && |cur| >= 2
    requires forall i | 0 <= i < |cur| :: cur[i] != prev[i] <==> i == 1
    ensures !Covers(Changed(cur, prev, w, h, w, h), 0, 0)
  {
    FrameRows(w, h, cur);
    var columns := w / 2;
    assert cur[1] != prev[1];
    var b := ChangedBox(cur, prev, columns, h);
    var v :| Found(cur, prev, columns, 0, h, b.minX, v);
    var u :| Found(cur, prev, columns, 0, h, u, b.minY);
    assert Delta.Row(v, columns) + b.minX == 1 && Delta.Row(b.minY, columns) + u == 1;
    if v > 0 {
      RowOrder(0, v, columns);
    }
  }

  /** Frames that differ from what is shown in the first pixel, and from each other in the second byte. */
  lemma BreakingFrames(shown: seq<Nibble>, w: int, h: int) returns (a: Bytes, b: Bytes)
    requires 0 < w && 0 < h && w % 2 == 0 && |shown| == w * h && w / 2 * h >= 2
    ensures FrameShape(w, h, a) && FrameShape(w, h, b) && Placed(Changed(b, a, w, h, w, h), w, h)
    ensures Paint(shown, w, h, Changed(b, a, w, h, w, h)) != Unpack(b)
  {
    var n := w / 2 * h;
    assert |shown| == 2 * n by {
      FrameRows(w, h, Sample(n, 0, 0));
    }
    var first: Nibble := if shown[0] == 0 then 1 else 0;
    a, b := Sample(n, first, 0), Sample(n, first, 1);
    PatchPlaced(b, a, w, h);
    FirstPixelUncovered(b, a, w, h);
    FirstPixelStays(shown, b, w, h, Changed(b, a, w, h, w, h));
  }

  lemma FirstPixelStays(shown: seq<Nibble>, b: Bytes, w: nat, h: nat, p: Primitive)
    requires 0 < w && Placed(p, w, h) && !Covers(p, 0, 0) && 0 < |shown| == 2 * |b| && b[0] % 16 != shown[0]
    ensures Paint(shown, w, h, p) != Unpack(b)
  {
    assert Unpack(b)[0] == PixelAt(b, 0);
    assert 0 % w == 0 && 0 / w == 0;
    assert Paint(shown, w, h, p)[0] == PaintedPixel(shown[0], p, 0, 0);
  }

  /**
   From any connection at rest with at least four pixels, and for any two fresh frame ids: a frame lost and the next
   one applied leave the tablet showing what it reports, for all contents of the two frames, exactly if the number the
   lost frame gets is not the one noted as acknowledged.
   */
  lemma SafeExactlyUnused(w: World, f: U32, g: U32)
    requires AtRest(w) && FreshPair(w, f, g) && w.catalog.width % 2 == 0 && w.catalog.width / 2 * w.catalog.height >= 2
    ensures Issued(w.session) != w.session.ackedSeq <==> AlwaysCoherent(w, f, g)
  {
    hide AtRest, Coherent, Run, Possible, LoseOne, Paint, Unpack, Changed, SecondRecord, Placed;
    Shapes(w);
    if Issued(w.session) == w.session.ackedSeq {
      var a, b := BreakingFrames(w.tablet.framebuffer, w.catalog.width, w.catalog.height);
      var w' := LoseOneRun(w, f, a, g, b);
      SecondIs(w, f, a, b);
      assert !Coherent(w'.catalog, w'.tablet);
    } else {
      forall a, b | FrameShape(w.catalog.width, w.catalog.height, a) && FrameShape(w.catalog.width, w.catalog.height, b)
        ensures Possible(w, LoseOne(w.device, f, a, g, b))
        ensures var w' := Run(w, LoseOne(w.device, f, a, g, b)); Coherent(w'.catalog, w'.tablet)
      {
        var w' := LoseOneRun(w, f, a, g, b);
        SecondIs(w, f, a, b);
        PaintFull(b, w.catalog.width, w.catalog.height, w.tablet.framebuffer);
      }
    }
  }

  lemma Shapes(w: World)
    requires AtRest(w)
    ensures Sized(w) && 0 < w.catalog.width && 0 < w.catalog.height
            && |w.tablet.framebuffer| == w.catalog.width * w.catalog.height
  {
  }

  lemma SecondIs(w: World, f: U32, a: Bytes, b: Bytes)
    ensures SecondRecord(w, f, a, b) ==
              if w.session.ackedSeq == Issued(w.session)
              then Changed(b, a, w.catalog.width, w.catalog.height, w.catalog.width, w.catalog.height)
              else Primitive(0, 0, w.catalog.width, w.catalog.height, b)
  {
  }

  ghost predicate AlwaysCoherent(w: World, f: U32, g: U32)
    requires Sized(w)
  {
    forall a, b | FrameShape(w.catalog.width, w.catalog.height, a)
      && FrameShape(w.catalog.width, w.catalog.height, b) ::
      && Possible(w, LoseOne(w.device, f, a, g, b))
      && var w' := Run(w, LoseOne(w.device, f, a, g, b)); Coherent(w'.catalog, w'.tablet)
  }

  // ---------------------------------------------------------------------------------------------
  // A status that gets there
  // ---------------------------------------------------------------------------------------------

  ghost const FRESH: World := World(
    "d", Catalog(4, 1, map[], {0}), map[], 1,
    false, SessionState(true, 0, 1, 0, 0, 0, 0, 0, 0, [], 0, 0), NoJob, [], [], Tablet([0, 0, 0, 0], 0), map[], map[])

  /** Queue frame 1, connect, send it: the record is in flight. */
  lemma FirstSent(first: Bytes) returns (steps: seq<Step>, w: World)
    requires |first| == 2
    ensures steps == [Queue("d", 1, Some(first)), Connect(0, true)] + SENDING && Possible(FRESH, steps)
            && w == Run(FRESH, steps)
    ensures w.tablet == FRESH.tablet && w.attemptsHere == map[1 := 1]
    ensures Sized(w) && w.device == "d" && w.connected && !w.session.closed && w.job == NoJob && w.toServer == []
            && w.nextId == 2
    ensures w.catalog == Catalog(4, 1, map[1 := Frame(1, Some(first))], {0, 1})
    ensures w.table == map[1 := Row("d", 1, State.Sent, Some(1), false, 1, Some(first))]
    ensures w.toTablet == [ImageRecord(1, 1, Primitive(0, 0, 4, 1, first), None)]
    ensures w.session == SessionState(false, 0, 2, 0, 1, 1, 1, 1, 0, first, 4, 1)
  {
    hide Next, Enabled, Changed, Newest;
    var w2 := FirstQueued(first);
    NewestOnly(w2.table, "d", 1);
    SendingRun(w2, 1, first);
    RunConcat(FRESH, [Queue("d", 1, Some(first)), Connect(0, true)], SENDING);
    steps, w := [Queue("d", 1, Some(first)), Connect(0, true)] + SENDING, AfterSending(w2, 1, first);
    assert w.table == map[1 := Row("d", 1, State.Sent, Some(1), false, 1, Some(first))];
    assert NewRecord(w2, 1, 1, first, None).primitive == Primitive(0, 0, 4, 1, first) by {
      FullWithoutBase(w2, first);
    }
  }

  lemma FullWithoutBase(w: World, pixels: Bytes)
    requires |pixels| == 2 && w.catalog.width == 4 && w.catalog.height == 1
    ensures NewRecord(w, 1, 1, pixels, None).primitive == Primitive(0, 0, 4, 1, pixels)
  {
  }

  /** Queue frame 1 and connect. */
  lemma FirstQueued(first: Bytes) returns (w: World)
    requires |first| == 2
    ensures Possible(FRESH, [Queue("d", 1, Some(first)), Connect(0, true)])
            && w == Run(FRESH, [Queue("d", 1, Some(first)), Connect(0, true)])
    ensures w.tablet == FRESH.tablet && w.attemptsHere == map[]
    ensures Sized(w) && w.device == "d" && w.connected && w.job == NoJob && w.toServer == [] && w.toTablet == []
            && w.nextId == 2
    ensures w.catalog == Catalog(4, 1, map[1 := Frame(1, Some(first))], {0, 1})
    ensures w.table == map[1 := Row("d", 1, Queued, None, false, 0, Some(first))]
    ensures w.session == SessionState(false, 0, 1, 0, 0, 0, 0, 0, 0, [], 0, 0)
  {
    var w1 := Next(FRESH, Queue("d", 1, Some(first)));
    RunTwo(FRESH, Queue("d", 1, Some(first)), Connect(0, true));
    w := Next(w1, Connect(0, true));
    assert IdsOf(w1.table, "d") == {1};
    assert w.table == w1.table;
  }

  /** Rows of the first frame and of a later one, sent or delivered. */
  function RowOf(frameID: U32, state: State, sequence: U32, acknowledged: bool, pixels: Bytes): Row {
    Row("d", frameID, state, Some(sequence), acknowledged, 1, Some(pixels))
  }

  /** The tablet applies and acknowledges frame 1, then reports status kind 0xFFFFFFFF: the next number is 1 again. */
  lemma FirstAcknowledgedAndWrapped(first: Bytes, w: World) returns (steps: seq<Step>, w': World)
    requires |first| == 2
    requires Sized(w) && w.device == "d" && w.connected && !w.session.closed && w.job == NoJob && w.toServer == []
    requires w.catalog == Catalog(4, 1, map[1 := Frame(1, Some(first))], {0, 1})
    requires w.table == map[1 := RowOf(1, State.Sent, 1, false, first)]
    requires w.toTablet == [ImageRecord(1, 1, Primitive(0, 0, 4, 1, first), None)]
    requires w.session == SessionState(false, 0, 2, 0, 1, 1, 1, 1, 0, first, 4, 1)
    ensures Possible(w, steps) && w' == Run(w, steps)
    ensures w' == w.(table := map[1 := RowOf(1, Delivered, 1, true, first)], toTablet := [],
                     tablet := Tablet(Unpack(first), 1),
                     session := SessionState(false, 1, 1, 1, 1, 1, 1, 1, 0, first, 4, 1))
  {
    hide Next, Enabled, Coherent;
    var w1 := FirstApplied(first, w);
    var w2 := FirstAcknowledged(first, w1);
    var w3 := StatusReported(w2);
    w' := Wrapped(first, w3);
    steps := [TabletApplies(true), Receive(true), TabletReports(0xFFFF_FFFF), Receive(true)];
    RunFour(w, TabletApplies(true), Receive(true), TabletReports(0xFFFF_FFFF), Receive(true));
  }

  lemma FirstApplied(first: Bytes, w: World) returns (w': World)
    requires |first| == 2 && Sized(w) && w.toServer == []
             && w.catalog == Catalog(4, 1, map[1 := Frame(1, Some(first))], {0, 1})
    requires w.toTablet == [ImageRecord(1, 1, Primitive(0, 0, 4, 1, first), None)]
    ensures Enabled(w, TabletApplies(true)) && w' == Next(w, TabletApplies(true))
    ensures w' == w.(toTablet := [], tablet := Tablet(Unpack(first), 1), toServer := [Ack(1)])
  {
    PaintFull(first, 4, 1, w.tablet.framebuffer);
    w' := Next(w, TabletApplies(true));
  }

  lemma FirstAcknowledged(first: Bytes, w: World) returns (w': World)
    requires Sized(w) && w.device == "d" && w.connected && w.toServer == [Ack(1)]
             && w.table == map[1 := RowOf(1, State.Sent, 1, false, first)]
    ensures Enabled(w, Receive(true)) && w' == Next(w, Receive(true))
    ensures w' == w.(toServer := [], table := map[1 := RowOf(1, State.Sent, 1, true, first)],
                     session := w.session.(ackedSeq := 1))
  {
    w' := Next(w, Receive(true));
    assert AwaitingAck(w.table, "d", 1) == {1};
    assert w'.table == map[1 := RowOf(1, State.Sent, 1, true, first)];
  }

  lemma StatusReported(w: World) returns (w': World)
    requires Sized(w) && w.connected && w.toServer == []
    ensures Enabled(w, TabletReports(0xFFFF_FFFF)) && w' == Next(w, TabletReports(0xFFFF_FFFF))
    ensures w' == w.(toServer := [Status(0xFFFF_FFFF, w.tablet.display)])
  {
    w' := Next(w, TabletReports(0xFFFF_FFFF));
  }

  lemma Wrapped(first: Bytes, w: World) returns (w': World)
    requires Sized(w) && w.device == "d" && w.connected && w.toServer == [Status(0xFFFF_FFFF, 1)]
    requires w.table == map[1 := RowOf(1, State.Sent, 1, true, first)]
    requires w.session == SessionState(false, 0, 2, 1, 1, 1, 1, 1, 0, first, 4, 1)
    ensures Enabled(w, Receive(true)) && w' == Next(w, Receive(true))
    ensures w' == w.(toServer := [], table := map[1 := RowOf(1, Delivered, 1, true, first)],
                     session := SessionState(false, 1, 1, 1, 1, 1, 1, 1, 0, first, 4, 1))
  {
    w' := Next(w, Receive(true));
    assert UndeliveredWithFrame(w.table, "d", 1) == {1};
    assert w'.table == map[1 := RowOf(1, Delivered, 1, true, first)];
  }

  /**
   A run from a fresh server that ends with the framebuffer wrong: frame 1 is acknowledged, a status of kind 0xFFFFFFFF
   restarts the counter at 1, frame 2 gets number 1 and is lost, and frame 3 goes out as a difference to frame 2.
   */
  lemma WrapBreaksCoherence(first: Bytes) returns (steps: seq<Step>)
    requires |first| == 2
    ensures C.Init(FRESH) && Sized(FRESH) && Possible(FRESH, steps)
    ensures var w := Run(FRESH, steps); !Coherent(w.catalog, w.tablet)
  {
    hide Next, Enabled, Run, Possible, Coherent, Paint, Changed, LoseOne, SecondRecord;
    var sent, w1 := FirstSent(first);
    var acked, w2 := FirstAcknowledgedAndWrapped(first, w1);
    RunConcat(FRESH, sent, acked);
    var a, b := BreakingFrames(w2.tablet.framebuffer, 4, 1);
    var w3 := LoseOneRun(w2, 2, a, 3, b);
    SecondIs(w2, 2, a, b);
    RunConcat(FRESH, sent + acked, LoseOne(w2.device, 2, a, 3, b));
    steps := sent + acked + LoseOne(w2.device, 2, a, 3, b);
  }
}
