/** Why a partial update always meets the frame it was computed from, over every run of the delivery protocol. */
module Coherence {
  import opened Common
  import opened Pixels
  import opened Delta
  import opened Assignments
  import opened Session
  import opened Attempt
  import opened Delivery

  // ---------------------------------------------------------------------------------------------
  // The invariant, one predicate per part of the state
  // ---------------------------------------------------------------------------------------------

  /** Frames are ordered by their assignment; ids that are not ours rank lowest. */
  ghost function Rank(c: Catalog, frameID: U32): nat {
    if frameID in c.frames then c.frames[frameID].rank else 0
  }

  ghost predicate Known(c: Catalog, f: U32, pixels: Bytes) {
    f in c.frames && c.frames[f].rendered == Some(pixels)
  }

  ghost predicate CatalogInv(c: Catalog) {
    && 0 < c.width && 0 < c.height && 0 !in c.frames
    && (forall f | f in c.frames :: f in c.used && 0 < c.frames[f].rank)
    && (forall f | f in c.frames && c.frames[f].rendered.Some? ::
        FrameShape(c.width, c.height, c.frames[f].rendered.value))
    && (forall f, g | f in c.frames && g in c.frames && c.frames[f].rank == c.frames[g].rank :: f == g)
  }

  /** Every row of the device is in the catalog, and no frame is newer than the newest row. */
  ghost predicate TableInv(c: Catalog, device: string, t: Table, nextId: nat) {
    && 0 < nextId
    && (forall id | id in t :: 0 < id < nextId)
    && (forall id | id in t && t[id].device == device ::
        t[id].frameID in c.frames && c.frames[t[id].frameID] == Frame(id, t[id].rendered))
    && (forall f | f in c.frames :: c.frames[f].rank <= Newest(t, device) && c.frames[f].rank < nextId)
  }

  /** The record carries the whole frame, or exactly its difference to the base frame. */
  ghost predicate RecordInv(c: Catalog, r: ImageRecord) {
    && r.frameID in c.frames && c.frames[r.frameID].rendered.Some?
    && var pixels := c.frames[r.frameID].rendered.value;
       match r.base
       case None => r.primitive == Primitive(0, 0, c.width, c.height, pixels)
       case Some(b) => && b in c.frames && c.frames[b].rendered.Some?
                       && r.primitive == Changed(pixels, c.frames[b].rendered.value, c.width, c.height, c.width,
                                                 c.height)
  }

  /** The tablet shows `b`, and so it will after any subset of the first `i` records in flight. */
  ghost predicate Meets(shown: U32, q: seq<ImageRecord>, i: nat, b: U32)
    requires i <= |q|
  {
    shown == b && forall j | 0 <= j < i :: q[j].frameID == b
  }

  ghost predicate QueueInv(c: Catalog, shown: U32, q: seq<ImageRecord>) {
    && (forall i | 0 <= i < |q| :: RecordInv(c, q[i]))
    && (forall i | 0 <= i < |q| :: Rank(c, shown) <= Rank(c, q[i].frameID))
    && (forall i, j | 0 <= i < j < |q| :: Rank(c, q[i].frameID) <= Rank(c, q[j].frameID))
    && (forall i | 0 <= i < |q| :: q[i].base.Some? ==> Meets(shown, q, i, q[i].base.value))
  }

  /** The last record written on the connection, whether or not the session has noted it yet. */
  ghost function LastFrame(s: SessionState, job: Job): U32 {
    if job.Written? then job.record.frameID else s.lastFrameID
  }

  ghost function LastSequence(s: SessionState, job: Job): U32 {
    if job.Written? then job.record.sequence else s.lastSentSeq
  }

  ghost predicate BaseInv(c: Catalog, s: SessionState) {
    s.lastFrameID != 0 ==>
      Known(c, s.lastFrameID, s.lastFrame) && s.frameWidth == c.width && s.frameHeight == c.height
  }

  ghost predicate LastInv(c: Catalog, shown: U32, q: seq<ImageRecord>, last: U32, lastSequence: U32) {
    && (last != 0 ==> last in c.frames && Rank(c, shown) <= Rank(c, last))
    && (last == 0 <==> lastSequence == 0)
    && (forall i | 0 <= i < |q| :: Rank(c, q[i].frameID) <= Rank(c, last))
  }

  /** A display state the server has seen or will see next is never ahead of the tablet. */
  ghost predicate Stale(c: Catalog, shown: U32, display: U32) {
    display in c.used && Rank(c, display) <= Rank(c, shown)
  }

  ghost predicate ReportInv(c: Catalog, shown: U32, toServer: seq<Reply>) {
    forall i | 0 <= i < |toServer| && toServer[i].Status? :: Stale(c, shown, toServer[i].display)
  }

  /** An acknowledgement of the last record means the tablet has reached its frame. */
  ghost predicate AckInv(c: Catalog, shown: U32, last: U32, lastSequence: U32, sequence: U32) {
    sequence == lastSequence && sequence != 0 ==> Rank(c, last) <= Rank(c, shown)
  }

  ghost predicate AcksInv(c: Catalog, shown: U32, last: U32, lastSequence: U32, toServer: seq<Reply>) {
    forall i | 0 <= i < |toServer| && toServer[i].Ack? :: AckInv(c, shown, last, lastSequence, toServer[i].sequence)
  }

  ghost predicate FlightInv(last: U32, lastSequence: U32, q: seq<ImageRecord>) {
    forall i | 0 <= i < |q| :: 0 < q[i].sequence && (q[i].sequence == lastSequence ==> q[i].frameID == last)
  }

  /** No record with this number is in flight, and no acknowledgement of it is noted or under way. */
  ghost predicate Unused(q: seq<ImageRecord>, toServer: seq<Reply>, acked: U32, sequence: U32) {
    && acked != sequence
    && (forall i | 0 <= i < |toServer| && toServer[i].Ack? :: toServer[i].sequence != sequence)
    && (forall i | 0 <= i < |q| :: q[i].sequence != sequence)
  }

  /**
   The frame an attempt is about to write: nothing sent or shown is newer, and its patch meets what the tablet will
   show.
   */
  ghost predicate RecordAhead(c: Catalog, shown: U32, q: seq<ImageRecord>, last: U32, id: nat, record: ImageRecord,
                              pixels: Bytes) {
    && RecordInv(c, record) && Known(c, record.frameID, pixels) && Rank(c, record.frameID) == id
    && Rank(c, shown) <= id && Rank(c, last) <= id
    && (record.base.Some? ==> Meets(shown, q, |q|, record.base.value))
  }

  ghost predicate RowAhead(c: Catalog, shown: U32, last: U32, id: nat, row: Row, display: U32) {
    && row.frameID in c.frames && c.frames[row.frameID] == Frame(id, row.rendered)
    && Rank(c, shown) <= id && Rank(c, last) <= id
    && Stale(c, shown, display)
  }

  ghost predicate JobInv(c: Catalog, shown: U32, q: seq<ImageRecord>, s: SessionState, job: Job) {
    match job
    case NoJob => true
    case Begun(display) => Stale(c, shown, display)
    case Loaded(id, row, display) => RowAhead(c, shown, s.lastFrameID, id, row, display)
    case Checked(id, row, display) => RowAhead(c, shown, s.lastFrameID, id, row, display)
    case Based(id, record, pixels) => RecordAhead(c, shown, q, s.lastFrameID, id, record, pixels)
    case Numbered(id, record, pixels) =>
      RecordAhead(c, shown, q, s.lastFrameID, id, record, pixels) && 0 < record.sequence
    case Prepared(id, record, pixels) =>
      RecordAhead(c, shown, q, s.lastFrameID, id, record, pixels) && 0 < record.sequence
    case Written(id, record, pixels, _) =>
      RecordInv(c, record) && Known(c, record.frameID, pixels) && Rank(c, record.frameID) == id && 0 < record.sequence
    case Failing(_, _) => true
  }

  ghost predicate LiveInv(c: Catalog, shown: U32, q: seq<ImageRecord>, toServer: seq<Reply>, s: SessionState,
                          job: Job) {
    var last, lastSequence := LastFrame(s, job), LastSequence(s, job);
    && BaseInv(c, s)
    && LastInv(c, shown, q, last, lastSequence)
    && Stale(c, shown, s.display)
    && ReportInv(c, shown, toServer)
    && AckInv(c, shown, last, lastSequence, s.ackedSeq)
    && AcksInv(c, shown, last, lastSequence, toServer)
    && FlightInv(last, lastSequence, q)
    && JobInv(c, shown, q, s, job)
    && (job.Prepared? ==> Unused(q, toServer, s.ackedSeq, job.record.sequence))
  }

  ghost predicate Live(w: World) {
    w.connected && !w.session.closed
  }

  ghost predicate Inv(w: World) {
    && CatalogInv(w.catalog)
    && TableInv(w.catalog, w.device, w.table, w.nextId)
    && Coherent(w.catalog, w.tablet) && w.tablet.display in w.catalog.used
    && QueueInv(w.catalog, w.tablet.display, w.toTablet)
    && (Live(w) ==> LiveInv(w.catalog, w.tablet.display, w.toTablet, w.toServer, w.session, w.job))
    && (!w.job.NoJob? ==> Live(w))
  }

  /** A server that has never seen the tablet, and a tablet showing anything. */
  ghost predicate Init(w: World) {
    && 0 < w.catalog.width && 0 < w.catalog.height && w.catalog.frames == map[] && w.catalog.used == {w.tablet.display}
    && w.table == map[] && w.nextId == 1
    && !w.connected && w.session.closed && w.job.NoJob? && w.toTablet == [] && w.toServer == []
    && |w.tablet.framebuffer| == w.catalog.width * w.catalog.height
    && w.attempts == map[] && w.attemptsHere == map[]
  }

  /** A record about to be written has a number that nothing in flight, acknowledged or noted still carries. */
  ghost predicate NoReuse(w: World, step: Step) {
    step.Prepare? && step.outcome == Ready && w.job.Numbered? ==>
      Unused(w.toTablet, w.toServer, w.session.ackedSeq, w.job.record.sequence)
  }

  lemma InitInv(w: World)
    requires Init(w)
    ensures Inv(w)
  {
  }

  // ---------------------------------------------------------------------------------------------
  // The table
  // ---------------------------------------------------------------------------------------------

  /** No statement after insertion disturbs the catalog's view of the table. */
  lemma TableCarries(c: Catalog, device: string, t: Table, nextId: nat, t': Table)
    requires TableInv(c, device, t, nextId) && SameIdentity(t, t')
    ensures TableInv(c, device, t', nextId)
  {
    NewestSame(t, t', device);
  }

  lemma PruneTable(c: Catalog, device: string, t: Table, nextId: nat, ids: set<nat>)
    requires TableInv(c, device, t, nextId) && Newest(t, device) !in ids && CatalogInv(c)
    ensures TableInv(c, device, t - ids, nextId)
  {
    assert IdsOf(t - ids, device) <= IdsOf(t, device);
    if IdsOf(t, device) != {} {
      assert Newest(t, device) in IdsOf(t - ids, device);
    }
  }

  lemma QueueTable(w: World, device: string, frameID: U32, rendered: Option<Bytes>)
    requires TableInv(w.catalog, w.device, w.table, w.nextId) && CatalogInv(w.catalog)
    requires frameID !in w.catalog.used
    ensures var w' := AfterQueue(w, device, frameID, rendered);
            TableInv(w'.catalog, w'.device, w'.table, w'.nextId)
  {
    var w' := AfterQueue(w, device, frameID, rendered);
    assert IdsOf(w.table, w.device) <= IdsOf(w'.table, w.device);
    if device == w.device {
      assert w.nextId in IdsOf(w'.table, w.device);
    } else {
      assert IdsOf(w.table, w.device) == IdsOf(w'.table, w.device);
    }
  }

  /** The catalog after a frame id never used before was added, or given to another device. */
  ghost predicate Grown(c: Catalog, c': Catalog, frameID: U32) {
    && frameID != 0 && frameID !in c.used
    && c'.width == c.width && c'.height == c.height && c'.used == c.used + {frameID}
    && (c'.frames == c.frames || (frameID in c'.frames && c'.frames == c.frames[frameID := c'.frames[frameID]]))
  }

  /** A new frame leaves every id seen so far, and so every record and report, alone. */
  lemma GrownKeepsRecords(c: Catalog, c': Catalog, frameID: U32, shown: U32, q: seq<ImageRecord>)
    requires CatalogInv(c) && Grown(c, c', frameID) && QueueInv(c, shown, q) && shown in c.used
    ensures forall f | f in c.used :: Rank(c', f) == Rank(c, f) && (f in c'.frames <==> f in c.frames)
    ensures forall f | f in c.frames :: c'.frames[f] == c.frames[f]
    ensures QueueInv(c', shown, q)
  {
    forall i | 0 <= i < |q|
      ensures RecordInv(c', q[i]) && q[i].frameID in c.used
    {
      assert RecordInv(c, q[i]);
    }
  }

  lemma GrownKeepsLive(c: Catalog, c': Catalog, frameID: U32, shown: U32, q: seq<ImageRecord>, toServer: seq<Reply>,
                       s: SessionState, job: Job)
    requires CatalogInv(c) && Grown(c, c', frameID) && QueueInv(c, shown, q) && shown in c.used
    requires LiveInv(c, shown, q, toServer, s, job)
    ensures LiveInv(c', shown, q, toServer, s, job)
  {
    GrownKeepsRecords(c, c', frameID, shown, q);
    var last := LastFrame(s, job);
    assert last == 0 || last in c.used;
    assert Rank(c, last) <= Rank(c', last);
    assert ReportInv(c', shown, toServer);
    assert AcksInv(c', shown, last, LastSequence(s, job), toServer);
    assert forall i | 0 <= i < |q| :: RecordInv(c, q[i]);
    assert JobInv(c', shown, q, s, job);
  }

  lemma QueueKeeps(w: World, step: Step)
    requires Inv(w) && step.Queue? && Enabled(w, step)
    ensures Inv(Next(w, step))
  {
    hide Changed, Paint, Placed, Newest, QueueInv, JobInv, LastInv, AcksInv, ReportInv, FlightInv;
    var w' := Next(w, step);
    QueueTable(w, step.device, step.frameID, step.rendered);
    assert Grown(w.catalog, w'.catalog, step.frameID);
    GrownKeepsRecords(w.catalog, w'.catalog, step.frameID, w.tablet.display, w.toTablet);
    if Live(w) {
      GrownKeepsLive(w.catalog, w'.catalog, step.frameID, w.tablet.display, w.toTablet, w.toServer, w.session, w.job);
    }
  }

  lemma ElsewhereKeeps(w: World, step: Step)
    requires Inv(w) && step.Elsewhere? && Enabled(w, step)
    ensures Inv(Next(w, step))
  {
    ExecuteKeepsIdentity(w.table, w.device, step.op);
    TableCarries(w.catalog, w.device, w.table, w.nextId, Next(w, step).table);
  }

  lemma ConnectTable(w: World, step: Step)
    requires Inv(w) && step.Connect?
    ensures TableInv(w.catalog, w.device, Next(w, step).table, w.nextId)
  {
    hide MarkDelivered, Reconcile;
    ConnectKeepsIdentity(w.table, w.device, w.tablet.display, step.stored);
    TableCarries(w.catalog, w.device, w.table, w.nextId, Next(w, step).table);
  }

  lemma ConnectKeeps(w: World, step: Step)
    requires Inv(w) && step.Connect? && Enabled(w, step)
    ensures Inv(Next(w, step))
  {
    ConnectTable(w, step);
    NewSessionLive(w.catalog, w.tablet.display, step.kind);
  }

  lemma NewSessionLive(c: Catalog, shown: U32, kind: U32)
    requires CatalogInv(c) && shown in c.used
    ensures LiveInv(c, shown, [], [], NewSession(kind, shown), NoJob)
    ensures !NewSession(kind, shown).closed
  {
  }

  lemma PruneKeeps(w: World, step: Step)
    requires Inv(w) && step.Prune? && Enabled(w, step)
    ensures Inv(Next(w, step))
  {
    PruneTable(w.catalog, w.device, w.table, w.nextId, step.ids);
  }

  // ---------------------------------------------------------------------------------------------
  // The tablet
  // ---------------------------------------------------------------------------------------------

  /** The record at the head of the queue turns the framebuffer into its own frame. */
  lemma HeadRestores(w: World)
    requires Inv(w) && w.toTablet != []
    ensures var r, c := w.toTablet[0], w.catalog;
            && Placed(r.primitive, c.width, c.height)
            && r.frameID in c.frames && c.frames[r.frameID].rendered.Some?
            && Paint(w.tablet.framebuffer, c.width, c.height, r.primitive) == Unpack(c.frames[r.frameID].rendered.value)
  {
    var r, c := w.toTablet[0], w.catalog;
    assert RecordInv(c, r);
    var pixels := c.frames[r.frameID].rendered.value;
    match r.base
    case None =>
      PaintFull(pixels, c.width, c.height, w.tablet.framebuffer);
    case Some(b) =>
      assert Meets(w.tablet.display, w.toTablet, 0, b);
      PatchRestores(pixels, c.frames[b].rendered.value, c.width, c.height);
  }

  /** Taking the head record off the queue, applied or not. */
  lemma PopKeepsQueue(c: Catalog, shown: U32, q: seq<ImageRecord>, shown': U32)
    requires QueueInv(c, shown, q) && q != [] && (shown' == shown || shown' == q[0].frameID)
    ensures QueueInv(c, shown', q[1..])
  {
    var rest := q[1..];
    forall i | 0 <= i < |rest| && rest[i].base.Some?
      ensures Meets(shown', rest, i, rest[i].base.value)
    {
      assert Meets(shown, q, i + 1, q[i + 1].base.value);
    }
  }

  lemma PopKeepsJob(c: Catalog, shown: U32, q: seq<ImageRecord>, s: SessionState, job: Job, shown': U32)
    requires QueueInv(c, shown, q) && q != [] && (shown' == shown || shown' == q[0].frameID)
    requires JobInv(c, shown, q, s, job) && LastInv(c, shown, q, LastFrame(s, job), LastSequence(s, job))
    ensures JobInv(c, shown', q[1..], s, job)
  {
    assert RecordInv(c, q[0]);
  }

  lemma PopKeepsLive(c: Catalog, shown: U32, q: seq<ImageRecord>, toServer: seq<Reply>, s: SessionState, job: Job,
                     shown': U32, toServer': seq<Reply>)
    requires QueueInv(c, shown, q) && q != [] && LiveInv(c, shown, q, toServer, s, job)
    requires shown' == shown || shown' == q[0].frameID
    requires toServer' == toServer || (shown' == q[0].frameID && toServer' == toServer + [Ack(q[0].sequence)])
    ensures LiveInv(c, shown', q[1..], toServer', s, job)
  {
    assert RecordInv(c, q[0]);
    assert Rank(c, shown) <= Rank(c, shown');
    PopKeepsJob(c, shown, q, s, job, shown');
    assert AcksInv(c, shown', LastFrame(s, job), LastSequence(s, job), toServer');
  }

  lemma ApplyKeeps(w: World, step: Step)
    requires Inv(w) && step.TabletApplies? && Enabled(w, step)
    ensures Inv(Next(w, step))
  {
    HeadRestores(w);
    var w' := Next(w, step);
    PopKeepsQueue(w.catalog, w.tablet.display, w.toTablet, w'.tablet.display);
    if Live(w) {
      PopKeepsLive(w.catalog, w.tablet.display, w.toTablet, w.toServer, w.session, w.job, w'.tablet.display,
                   w'.toServer);
    }
  }

  lemma DropKeeps(w: World, step: Step)
    requires Inv(w) && step.TabletDrops? && Enabled(w, step)
    ensures Inv(Next(w, step))
  {
    PopKeepsQueue(w.catalog, w.tablet.display, w.toTablet, w.tablet.display);
    if Live(w) {
      PopKeepsLive(w.catalog, w.tablet.display, w.toTablet, w.toServer, w.session, w.job, w.tablet.display, w.toServer);
    }
  }

  lemma RebootKeeps(w: World, step: Step)
    requires Inv(w) && step.Reboot? && Enabled(w, step)
    ensures Inv(Next(w, step))
  {
  }

  lemma DisconnectKeeps(w: World, step: Step)
    requires Inv(w) && step.Disconnect? && Enabled(w, step)
    ensures Inv(Next(w, step))
  {
  }

  lemma ReportKeeps(w: World, step: Step)
    requires Inv(w) && step.TabletReports? && Enabled(w, step)
    ensures Inv(Next(w, step))
  {
  }

  // ---------------------------------------------------------------------------------------------
  // Receiving acknowledgements and statuses
  // ---------------------------------------------------------------------------------------------

  lemma AckKeepsLive(c: Catalog, shown: U32, q: seq<ImageRecord>, toServer: seq<Reply>, s: SessionState, job: Job)
    requires LiveInv(c, shown, q, toServer, s, job) && toServer != []
    ensures LiveInv(c, shown, q, toServer[1..], s, job)
    ensures toServer[0].Ack? ==> LiveInv(c, shown, q, toServer[1..], s.(ackedSeq := toServer[0].sequence), job)
  {
  }

  lemma StatusKeepsLive(c: Catalog, shown: U32, q: seq<ImageRecord>, toServer: seq<Reply>, s: SessionState, job: Job)
    requires LiveInv(c, shown, q, toServer, s, job) && toServer != [] && toServer[0].Status?
    ensures LiveInv(c, shown, q, toServer[1..], Observe(s.(display := toServer[0].display), toServer[0].kind), job)
  {
  }

  lemma ReceiveKeeps(w: World, step: Step)
    requires Inv(w) && step.Receive? && Enabled(w, step)
    ensures Inv(Next(w, step))
  {
    var reply := w.toServer[0];
    if reply.Ack? {
      ReceiveAckKeeps(w, step);
    } else {
      ReceiveStatusKeeps(w, step);
    }
  }

  lemma AcknowledgeTable(w: World, sequence: U32)
    requires Inv(w)
    ensures TableInv(w.catalog, w.device, MarkAcknowledged(w.table, w.device, sequence), w.nextId)
  {
    ExecuteKeepsIdentity(w.table, w.device, OpMarkAcknowledged(sequence));
    TableCarries(w.catalog, w.device, w.table, w.nextId, MarkAcknowledged(w.table, w.device, sequence));
  }

  lemma ReceiveAckKeeps(w: World, step: Step)
    requires Inv(w) && step.Receive? && Enabled(w, step) && w.toServer[0].Ack?
    ensures Inv(Next(w, step))
  {
    AcknowledgeTable(w, w.toServer[0].sequence);
    if Live(w) {
      AckKeepsLive(w.catalog, w.tablet.display, w.toTablet, w.toServer, w.session, w.job);
    }
  }

  lemma ReceiveStatusKeeps(w: World, step: Step)
    requires Inv(w) && step.Receive? && Enabled(w, step) && w.toServer[0].Status?
    ensures Inv(Next(w, step))
  {
    hide Changed, Paint, Placed, MarkDelivered, QueueInv;
    ExecuteKeepsIdentity(w.table, w.device, OpMarkDelivered(w.toServer[0].display));
    TableCarries(w.catalog, w.device, w.table, w.nextId, Next(w, step).table);
    if Live(w) {
      StatusKeepsLive(w.catalog, w.tablet.display, w.toTablet, w.toServer, w.session, w.job);
    }
  }

  // ---------------------------------------------------------------------------------------------
  // Sending
  // ---------------------------------------------------------------------------------------------

  /** A confirmed base is what the tablet shows, and what every record still in flight will make it show. */
  lemma BaseIsShown(w: World)
    requires Inv(w) && w.job.Checked? && ConfirmedBase(w.session, w.job.display).Some?
    ensures Meets(w.tablet.display, w.toTablet, |w.toTablet|, w.session.lastFrameID)
    ensures Known(w.catalog, w.session.lastFrameID, w.session.lastFrame)
  {
    var c, f := w.catalog, w.session.lastFrameID;
    assert f in c.frames && Rank(c, f) <= Rank(c, w.tablet.display);
    assert w.tablet.display == f;
    forall j | 0 <= j < |w.toTablet|
      ensures w.toTablet[j].frameID == f
    {
      assert RecordInv(c, w.toTablet[j]);
      assert Rank(c, w.tablet.display) <= Rank(c, w.toTablet[j].frameID) <= Rank(c, f);
    }
  }

  lemma BeginKeeps(w: World, step: Step)
    requires Inv(w) && step.Begin? && Enabled(w, step)
    ensures Inv(Next(w, step))
  {
  }

  /** The pending row is the newest one, so its frame is no older than anything sent or shown. */
  lemma LoadKeeps(w: World, step: Step)
    requires Inv(w) && step.Load? && Enabled(w, step)
    ensures Inv(Next(w, step))
  {
  }

  /** The attempt in progress and the attempt counters are all that changes. */
  ghost predicate SameLast(s: SessionState, s': SessionState) {
    s == s'.(attemptID := s.attemptID, attempts := s.attempts, renderFailedID := s.renderFailedID, nextSeq := s.nextSeq)
  }

  lemma JobKeepsLive(w: World, s: SessionState, job: Job)
    requires Inv(w) && Live(w) && SameLast(w.session, s) && !w.job.Written? && !job.Written? && !job.Prepared?
    requires JobInv(w.catalog, w.tablet.display, w.toTablet, w.session, job)
    ensures LiveInv(w.catalog, w.tablet.display, w.toTablet, w.toServer, s, job)
  {
  }

  lemma CheckKeeps(w: World, step: Step)
    requires Inv(w) && step.Check? && Enabled(w, step)
    ensures Inv(Next(w, step))
  {
    hide Decide;
    var w' := Next(w, step);
    JobKeepsLive(w, w'.session, w'.job);
  }

  /** The patch computed at the second look is right for whatever the tablet shows when it arrives. */
  lemma RenderedAhead(w: World)
    requires Inv(w) && w.job.Checked? && w.job.row.rendered.Some?
    ensures var job := AfterRender(w.session, w.job, w.catalog.width, w.catalog.height).1;
            RecordAhead(w.catalog, w.tablet.display, w.toTablet, w.session.lastFrameID, job.id, job.record, job.pixels)
  {
    var c, pixels := w.catalog, w.job.row.rendered.value;
    assert FrameShape(c.width, c.height, pixels);
    if ConfirmedBase(w.session, w.job.display).Some? {
      BaseIsShown(w);
    } else {
      FrameRows(c.width, c.height, pixels);
    }
  }

  lemma RenderKeeps(w: World, step: Step)
    requires Inv(w) && step.Render? && Enabled(w, step)
    ensures Inv(Next(w, step))
  {
    hide Changed, RecordAhead, RowAhead, QueueInv, TableInv, ConfirmedBase;
    var w' := Next(w, step);
    if w.job.row.rendered.Some? {
      RenderedAhead(w);
    }
    JobKeepsLive(w, w'.session, w'.job);
  }

  lemma NumberKeeps(w: World, step: Step)
    requires Inv(w) && step.Number? && Enabled(w, step)
    ensures Inv(Next(w, step))
  {
    var w' := Next(w, step);
    JobKeepsLive(w, w'.session, w'.job);
  }

  lemma PrepareKeeps(w: World, step: Step)
    requires Inv(w) && step.Prepare? && Enabled(w, step) && NoReuse(w, step)
    ensures Inv(Next(w, step))
  {
    hide Changed, Paint, Placed, Newest, RecordInv, QueueInv;
    TableCarries(w.catalog, w.device, w.table, w.nextId, Next(w, step).table);
  }

  lemma AppendKeepsQueue(w: World, q': seq<ImageRecord>)
    requires Inv(w) && w.job.Prepared?
    requires q' == w.toTablet || q' == w.toTablet + [w.job.record]
    ensures QueueInv(w.catalog, w.tablet.display, q')
  {
    var c, q, r := w.catalog, w.toTablet, w.job.record;
    forall i | 0 <= i < |q'|
      ensures RecordInv(c, q'[i]) && Rank(c, w.tablet.display) <= Rank(c, q'[i].frameID) <= w.job.id
    {
      if i < |q| {
        assert q'[i] == q[i];
      } else {
        assert q'[i] == r;
      }
    }
    forall i | 0 <= i < |q'| && q'[i].base.Some?
      ensures Meets(w.tablet.display, q', i, q'[i].base.value)
    {
      assert i < |q| ==> q'[i] == q[i] && Meets(w.tablet.display, q, i, q[i].base.value);
    }
  }

  lemma WrittenKeepsLive(w: World, q': seq<ImageRecord>, complete: bool)
    requires Inv(w) && w.job.Prepared?
    requires q' == w.toTablet || q' == w.toTablet + [w.job.record]
    ensures LiveInv(w.catalog, w.tablet.display, q', w.toServer, w.session,
                    Written(w.job.id, w.job.record, w.job.pixels, complete))
  {
  }

  lemma WriteKeeps(w: World, step: Step)
    requires Inv(w) && step.Write? && Enabled(w, step)
    ensures Inv(Next(w, step))
  {
    hide Changed, Paint, Placed, Newest, RecordInv;
    var w' := Next(w, step);
    AppendKeepsQueue(w, w'.toTablet);
    WrittenKeepsLive(w, w'.toTablet, step.complete);
  }

  lemma FinishKeeps(w: World, step: Step)
    requires Inv(w) && step.Finish? && Enabled(w, step)
    ensures Inv(Next(w, step))
  {
    hide Changed, Paint, Placed, Newest, QueueInv, RecordInv, TableInv;
    TableCarries(w.catalog, w.device, w.table, w.nextId, Next(w, step).table);
  }

  lemma StepKeeps(w: World, step: Step)
    requires Inv(w) && Enabled(w, step) && NoReuse(w, step)
    ensures Inv(Next(w, step))
  {
    hide Next, Enabled, NoReuse, LiveInv, QueueInv, TableInv;
    match step
    case Queue(_, _, _) => QueueKeeps(w, step);
    case Connect(_, _) => ConnectKeeps(w, step);
    case Disconnect => DisconnectKeeps(w, step);
    case Reboot(_) => RebootKeeps(w, step);
    case Begin => BeginKeeps(w, step);
    case Load(_) => LoadKeeps(w, step);
    case Check(_) => CheckKeeps(w, step);
    case Render => RenderKeeps(w, step);
    case Number => NumberKeeps(w, step);
    case Prepare(_) => PrepareKeeps(w, step);
    case Write(_, _) => WriteKeeps(w, step);
    case Finish(_) => FinishKeeps(w, step);
    case TabletApplies(_) => ApplyKeeps(w, step);
    case TabletDrops => DropKeeps(w, step);
    case TabletReports(_) => ReportKeeps(w, step);
    case Receive(_) => ReceiveKeeps(w, step);
    case Elsewhere(_) => ElsewhereKeeps(w, step);
    case Prune(_) => PruneKeeps(w, step);
  }

  // ---------------------------------------------------------------------------------------------
  // Runs
  // ---------------------------------------------------------------------------------------------

  lemma {:induction false} RunKeeps(w: World, steps: seq<Step>)
    requires Inv(w) && Possible(w, steps) && Throughout(w, steps, NoReuse)
    ensures Inv(Run(w, steps))
    decreases |steps|
  {
    if steps != [] {
      StepKeeps(w, steps[0]);
      RunKeeps(Next(w, steps[0]), steps[1..]);
    }
  }

  /**
   Over every run from a fresh server - any mix of queued frames, retries, dropped records, acknowledgements,
   statuses, write failures, reconnects, reboots, prunes and stray statements - the tablet's framebuffer is the
   full rendering of the frame id it reports, and a partial update about to be applied meets its own base frame.
   */
  lemma FramebufferCoherence(start: World, steps: seq<Step>)
    requires Init(start) && Possible(start, steps) && Throughout(start, steps, NoReuse)
    ensures var w := Run(start, steps);
            && Coherent(w.catalog, w.tablet)
            && (w.toTablet != [] ==> Placed(w.toTablet[0].primitive, w.catalog.width, w.catalog.height))
            && (w.toTablet != [] && w.toTablet[0].base.Some? ==>
                  var b := w.toTablet[0].base.value;
                  && b in w.catalog.frames && w.catalog.frames[b].rendered.Some? && w.tablet.display == b
                  && w.tablet.framebuffer == Unpack(w.catalog.frames[b].rendered.value))
  {
    RunKeeps(start, steps);
    var w := Run(start, steps);
    if w.toTablet != [] {
      HeadRestores(w);
      assert RecordInv(w.catalog, w.toTablet[0]);
      assert w.toTablet[0].base.Some? ==> Meets(w.tablet.display, w.toTablet, 0, w.toTablet[0].base.value);
    }
  }
}
