/**
 The delivery protocol as a state machine: one tablet, its assignment rows, its current connection and the two
 directions of that connection. A delivery attempt takes one step for each access to what other goroutines share.
 */
module Delivery {
  import opened Common
  import opened Pixels
  import opened Delta
  import opened Assignments
  import opened Session
  import opened Attempt

  datatype Reply = Ack(sequence: U32) | Status(kind: U32, display: U32)

  datatype Tablet = Tablet(framebuffer: seq<Nibble>, display: U32)

  /** A frame id ever queued for this tablet: the assignment it belongs to and its rendering. */
  datatype Frame = Frame(rank: nat, rendered: Option<Bytes>)

  /** The display size, every frame id queued for the tablet so far, and every id ever used or reported. */
  datatype Catalog = Catalog(width: int, height: int, frames: map<U32, Frame>, used: set<U32>)

  datatype World = World(
    device: string, catalog: Catalog,
    table: Table, nextId: nat,
    connected: bool, session: SessionState, job: Job,
    toTablet: seq<ImageRecord>, toServer: seq<Reply>,
    tablet: Tablet,
    attempts: map<nat, nat>, attemptsHere: map<nat, nat>)

  /**
   `stored` tells whether the last statement of a step reached the database; where the code only logs its failure the
   step goes on.
   */
  datatype Step =
    | Queue(device: string, frameID: U32, rendered: Option<Bytes>)
    | Connect(kind: U32, stored: bool)
    | Disconnect
    | Reboot(tablet: Tablet)
    | Begin
    | Load(loads: bool)
    | Check(elapsed: bool)
    | Render
    | Number
    | Prepare(outcome: PrepareOutcome)
    | Write(complete: bool, arrives: bool)
    | Finish(stored: bool)
    | TabletApplies(acknowledges: bool)
    | TabletDrops
    | TabletReports(kind: U32)
    | Receive(stored: bool)
    | Elsewhere(op: StoreOp)
    | Prune(ids: set<nat>)

  function CountOf(m: map<nat, nat>, id: nat): nat {
    if id in m then m[id] else 0
  }

  function Bump(m: map<nat, nat>, id: nat): map<nat, nat> {
    m[id := CountOf(m, id) + 1]
  }

  // ---------------------------------------------------------------------------------------------
  // What the environment may do
  // ---------------------------------------------------------------------------------------------

  /** When a step can happen. A new frame id is random: assumed never used before and never 0. */
  ghost predicate Enabled(w: World, step: Step) {
    match step
    case Queue(device, frameID, rendered) =>
      && frameID != 0 && frameID !in w.catalog.used
      && (device == w.device && rendered.Some? ==> FrameShape(w.catalog.width, w.catalog.height, rendered.value))
    case Connect(_, _) => true
    case Disconnect => w.connected
    case Reboot(tablet) => !w.connected && Coherent(w.catalog, tablet)
    case Begin => w.connected && !w.session.closed && w.job.NoJob?
    case Load(_) => w.connected && w.job.Begun?
    case Check(_) => w.connected && w.job.Loaded?
    case Render => w.connected && w.job.Checked?
    case Number => w.connected && w.job.Based?
    case Prepare(_) => w.connected && w.job.Numbered?
    case Write(complete, arrives) => w.connected && w.job.Prepared? && (complete ==> arrives)
    case Finish(_) => w.connected && (w.job.Written? || w.job.Failing?)
    case TabletApplies(_) => w.toTablet != [] && Placed(w.toTablet[0].primitive, w.catalog.width, w.catalog.height)
    case TabletDrops => w.toTablet != []
    case TabletReports(_) => w.connected
    case Receive(_) => w.connected && w.toServer != []
    case Elsewhere(_) => true
    case Prune(ids) => Newest(w.table, w.device) !in ids
  }

  /** The tablet shows exactly the frame whose id it reports, whenever that id is one of ours. */
  ghost predicate Coherent(c: Catalog, t: Tablet) {
    && |t.framebuffer| == c.width * c.height
    && (t.display in c.frames ==>
      c.frames[t.display].rendered.Some? && t.framebuffer == Unpack(c.frames[t.display].rendered.value))
  }

  // ---------------------------------------------------------------------------------------------
  // What a step does
  // ---------------------------------------------------------------------------------------------

  ghost predicate Sized(w: World) {
    0 < w.catalog.width && 0 < w.catalog.height && |w.tablet.framebuffer| == w.catalog.width * w.catalog.height
  }

  ghost function Next(w: World, step: Step): (w': World)
    requires Sized(w) && Enabled(w, step)
    ensures Sized(w')
  {
    match step
    case Queue(device, frameID, rendered) => AfterQueue(w, device, frameID, rendered)
    case Connect(kind, stored) =>
      var (t, s) := AfterFirstStatus(w.table, w.device, kind, w.tablet.display, stored);
      w.(table := t, connected := true, session := s, job := NoJob,
         toTablet := [], toServer := [], attemptsHere := map[])
    case Disconnect => w.(connected := false, session := w.session.(closed := true), job := NoJob)
    case Reboot(tablet) => w.(tablet := tablet, catalog := w.catalog.(used := w.catalog.used + {tablet.display}),
                              toTablet := [])
    case Begin => w.(job := Begun(w.session.display))
    case Load(loads) => w.(job := AfterLoad(w.table, w.device, w.job, loads))
    case Check(elapsed) =>
      var (s, job) := AfterCheck(w.session, w.job, elapsed);
      w.(session := s, job := job)
    case Render =>
      var (s, job) := AfterRender(w.session, w.job, w.catalog.width, w.catalog.height);
      w.(session := s, job := job)
    case Number =>
      var (s, job) := AfterNumber(w.session, w.job);
      w.(session := s, job := job)
    case Prepare(outcome) =>
      var (t, job) := AfterPrepare(w.table, w.job, outcome);
      w.(table := t, job := job)
    case Write(complete, arrives) => AfterWrite(w, complete, arrives)
    case Finish(stored) =>
      w.(job := NoJob, table := if stored then Verdicted(w.table, w.job) else w.table,
         session := Remembered(w.session, w.job, w.catalog.width, w.catalog.height))
    case TabletApplies(acknowledges) =>
      var r := w.toTablet[0];
      w.(toTablet := w.toTablet[1..],
         tablet := Tablet(Paint(w.tablet.framebuffer, w.catalog.width, w.catalog.height, r.primitive), r.frameID),
         toServer := if acknowledges then w.toServer + [Ack(r.sequence)] else w.toServer)
    case TabletDrops => w.(toTablet := w.toTablet[1..])
    case TabletReports(kind) => w.(toServer := w.toServer + [Status(kind, w.tablet.display)])
    case Receive(stored) => AfterReceive(w, stored)
    case Elsewhere(op) => w.(table := Execute(w.table, w.device, op))
    case Prune(ids) => w.(table := w.table - ids)
  }

  /** `CreateAssignments`/`QueueDesignFrame` for one device. */
  ghost function AfterQueue(w: World, device: string, frameID: U32, rendered: Option<Bytes>): World {
    var t := w.table[w.nextId := Row(device, frameID, Queued, None, false, 0, rendered)];
    var c := w.catalog.(used := w.catalog.used + {frameID});
    w.(table := t, nextId := w.nextId + 1,
       catalog := if device == w.device then c.(frames := c.frames[frameID := Frame(w.nextId, rendered)]) else c)
  }

  /** A write that fails may still have put the whole record on the wire. */
  ghost function AfterWrite(w: World, complete: bool, arrives: bool): World
    requires w.job.Prepared?
  {
    w.(job := Written(w.job.id, w.job.record, w.job.pixels, complete),
       toTablet := if arrives then w.toTablet + [w.job.record] else w.toTablet,
       attempts := Bump(w.attempts, w.job.id), attemptsHere := Bump(w.attemptsHere, w.job.id))
  }

  /** The ack and status branches of `handle`. */
  ghost function AfterReceive(w: World, stored: bool): World
    requires w.toServer != []
  {
    var w' := w.(toServer := w.toServer[1..]);
    match w.toServer[0]
    case Ack(sequence) =>
      var (t, s) := AfterAck(w.table, w.session, w.device, sequence, stored);
      w'.(table := t, session := s)
    case Status(kind, display) =>
      var (t, s) := AfterStatus(w.table, w.session, w.device, kind, display, stored);
      w'.(table := t, session := s)
  }

  // ---------------------------------------------------------------------------------------------
  // Runs
  // ---------------------------------------------------------------------------------------------

  /** Each step can happen when it does. */
  ghost predicate Possible(w: World, steps: seq<Step>)
    requires Sized(w)
    decreases |steps|
  {
    steps == [] || (Enabled(w, steps[0]) && Possible(Next(w, steps[0]), steps[1..]))
  }

  ghost function Run(w: World, steps: seq<Step>): (w': World)
    requires Sized(w) && Possible(w, steps)
    ensures Sized(w')
    decreases |steps|
  {
    if steps == [] then w else Run(Next(w, steps[0]), steps[1..])
  }

  /** A property of every step of a run. */
  ghost predicate Throughout(w: World, steps: seq<Step>, p: (World, Step) -> bool)
    requires Sized(w) && Possible(w, steps)
    decreases |steps|
  {
    steps != [] ==> p(w, steps[0]) && Throughout(Next(w, steps[0]), steps[1..], p)
  }

  lemma {:induction false} RunConcat(w: World, first: seq<Step>, second: seq<Step>)
    requires Sized(w) && Possible(w, first) && Possible(Run(w, first), second)
    ensures Possible(w, first + second) && Run(w, first + second) == Run(Run(w, first), second)
    decreases |first|
  {
    hide Next, Enabled;
    if first == [] {
      assert first + second == second;
    } else {
      RunConcat(Next(w, first[0]), first[1..], second);
      assert (first + second)[1..] == first[1..] + second;
    }
  }

  lemma {:induction false} ThroughoutConcat(w: World, first: seq<Step>, second: seq<Step>, p: (World, Step) -> bool)
    requires Sized(w) && Possible(w, first) && Throughout(w, first, p)
    requires Possible(Run(w, first), second) && Throughout(Run(w, first), second, p)
    ensures Possible(w, first + second) && Throughout(w, first + second, p)
    decreases |first|
  {
    hide Next, Enabled;
    RunConcat(w, first, second);
    if first == [] {
      assert first + second == second;
    } else {
      ThroughoutConcat(Next(w, first[0]), first[1..], second, p);
      assert (first + second)[1..] == first[1..] + second;
    }
  }

  lemma RunOne(w: World, step: Step)
    requires Sized(w) && Enabled(w, step)
    ensures Possible(w, [step]) && Run(w, [step]) == Next(w, step)
  {
    assert Run(Next(w, step), []) == Next(w, step);
    assert [step][1..] == [];
  }

  lemma RunTwo(w: World, a: Step, b: Step)
    requires Sized(w) && Enabled(w, a) && Enabled(Next(w, a), b)
    ensures Possible(w, [a, b]) && Run(w, [a, b]) == Next(Next(w, a), b)
  {
    hide Next, Enabled, Sized;
    RunOne(w, a);
    RunOne(Next(w, a), b);
    RunConcat(w, [a], [b]);
    assert [a] + [b] == [a, b];
  }

  lemma RunThree(w: World, a: Step, b: Step, c: Step)
    requires Sized(w) && Enabled(w, a) && Enabled(Next(w, a), b) && Enabled(Next(Next(w, a), b), c)
    ensures Possible(w, [a, b, c]) && Run(w, [a, b, c]) == Next(Next(Next(w, a), b), c)
  {
    hide Next, Enabled, Sized;
    RunTwo(w, a, b);
    RunOne(Next(Next(w, a), b), c);
    RunConcat(w, [a, b], [c]);
    assert [a, b] + [c] == [a, b, c];
  }

  lemma RunFour(w: World, a: Step, b: Step, c: Step, d: Step)
    requires Sized(w) && Enabled(w, a) && Enabled(Next(w, a), b) && Enabled(Next(Next(w, a), b), c)
    requires Enabled(Next(Next(Next(w, a), b), c), d)
    ensures Possible(w, [a, b, c, d]) && Run(w, [a, b, c, d]) == Next(Next(Next(Next(w, a), b), c), d)
  {
    hide Next, Enabled, Sized;
    RunThree(w, a, b, c);
    RunOne(Next(Next(Next(w, a), b), c), d);
    RunConcat(w, [a, b, c], [d]);
    assert [a, b, c] + [d] == [a, b, c, d];
  }
}
