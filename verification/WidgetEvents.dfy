/** Taps on calendar widgets: which region is hit, how its state moves, and that each event is handled at most once. */
module WidgetEvents {
  import opened Common
  import opened Assignments
  import opened Retention

  // ---------------------------------------------------------------------------------------------
  // The region under a tap
  // ---------------------------------------------------------------------------------------------

  datatype Rect = Rect(x: int, y: int, width: int, height: int, recipient: string, provider: string, instance: string,
                       event: string, order: int)

  predicate Contains(r: Rect, x: int, y: int) {
    r.x <= x < r.x + r.width && r.y <= y < r.y + r.height
  }

  /** The region drawn last among those under the point, the earlier one of equals. */
  ghost predicate IsTop(rs: seq<Rect>, x: int, y: int, k: int) {
    && 0 <= k < |rs| && Contains(rs[k], x, y)
    && (forall j | 0 <= j < |rs| && Contains(rs[j], x, y) :: rs[j].order <= rs[k].order)
    && (forall j | 0 <= j < k && Contains(rs[j], x, y) :: rs[j].order < rs[k].order)
  }

  ghost predicate Sorted(rs: seq<Rect>) {
    forall i, j | 0 <= i < j < |rs| :: rs[i].order >= rs[j].order
  }

  /** The loop of `Touch` over the regions, sorted by falling order: the first that contains the point. */
  method FindRegion(rs: seq<Rect>, x: int, y: int) returns (k: Option<nat>)
    requires Sorted(rs)
    ensures k.None? ==> forall j | 0 <= j < |rs| :: !Contains(rs[j], x, y)
    ensures k.Some? ==> IsTop(rs, x, y, k.value)
    ensures k.Some? ==>
              var r := rs[k.value];
              r.x <= x < r.x + r.width && r.y <= y < r.y + r.height
    ensures k.None? ==>
              forall r | r in rs :: x < r.x || r.x + r.width <= x || y < r.y || r.y + r.height <= y
  {
    var i := 0;
    while i < |rs|
      invariant 0 <= i <= |rs| && forall j | 0 <= j < i :: !Contains(rs[j], x, y)
    {
      if x >= rs[i].x && y >= rs[i].y && x < rs[i].x + rs[i].width && y < rs[i].y + rs[i].height {
        return Some(i);
      }
      i := i + 1;
    }
    k := None;
  }

  // ---------------------------------------------------------------------------------------------
  // Calendar state
  // ---------------------------------------------------------------------------------------------

  const RANGE: int := 12

  /** `HandleEvent` on the month offset; no state counts as 0, an unknown event is an error. */
  function HandleEvent(stored: Option<int>, event: string): (r: Option<int>)
    ensures r.Some? ==> -RANGE <= r.value <= RANGE
    ensures r.Some? <==> event in {"previous", "next", "today"}
  {
    var offset := if stored.Some? then stored.value else 0;
    if event == "previous" then Some(Clamped(offset - 1))
    else if event == "next" then Some(Clamped(offset + 1))
    else if event == "today" then Some(0)
    else None
  }

  function Clamped(offset: int): int {
    if offset < -RANGE then -RANGE else if offset > RANGE then RANGE else offset
  }

  /** One month on, one month back, and to the current month; at either end of the range it stays there. */
  lemma EventsMove(stored: Option<int>, offset: int)
    requires offset == (if stored == None then 0 else stored.value)
    ensures -13 <= offset < 12 ==> HandleEvent(stored, "next") == Some(offset + 1)
    ensures -12 < offset <= 13 ==> HandleEvent(stored, "previous") == Some(offset - 1)
    ensures offset >= 12 ==> HandleEvent(stored, "next") == Some(12)
    ensures offset <= -12 ==> HandleEvent(stored, "previous") == Some(-12)
    ensures offset < -13 ==> HandleEvent(stored, "next") == Some(-12)
    ensures offset > 13 ==> HandleEvent(stored, "previous") == Some(12)
    ensures HandleEvent(stored, "today") == Some(0)
  {
  }

  /** Inside the range, going on and going back undo each other. */
  lemma EventsUndo(offset: int)
    requires -RANGE <= offset <= RANGE
    ensures offset < RANGE ==> HandleEvent(HandleEvent(Some(offset), "next"), "previous") == Some(offset)
    ensures offset > -RANGE ==> HandleEvent(HandleEvent(Some(offset), "previous"), "next") == Some(offset)
  {
  }

  // ---------------------------------------------------------------------------------------------
  // Touches and prunes
  // ---------------------------------------------------------------------------------------------

  /** A touch whose map has been read and whose event is about to be claimed. */
  datatype Touch = Touch(claim: Claim, design: string, rect: Rect)

  /**
   The database, the calendar offsets by device, design, and instance, every frame ever queued, touches under way, and
   every event handled.
   */
  datatype World = World(data: Data, nextId: nat, nextImage: nat, offsets: map<(string, string, string), int>,
                         used: set<(string, U32)>, pending: seq<Touch>, handled: seq<Claim>)

  /** A touch map as stored: the design and its regions. */
  type MapReader = string -> (string, seq<Rect>)

  function KeyOf(r: Rect): string {
    r.provider + ":" + r.instance
  }

  /** What a touch is about: the claim and the design and region of the widget hit, if any. */
  function Hit(d: Data, read: MapReader, device: string, frameID: U32, k: nat): Option<Touch> {
    match InteractionForFrame(d, device, frameID)
    case None => None
    case Some(raw) =>
      var (design, rs) := read(raw);
      if k < |rs| && rs[k].recipient == "widget" then Some(Touch(Claim(device, frameID, KeyOf(rs[k])), design, rs[k]))
      else None
  }

  datatype Step =
    | Read(device: string, frameID: U32, region: nat)
    | Consume(i: nat)
    | QueueFrame(device: string, frameID: U32, source: Bytes, actions: string)
    | Report(device: string, display: U32)
    | Expire(device: string, design: string, instance: string)
    | Prune

  /** A queued frame gets an id its device never had. */
  ghost predicate Enabled(w: World, step: Step) {
    match step
    case QueueFrame(device, frameID, _, _) => device in w.data.devices && (device, frameID) !in w.used
    case Report(device, _) => device in w.data.devices
    case Consume(i) => i < |w.pending|
    case _ => true
  }

  function Next(w: World, read: MapReader, step: Step): World
    requires step.Consume? ==> step.i < |w.pending|
  {
    match step
    case Read(device, frameID, region) =>
      (match Hit(w.data, read, device, frameID, region)
       case None => w
       case Some(touch) => w.(pending := w.pending + [touch]))
    case Consume(i) => AfterConsume(w.(pending := w.pending[..i] + w.pending[i + 1..]), w.pending[i])
    case QueueFrame(device, frameID, source, actions) =>
      var row := Row(device, frameID, Queued, None, false, 0, None);
      w.(data := w.data.(images := w.data.images[w.nextImage := source],
                         assignments := w.data.assignments[w.nextId := Assignment(row, w.nextImage)],
                         interactions := w.data.interactions[w.nextId := actions]),
         nextId := w.nextId + 1, nextImage := w.nextImage + 1, used := w.used + {(device, frameID)})
    case Report(device, display) => w.(data := w.data.(devices := w.data.devices[device := display]))
    case Expire(device, design, instance) => w.(offsets := w.offsets - {(device, design, instance)})
    case Prune => w.(data := Pruned(w.data))
  }

  /** `handleWidgetEvent`: claim first, then move the state; only calendars are modelled as handlers. */
  function AfterConsume(w: World, touch: Touch): World {
    if touch.claim in w.data.claims then w
    else
      var claimed := w.(data := w.data.(claims := w.data.claims + {touch.claim}), handled := w.handled + [touch.claim]);
      var key := (touch.claim.device, touch.design, touch.rect.instance);
      var offset := HandleEvent(if key in w.offsets then Some(w.offsets[key]) else None, touch.rect.event);
      if touch.rect.provider != "calendar" || offset == None then claimed
      else claimed.(offsets := w.offsets[key := offset.value])
  }

  /** A touch leads to an event exactly if its frame's newest touch map has a widget's region under it. */
  lemma ReadPends(w: World, read: MapReader, device: string, frameID: U32, k: nat)
    ensures var raw, w' := InteractionForFrame(w.data, device, frameID), Next(w, read, Read(device, frameID, k));
            if raw.Some? && k < |read(raw.value).1| && read(raw.value).1[k].recipient == "widget"
            then
              var (design, r) := (read(raw.value).0, read(raw.value).1[k]);
              w' == w.(pending := w.pending + [Touch(Claim(device, frameID, r.provider + ":" + r.instance), design, r)])
            else w' == w
  {
  }

  /**
   An event whose claim is taken does nothing. Otherwise the claim is taken and the event handled, and for a calendar
   the offset of its device, design and instance moves; no other offset does.
   */
  lemma ConsumeMoves(w: World, read: MapReader, i: nat)
    requires i < |w.pending|
    ensures var (touch, w') := (w.pending[i], Next(w, read, Consume(i)));
            var key := (touch.claim.device, touch.design, touch.rect.instance);
            && w'.pending == w.pending[..i] + w.pending[i + 1..]
            && (touch.claim in w.data.claims ==> w' == w.(pending := w'.pending))
            && (touch.claim !in w.data.claims ==>
                  && w'.data == w.data.(claims := w.data.claims + {touch.claim})
                  && w'.handled == w.handled + [touch.claim]
                  && (forall k | k != key :: (k in w'.offsets <==> k in w.offsets)
                                             && (k in w.offsets ==> w'.offsets[k] == w.offsets[k]))
                  && (if touch.rect.provider == "calendar" && touch.rect.event in {"previous", "next", "today"}
                      then key in w'.offsets && Some(w'.offsets[key]) ==
                             HandleEvent(if key in w.offsets then Some(w.offsets[key]) else None, touch.rect.event)
                      else w'.offsets == w.offsets))
  {
  }

  ghost predicate Possible(w: World, read: MapReader, steps: seq<Step>)
    decreases |steps|
  {
    steps == [] || (Enabled(w, steps[0]) && Possible(Next(w, read, steps[0]), read, steps[1..]))
  }

  ghost function Run(w: World, read: MapReader, steps: seq<Step>): World
    requires Possible(w, read, steps)
    decreases |steps|
  {
    if steps == [] then w else Run(Next(w, read, steps[0]), read, steps[1..])
  }

  lemma {:induction false} RunConcat(w: World, read: MapReader, first: seq<Step>, second: seq<Step>)
    requires Possible(w, read, first) && Possible(Run(w, read, first), read, second)
    ensures Possible(w, read, first + second) && Run(w, read, first + second) == Run(Run(w, read, first), read, second)
    decreases |first|
  {
    hide Next;
    if first == [] {
      assert first + second == second;
    } else {
      RunConcat(Next(w, read, first[0]), read, first[1..], second);
      assert (first + second)[1..] == first[1..] + second;
    }
  }

  function FrameOf(c: Claim): (string, U32) {
    (c.device, c.frameID)
  }

  /**
   Frames are known once assigned, an event handled is still claimed or its frame is gone for good, and offsets lie
   within a year.
   */
  ghost predicate Inv(w: World) {
    && (forall id | id in w.data.assignments :: id < w.nextId)
    && (forall f | f in FramesOf(w.data) :: f in w.used)
    && (forall i | 0 <= i < |w.handled| :: FrameOf(w.handled[i]) in w.used)
    && (forall i | 0 <= i < |w.handled| :: w.handled[i] in w.data.claims || FrameOf(w.handled[i]) !in FramesOf(w.data))
    && (forall i | 0 <= i < |w.pending| :: FrameOf(w.pending[i].claim) in w.used)
    && (forall k | k in w.offsets :: -RANGE <= w.offsets[k] <= RANGE)
  }

  /** A touch map belongs to a frame that is still assigned. */
  lemma HitHasFrame(d: Data, read: MapReader, device: string, frameID: U32, k: nat)
    requires Hit(d, read, device, frameID, k).Some?
    ensures (device, frameID) in FramesOf(d)
    ensures FrameOf(Hit(d, read, device, frameID, k).value.claim) == (device, frameID)
  {
    var ids := TouchIds(d, device, frameID);
    assert Max(ids) in ids;
    assert d.assignments[Max(ids)].row.device == device;
  }

  lemma ReadKeeps(w: World, read: MapReader, step: Step)
    requires Inv(w) && step.Read?
    ensures Inv(Next(w, read, step))
  {
    hide Hit;
    if Hit(w.data, read, step.device, step.frameID, step.region).Some? {
      HitHasFrame(w.data, read, step.device, step.frameID, step.region);
    }
  }

  lemma ConsumeKeeps(w: World, read: MapReader, step: Step)
    requires Inv(w) && step.Consume? && Enabled(w, step)
    ensures Inv(Next(w, read, step))
  {
    hide HandleEvent;
    var touch := w.pending[step.i];
    assert FramesOf(Next(w, read, step).data) == FramesOf(w.data);
    OffsetInRange(w, touch.claim.device, touch.design, touch.rect);
  }

  lemma OffsetInRange(w: World, device: string, design: string, r: Rect)
    ensures var key := (device, design, r.instance);
            var offset := HandleEvent(if key in w.offsets then Some(w.offsets[key]) else None, r.event);
            offset.Some? ==> -RANGE <= offset.value <= RANGE
  {
  }

  lemma QueuedFrames(w: World, read: MapReader, step: Step)
    requires step.QueueFrame? && Inv(w)
    ensures FramesOf(Next(w, read, step).data) == FramesOf(w.data) + {(step.device, step.frameID)}
  {
    var w' := Next(w, read, step);
    forall f | f in FramesOf(w'.data)
      ensures f in FramesOf(w.data) || f == (step.device, step.frameID)
    {
      var id :| id in w'.data.assignments
        && f == (w'.data.assignments[id].row.device, w'.data.assignments[id].row.frameID);
      assert id != w.nextId ==> id in w.data.assignments && w'.data.assignments[id] == w.data.assignments[id];
    }
    forall f | f in FramesOf(w.data)
      ensures f in FramesOf(w'.data)
    {
      var id :| id in w.data.assignments
        && f == (w.data.assignments[id].row.device, w.data.assignments[id].row.frameID);
      assert id in w'.data.assignments && w'.data.assignments[id] == w.data.assignments[id];
    }
    assert w'.data.assignments[w.nextId].row.device == step.device;
  }

  lemma PrunedFrames(d: Data)
    ensures FramesOf(Pruned(d)) <= FramesOf(d)
    ensures forall c :: c in Pruned(d).claims <==> c in d.claims && FrameOf(c) in FramesOf(Pruned(d))
  {
    hide Obsolete, Pruned;
    PrunedTables(d);
    var p := Pruned(d);
    forall f | f in FramesOf(p)
      ensures f in FramesOf(d)
    {
      var id :| id in p.assignments && f == (p.assignments[id].row.device, p.assignments[id].row.frameID);
      assert id in d.assignments;
    }
  }

  lemma StepKeeps(w: World, read: MapReader, step: Step)
    requires Inv(w) && Enabled(w, step)
    ensures Inv(Next(w, read, step))
  {
    hide Obsolete, Pruned, Hit, AfterConsume, FramesOf;
    match step
    case Read(_, _, _) => ReadKeeps(w, read, step);
    case Consume(_) => ConsumeKeeps(w, read, step);
    case QueueFrame(_, _, _, _) => QueuedFrames(w, read, step);
    case Report(_, _) => SameFrames(w.data, Next(w, read, step).data);
    case Expire(_, _, _) =>
    case Prune =>
      PrunedFrames(w.data);
      PrunedTables(w.data);
  }

  lemma SameFrames(d: Data, d': Data)
    requires d'.assignments == d.assignments
    ensures FramesOf(d') == FramesOf(d)
  {
  }

  // ---------------------------------------------------------------------------------------------
  // Handled at most once
  // ---------------------------------------------------------------------------------------------

  /**
   No prune drops the frame of a touch between its read and its claim; with touches one at a time none comes there at
   all.
   */
  ghost predicate Sparing(w: World, step: Step) {
    step.Prune? ==> forall i | 0 <= i < |w.pending| :: FrameOf(w.pending[i].claim) in FramesOf(Pruned(w.data))
  }

  ghost predicate SparingRun(w: World, read: MapReader, steps: seq<Step>)
    requires Possible(w, read, steps)
    decreases |steps|
  {
    steps != [] ==> Sparing(w, steps[0]) && SparingRun(Next(w, read, steps[0]), read, steps[1..])
  }

  /** Touches under way have their frame, and no event was handled twice. */
  ghost predicate Once(w: World) {
    && (forall i | 0 <= i < |w.pending| :: FrameOf(w.pending[i].claim) in FramesOf(w.data))
    && (forall i, j | 0 <= i < j < |w.handled| :: w.handled[i] != w.handled[j])
  }

  lemma OnceKept(w: World, read: MapReader, step: Step)
    requires Inv(w) && Once(w) && Enabled(w, step) && Sparing(w, step)
    ensures Once(Next(w, read, step))
  {
    hide Obsolete, Pruned, Hit, HandleEvent, FramesOf;
    match step
    case Read(device, frameID, region) =>
      if Hit(w.data, read, device, frameID, region).Some? {
        HitHasFrame(w.data, read, device, frameID, region);
      }
    case Consume(_) => SameFrames(w.data, Next(w, read, step).data);
    case QueueFrame(_, _, _, _) => QueuedFrames(w, read, step);
    case Report(_, _) => SameFrames(w.data, Next(w, read, step).data);
    case Expire(_, _, _) =>
    case Prune =>
  }

  lemma {:induction false} RunOnce(w: World, read: MapReader, steps: seq<Step>)
    requires Inv(w) && Once(w) && Possible(w, read, steps) && SparingRun(w, read, steps)
    ensures Inv(Run(w, read, steps)) && Once(Run(w, read, steps))
    decreases |steps|
  {
    hide Inv, Once, Next, Sparing;
    if steps != [] {
      OnceKept(w, read, steps[0]);
      StepKeeps(w, read, steps[0]);
      RunOnce(Next(w, read, steps[0]), read, steps[1..]);
    }
  }

  /**
   From any database with offsets in range, over any sequence of touches, queued frames, reports, expiries and prunes in
   which no prune drops the frame of a touch between its read and its claim: no event of a widget on a frame is handled
   twice, and every stored offset lies within a year.
   */
  lemma HandledOnce(w: World, read: MapReader, steps: seq<Step>)
    requires w.handled == [] && w.pending == [] && forall k | k in w.offsets :: -RANGE <= w.offsets[k] <= RANGE
    requires (forall id | id in w.data.assignments :: id < w.nextId) && forall f | f in FramesOf(w.data) :: f in w.used
    requires Possible(w, read, steps) && SparingRun(w, read, steps)
    ensures var w' := Run(w, read, steps);
            && (forall i, j | 0 <= i < j < |w'.handled| :: w'.handled[i] != w'.handled[j])
            && (forall k | k in w'.offsets :: -RANGE <= w'.offsets[k] <= RANGE)
  {
    RunOnce(w, read, steps);
  }

  // ---------------------------------------------------------------------------------------------
  // Handled twice
  // ---------------------------------------------------------------------------------------------

  /** Some prune of the run leaves the frame without a row that it had before. */
  ghost predicate Dropped(w: World, read: MapReader, steps: seq<Step>, frame: (string, U32))
    requires Possible(w, read, steps)
    decreases |steps|
  {
    steps != [] &&
    (|| (steps[0].Prune? && frame in FramesOf(w.data) && frame !in FramesOf(Pruned(w.data)))
     || Dropped(Next(w, read, steps[0]), read, steps[1..], frame))
  }

  function Times(handled: seq<Claim>, c: Claim): nat {
    multiset(handled)[c]
  }

  /** Events handled stay handled, and a claim is only ever taken back by a prune that finds its frame gone. */
  lemma StepClaims(w: World, read: MapReader, step: Step, c: Claim)
    requires Inv(w) && Enabled(w, step)
    ensures var w' := Next(w, read, step);
            && Times(w'.handled, c) >= Times(w.handled, c)
            && (Times(w'.handled, c) > Times(w.handled, c)
                ==> step.Consume? && c !in w.data.claims && c in w'.data.claims)
            && (c in w.data.claims && c !in w'.data.claims ==> step.Prune? && FrameOf(c) !in FramesOf(w'.data))
            && (c !in w.data.claims && c in w'.data.claims ==> Times(w'.handled, c) > Times(w.handled, c))
            && (step.Prune? && FrameOf(c) !in FramesOf(w'.data) ==> c !in w'.data.claims)
  {
    hide Obsolete, Pruned, Hit, HandleEvent, FramesOf;
    if step.Prune? {
      PrunedFrames(w.data);
    }
  }

  /** A frame goes only by a prune, and once gone it stays away. */
  lemma StepFrame(w: World, read: MapReader, step: Step, frame: (string, U32))
    requires Inv(w) && Enabled(w, step)
    ensures var w' := Next(w, read, step);
            && w.used <= w'.used
            && (frame in FramesOf(w.data) && frame !in FramesOf(w'.data) ==> step.Prune?)
            && (frame !in FramesOf(w.data) && frame in w.used ==> frame !in FramesOf(w'.data))
  {
    hide Obsolete, Pruned, Hit, HandleEvent, FramesOf;
    match step
    case QueueFrame(_, _, _, _) => QueuedFrames(w, read, step);
    case Prune => PrunedFrames(w.data);
    case Consume(_) => SameFrames(w.data, Next(w, read, step).data);
    case Report(_, _) => SameFrames(w.data, Next(w, read, step).data);
    case _ =>
  }

  /** With the frame gone: either the event has been handled again since `was`, or its claim is free. */
  lemma {:induction false} AfterDrop(w: World, read: MapReader, steps: seq<Step>, c: Claim, was: nat)
    requires Inv(w) && Possible(w, read, steps) && FrameOf(c) in w.used && FrameOf(c) !in FramesOf(w.data)
    requires was <= Times(w.handled, c) && (Times(w.handled, c) > was || c !in w.data.claims)
    ensures var w' := Run(w, read, steps);
            && Inv(w') && Times(w'.handled, c) >= was && (Times(w'.handled, c) > was || c !in w'.data.claims)
    decreases |steps|
  {
    hide Inv, Next, FramesOf;
    if steps != [] {
      StepClaims(w, read, steps[0], c);
      StepFrame(w, read, steps[0], FrameOf(c));
      StepKeeps(w, read, steps[0]);
      AfterDrop(Next(w, read, steps[0]), read, steps[1..], c, was);
    }
  }

  /** From a world in which the frame is there and the event claimed. */
  lemma {:induction false} UntilDrop(w: World, read: MapReader, steps: seq<Step>, c: Claim)
    requires Inv(w) && Possible(w, read, steps) && FrameOf(c) in FramesOf(w.data) && c in w.data.claims
    ensures var w' := Run(w, read, steps);
            && Inv(w') && Times(w'.handled, c) >= Times(w.handled, c)
            && (if Dropped(w, read, steps, FrameOf(c))
                then Times(w'.handled, c) > Times(w.handled, c) || c !in w'.data.claims
                else Times(w'.handled, c) == Times(w.handled, c) && c in w'.data.claims)
    decreases |steps|
  {
    hide Inv, Next, FramesOf, Pruned;
    if steps != [] {
      var w1 := Next(w, read, steps[0]);
      StepClaims(w, read, steps[0], c);
      StepFrame(w, read, steps[0], FrameOf(c));
      StepKeeps(w, read, steps[0]);
      PruneIs(w, read);
      FrameUsed(w, FrameOf(c));
      if FrameOf(c) in FramesOf(w1.data) {
        UntilDrop(w1, read, steps[1..], c);
      } else {
        AfterDrop(w1, read, steps[1..], c, Times(w.handled, c));
      }
    }
  }

  lemma PruneIs(w: World, read: MapReader)
    ensures Next(w, read, Prune).data == Pruned(w.data)
  {
  }

  lemma FrameUsed(w: World, frame: (string, U32))
    requires Inv(w) && frame in FramesOf(w.data)
    ensures frame in w.used
  {
  }

  /** Claiming handles the event unless it is claimed. */
  lemma ConsumeTimes(w: World, read: MapReader, i: nat)
    requires i < |w.pending|
    ensures var c := w.pending[i].claim;
            Times(Next(w, read, Consume(i)).handled, c) == Times(w.handled, c) + if c in w.data.claims then 0 else 1
  {
    hide HandleEvent;
  }

  /**
   A touch on an event handled before reads its map, then anything happens, then it claims: by that time the event has
   been handled again - by this touch or another one - if and only if a prune in between dropped its frame.
   */
  lemma HandledAgainExactly(w: World, read: MapReader, step: Step, steps: seq<Step>, i: nat)
    requires Inv(w) && step.Read? && Hit(w.data, read, step.device, step.frameID, step.region).Some?
    requires var c := Hit(w.data, read, step.device, step.frameID, step.region).value.claim;
             && Times(w.handled, c) > 0
             && Possible(Next(w, read, step), read, steps)
             && var w2 := Run(Next(w, read, step), read, steps); i < |w2.pending| && w2.pending[i].claim == c
    ensures var c, w1 := Hit(w.data, read, step.device, step.frameID, step.region).value.claim, Next(w, read, step);
            var w2 := Run(w1, read, steps);
            Times(Next(w2, read, Consume(i)).handled, c) > Times(w.handled, c) <==> Dropped(w1, read, steps, FrameOf(c))
  {
    hide Run, Possible, Dropped, AfterConsume, Times, Hit;
    var c, w1 := Hit(w.data, read, step.device, step.frameID, step.region).value.claim, Next(w, read, step);
    HitHasFrame(w.data, read, step.device, step.frameID, step.region);
    StillClaimed(w, c);
    StepKeeps(w, read, step);
    UntilDrop(w1, read, steps, c);
    ConsumeTimes(Run(w1, read, steps), read, i);
  }

  lemma StillClaimed(w: World, c: Claim)
    requires Inv(w) && Times(w.handled, c) > 0 && FrameOf(c) in FramesOf(w.data)
    ensures c in w.data.claims
  {
    assert c in w.handled;
  }

  // ---------------------------------------------------------------------------------------------
  // A run in which that happens
  // ---------------------------------------------------------------------------------------------

  const FRESH: World := World(Data(map["d" := 0], map[], map[], map[], {}), 1, 1, map[], {}, [], [])

  /** `n` more frames queued for the device, with the ids after those it has. */
  function Queueing(first: nat, n: nat): seq<Step>
    requires first + n < TWO32
    decreases n
  {
    if n == 0 then [] else [QueueFrame("d", first, [], "")] + Queueing(first + 1, n - 1)
  }

  /** Rows `1` to `n` of the one device, each with a frame id like its own. */
  ghost predicate Stocked(w: World, n: nat) {
    && w.data.devices == map["d" := 0] && w.nextId == n + 1
    && (forall id :: id in w.data.assignments <==> 1 <= id <= n)
    && (forall id | id in w.data.assignments ::
        w.data.assignments[id].row.device == "d" && w.data.assignments[id].row.frameID == id)
    && (forall d, f | (d, f) in w.used :: f <= n)
  }

  lemma {:induction false} QueueingRuns(w: World, read: MapReader, first: nat, n: nat)
    requires 1 <= first && first + n < TWO32 && Stocked(w, first - 1)
    ensures Possible(w, read, Queueing(first, n))
    ensures var w' := Run(w, read, Queueing(first, n));
            Stocked(w', first - 1 + n) && w'.pending == w.pending && w'.handled == w.handled
              && w'.data.claims == w.data.claims
    decreases n
  {
    if n > 0 {
      var step := QueueFrame("d", first, [], "");
      assert Stocked(Next(w, read, step), first);
      assert Queueing(first, n)[1..] == Queueing(first + 1, n - 1);
      QueueingRuns(Next(w, read, step), read, first + 1, n - 1);
    }
  }

  function Upto(n: nat): (ids: set<nat>)
    ensures |ids| == n && forall id :: id in ids <==> 2 <= id < n + 2
  {
    if n == 0 then {} else Upto(n - 1) + {n + 1}
  }

  /** With a hundred newer rows and another frame on display, the first frame goes. */
  lemma FirstGoes(w: World, n: nat, limit: nat)
    requires limit == FRAME_HISTORY_LIMIT - 1 && n == limit + 1 && Stocked(w, n + 1)
    ensures ("d", 1) !in FramesOf(Pruned(w.data))
  {
    hide Pruned, Stocked;
    FirstObsolete(w, n, limit);
    PrunedTables(w.data);
    OnlyFirst(w, n + 1);
  }

  lemma FirstObsolete(w: World, n: nat, limit: nat)
    requires limit == FRAME_HISTORY_LIMIT - 1 && n == limit + 1 && Stocked(w, n + 1)
    ensures 1 in Obsolete(w.data)
  {
    hide NthNewest, Obsolete, Stocked, Above, IdsOf, Rows;
    var ids := IdsOf(Rows(w.data), "d");
    NewerThanFirst(w, n);
    BelowNth(ids, limit, 1);
    ObsoleteBelow(w, n, limit);
  }

  lemma NewerThanFirst(w: World, n: nat)
    requires Stocked(w, n + 1)
    ensures |Above(IdsOf(Rows(w.data), "d"), 1)| == n
  {
    assert Above(IdsOf(Rows(w.data), "d"), 1) == Upto(n);
  }

  lemma ObsoleteBelow(w: World, n: nat, limit: nat)
    requires limit == FRAME_HISTORY_LIMIT - 1 && Stocked(w, n + 1) && 1 < NthNewest(IdsOf(Rows(w.data), "d"), limit)
    ensures 1 in Obsolete(w.data)
  {
    hide NthNewest, IdsOf, Rows;
  }

  lemma OnlyFirst(w: World, n: nat)
    requires Stocked(w, n)
    ensures forall id | id in w.data.assignments
            && (w.data.assignments[id].row.device, w.data.assignments[id].row.frameID) == ("d", 1) :: id == 1
  {
  }

  /** Queue a frame with one calendar button, touch it and handle the event, then read a second touch of it. */
  const OPENING := [QueueFrame("d", 1, [], "map"), Read("d", 1, 0), Consume(0), Read("d", 1, 0)]

  lemma Opened(read: MapReader, r: Rect) returns (w: World)
    requires r.recipient == "widget" && read("map").1 == [r]
    ensures Possible(FRESH, read, OPENING) && w == Run(FRESH, read, OPENING)
    ensures Stocked(w, 1) && w.handled == [Claim("d", 1, KeyOf(r))] && w.data.claims == {Claim("d", 1, KeyOf(r))}
    ensures |w.pending| == 1 && w.pending[0].claim == Claim("d", 1, KeyOf(r))
  {
    hide HandleEvent;
    var w1 := Next(FRESH, read, OPENING[0]);
    assert TouchIds(w1.data, "d", 1) == {1};
    var w2 := Next(w1, read, OPENING[1]);
    var w3 := Next(w2, read, OPENING[2]);
    assert TouchIds(w3.data, "d", 1) == {1};
    w := Next(w3, read, OPENING[3]);
    assert OPENING[1..][1..][1..][1..] == [];
  }

  /**
   The event is handled, a second touch of it is read, a hundred frames are queued and pruning drops the touched one:
   the second touch handles the event again.
   */
  lemma HandledTwice(read: MapReader, r: Rect, n: nat, limit: nat) returns (steps: seq<Step>)
    requires r.recipient == "widget" && read("map").1 == [r] && limit == FRAME_HISTORY_LIMIT - 1 && n == limit + 1
    ensures Possible(FRESH, read, steps)
    ensures Run(FRESH, read, steps).handled == [Claim("d", 1, KeyOf(r)), Claim("d", 1, KeyOf(r))]
  {
    hide Next, Run, Possible, Queueing, Stocked, Pruned, FramesOf;
    var w := Opened(read, r);
    QueueingRuns(w, read, 2, n);
    RunConcat(FRESH, read, OPENING, Queueing(2, n));
    var w1 := Run(w, read, Queueing(2, n));
    FirstGoes(w1, n, limit);
    LastSteps(w1, read, Claim("d", 1, KeyOf(r)));
    RunConcat(FRESH, read, OPENING + Queueing(2, n), [Prune, Consume(0)]);
    steps := OPENING + Queueing(2, n) + [Prune, Consume(0)];
  }

  lemma LastSteps(w: World, read: MapReader, c: Claim)
    requires |w.pending| == 1 && w.pending[0].claim == c && FrameOf(c) !in FramesOf(Pruned(w.data))
    ensures Possible(w, read, [Prune, Consume(0)]) && Run(w, read, [Prune, Consume(0)]).handled == w.handled + [c]
  {
    hide Pruned, FramesOf, HandleEvent;
    PrunedFrames(w.data);
    var w1 := Next(w, read, Prune);
    var w2 := Next(w1, read, Consume(0));
    assert [Prune, Consume(0)][1..] == [Consume(0)] && [Consume(0)][1..] == [];
    assert Run(w2, read, []) == w2;
  }
}
