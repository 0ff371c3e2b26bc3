/** The event hub and one client of the event stream: replay of persisted events, then live delivery. */
module EventStream {
  import opened Common

  const CHANNEL_SIZE: nat := 32
  const PAGE_SIZE: nat := 500

  // ---------------------------------------------------------------------------------------------
  // The hub
  // ---------------------------------------------------------------------------------------------

  function Offer(channel: seq<nat>, id: nat): seq<nat> {
    if |channel| < CHANNEL_SIZE then channel + [id] else channel
  }

  class Hub {
    var next: nat
    var subscribers: map<nat, seq<nat>>

    ghost predicate Valid()
      reads this
    {
      && (forall k | k in subscribers :: k < next)
      && (forall k | k in subscribers :: |subscribers[k]| <= CHANNEL_SIZE)
    }

    constructor ()
      ensures Valid() && subscribers == map[]
    {
      next, subscribers := 0, map[];
    }

    method Subscribe() returns (id: nat)
      requires Valid()
      modifies this
      ensures Valid() && id !in old(subscribers) && subscribers == old(subscribers)[id := []]
    {
      id := next;
      next := next + 1;
      subscribers := subscribers[id := []];
    }

    /** A full channel drops the event; nobody else waits for a slow subscriber. */
    method Publish(event: nat)
      requires Valid()
      modifies `subscribers
      ensures Valid() && subscribers.Keys == old(subscribers).Keys
      ensures forall k | k in subscribers ::
        subscribers[k] == if |old(subscribers)[k]| < 32 then old(subscribers)[k] + [event] else old(subscribers)[k]
      ensures subscribers == map k | k in old(subscribers) :: Offer(old(subscribers)[k], event)
    {
      var left := subscribers.Keys;
      while left != {}
        invariant left <= subscribers.Keys == old(subscribers).Keys
        invariant forall k | k in subscribers :: subscribers[k] == if k in left then old(subscribers)[k]
                  else Offer(old(subscribers)[k], event)
        decreases |left|
      {
        var k :| k in left;
        if |subscribers[k]| < CHANNEL_SIZE {
          subscribers := subscribers[k := subscribers[k] + [event]];
        }
        left := left - {k};
      }
    }

    method Cancel(id: nat)
      requires Valid()
      modifies `subscribers
      ensures Valid() && subscribers == old(subscribers) - {id}
    {
      subscribers := subscribers - {id};
    }
  }

  // ---------------------------------------------------------------------------------------------
  // Event tables
  // ---------------------------------------------------------------------------------------------

  /** Row ids in table order. */
  ghost predicate Ascending(ids: seq<nat>) {
    forall i, j | 0 <= i < j < |ids| :: ids[i] < ids[j]
  }

  /** `SELECT .. WHERE id>? ORDER BY id`. */
  function After(ids: seq<nat>, bound: nat): (r: seq<nat>)
    ensures forall k | k in r :: k in ids
  {
    if ids == [] then [] else if ids[0] > bound then ids else After(ids[1..], bound)
  }

  lemma {:induction false} AfterMeans(ids: seq<nat>, bound: nat)
    requires Ascending(ids)
    ensures forall k :: k in After(ids, bound) <==> k in ids && k > bound
    ensures Ascending(After(ids, bound))
  {
    if ids != [] && ids[0] <= bound {
      AfterMeans(ids[1..], bound);
      assert forall k | k in ids :: k == ids[0] || k in ids[1..];
    }
  }

  lemma {:induction false} AfterAppend(ids: seq<nat>, id: nat, bound: nat)
    requires Ascending(ids + [id])
    ensures After(ids + [id], bound) == After(ids, bound) + if id > bound then [id] else []
  {
    if ids == [] {
      assert [id][1..] == [];
    } else {
      assert (ids + [id])[0] == ids[0] && (ids + [id])[|ids|] == id;
      assert (ids + [id])[1..] == ids[1..] + [id];
      if ids[0] <= bound {
        AfterAppend(ids[1..], id, bound);
      }
    }
  }

  /** Reading on from the last row of a page gives the rows behind the page. */
  lemma {:induction false} AfterPage(ids: seq<nat>, bound: nat, n: nat)
    requires Ascending(ids) && 0 < n <= |After(ids, bound)|
    ensures After(ids, After(ids, bound)[n - 1]) == After(ids, bound)[n..]
  {
    if ids[0] > bound {
      AfterIndex(ids, n);
    } else {
      AfterPage(ids[1..], bound, n);
      AfterMeans(ids[1..], bound);
      assert After(ids, bound)[n - 1] in ids[1..];
    }
  }

  lemma {:induction false} AfterIndex(ids: seq<nat>, n: nat)
    requires Ascending(ids) && 0 < n <= |ids|
    ensures After(ids, ids[n - 1]) == ids[n..]
  {
    if n > 1 {
      AfterIndex(ids[1..], n - 1);
    } else {
      assert ids[1..] == [] || ids[1..][0] > ids[0];
    }
  }

  // ---------------------------------------------------------------------------------------------
  // Records of a sequence: what a filter "greater than everything before" lets through
  // ---------------------------------------------------------------------------------------------

  function Top(h: seq<nat>, floor: nat): (t: nat)
    ensures t >= floor && forall k | k in h :: k <= t
    ensures t == floor || t in h
  {
    if h == [] then floor
    else
      assert h == h[..|h| - 1] + [h[|h| - 1]];
      var rest := Top(h[..|h| - 1], floor);
      if h[|h| - 1] > rest then h[|h| - 1] else rest
  }

  function Records(h: seq<nat>, floor: nat): seq<nat> {
    if h == [] then []
    else
      var front, x := h[..|h| - 1], h[|h| - 1];
      Records(front, floor) + if x > Top(front, floor) then [x] else []
  }

  /** Some event published earlier has a larger id. */
  ghost predicate Overtaken(h: seq<nat>, id: nat) {
    exists i, j :: 0 <= i < j < |h| && h[j] == id && h[i] > id
  }

  ghost predicate Distinct(h: seq<nat>) {
    forall i, j | 0 <= i < j < |h| :: h[i] != h[j]
  }

  lemma OvertakenAppend(front: seq<nat>, x: nat, id: nat)
    requires Distinct(front + [x])
    ensures id != x ==> (Overtaken(front + [x], id) <==> Overtaken(front, id))
    ensures id == x ==> (Overtaken(front + [x], id) <==> exists k :: k in front && k > x)
  {
    var h := front + [x];
    if Overtaken(h, id) {
      var i, j :| 0 <= i < j < |h| && h[j] == id && h[i] > id;
      assert front[i] == h[i] && front[i] in front;
      assert id != x ==> front[j] == id;
    }
    if Overtaken(front, id) {
      var i, j :| 0 <= i < j < |front| && front[j] == id && front[i] > id;
      assert h[j] == id && h[i] > id;
    }
    if id == x && exists k :: k in front && k > x {
      var i :| 0 <= i < |front| && front[i] > x;
      assert h[i] == front[i];
      assert h[|front|] == id && h[i] > id;
    }
  }

  lemma {:induction false} RecordsMeans(h: seq<nat>, floor: nat, id: nat)
    requires Distinct(h)
    ensures id in Records(h, floor) <==> id in h && id > floor && !Overtaken(h, id)
  {
    if h != [] {
      hide Overtaken;
      var front, x := h[..|h| - 1], h[|h| - 1];
      RecordsMeans(front, floor, id);
      assert h == front + [x];
      OvertakenAppend(front, x, id);
      assert x !in front;
    } else {
      assert !Overtaken(h, id);
    }
  }

  lemma {:induction false} AscendingRecords(h: seq<nat>, floor: nat)
    requires Ascending(h)
    ensures Records(h, floor) == After(h, floor)
  {
    if h != [] {
      var front, x := h[..|h| - 1], h[|h| - 1];
      AscendingRecords(front, floor);
      assert h == front + [x];
      AfterAppend(front, x, floor);
    }
  }

  // ---------------------------------------------------------------------------------------------
  // One client
  // ---------------------------------------------------------------------------------------------

  /**
   The events table, what has been published, and one `eventStream` handler: whether it has gone live, the last id it
   noted, its channel and what it sent. Bookkeeping: `history`, published since it subscribed; `floor`, the id noted
   when it went live; `replayed`, sent until then; `consumed`, events taken from the channel.
   */
  datatype Stream = Stream(
    events: seq<nat>, published: set<nat>,
    resume: nat, live: bool, lastID: nat, channel: seq<nat>, sent: seq<nat>,
    history: seq<nat>, floor: nat, replayed: seq<nat>, consumed: nat)

  datatype Step = Persist(id: nat) | Publish(id: nat) | QueryPage(fails: bool) | Receive

  ghost predicate Enabled(s: Stream, step: Step) {
    match step
    case Persist(id) => 0 < id && forall k | k in s.events :: k < id
    case Publish(id) => id in s.events && id !in s.published
    case QueryPage(_) => !s.live
    case Receive => s.live && s.channel != []
  }

  function Page(s: Stream): (page: seq<nat>)
    ensures |page| <= PAGE_SIZE && page <= After(s.events, s.lastID)
  {
    var rest := After(s.events, s.lastID);
    if |rest| <= PAGE_SIZE then rest else rest[..PAGE_SIZE]
  }

  /** Without a positive resume id the handler goes live at once. */
  function NewStream(events: seq<nat>, published: set<nat>, resume: nat): Stream {
    Stream(events, published, resume, resume == 0, resume, [], [], [], resume, [], 0)
  }

  function Next(s: Stream, step: Step): Stream
    requires step.Receive? ==> s.channel != []
  {
    match step
    case Persist(id) => s.(events := s.events + [id])
    case Publish(id) => s.(published := s.published + {id}, channel := Offer(s.channel, id),
                           history := s.history + [id])
    case QueryPage(fails) =>
      var page := Page(s);
      if fails || page == [] then s.(live := true, floor := s.lastID)
      else
        var last := page[|page| - 1];
        var s' := s.(lastID := last, sent := s.sent + page, replayed := s.replayed + page);
        if |page| < PAGE_SIZE then s'.(live := true, floor := last) else s'
    case Receive =>
      var id := s.channel[0];
      var s' := s.(channel := s.channel[1..], consumed := s.consumed + 1);
      if id <= s.lastID then s' else s'.(lastID := id, sent := s.sent + [id])
  }

  ghost predicate Possible(s: Stream, steps: seq<Step>)
    decreases |steps|
  {
    steps == [] || (Enabled(s, steps[0]) && Possible(Next(s, steps[0]), steps[1..]))
  }

  ghost function Run(s: Stream, steps: seq<Step>): Stream
    requires Possible(s, steps)
    decreases |steps|
  {
    if steps == [] then s else Run(Next(s, steps[0]), steps[1..])
  }

  ghost predicate Throughout(s: Stream, steps: seq<Step>, p: (Stream, Step) -> bool)
    requires Possible(s, steps)
    decreases |steps|
  {
    steps != [] ==> p(s, steps[0]) && Throughout(Next(s, steps[0]), steps[1..], p)
  }

  // ---------------------------------------------------------------------------------------------
  // Ids always increase
  // ---------------------------------------------------------------------------------------------

  ghost predicate SentInv(s: Stream) {
    && Ascending(s.events) && Ascending(s.sent) && s.resume <= s.lastID
    && forall i | 0 <= i < |s.sent| :: s.resume < s.sent[i] <= s.lastID
  }

  lemma AscendingAppend(ids: seq<nat>, id: nat)
    requires Ascending(ids) && forall k | k in ids :: k < id
    ensures Ascending(ids + [id])
  {
    forall i, j | 0 <= i < j < |ids + [id]|
      ensures (ids + [id])[i] < (ids + [id])[j]
    {
      assert ids[i] in ids;
    }
  }

  /** A page lists ids above the last one noted, in order. */
  lemma PageAscends(s: Stream)
    requires Ascending(s.events)
    ensures Ascending(Page(s)) && forall i | 0 <= i < |Page(s)| :: s.lastID < Page(s)[i] <= Page(s)[|Page(s)| - 1]
  {
    hide After;
    AfterMeans(s.events, s.lastID);
    var rest := After(s.events, s.lastID);
    forall i | 0 <= i < |Page(s)|
      ensures Page(s)[i] > s.lastID
    {
      assert Page(s)[i] == rest[i] && rest[i] in rest;
    }
  }

  lemma SentStep(s: Stream, step: Step)
    requires SentInv(s) && Enabled(s, step)
    ensures SentInv(Next(s, step))
  {
    hide Page;
    match step
    case Persist(id) => AscendingAppend(s.events, id);
    case Publish(_) =>
    case QueryPage(_) => PageAscends(s);
    case Receive =>
  }

  /**
   For any interleaving of replay pages, persistence and publication in any order, overflows and failed queries
   included, the ids sent to a client strictly increase and lie above its resume id.
   */
  lemma {:induction false} SentIncreases(s: Stream, steps: seq<Step>)
    requires SentInv(s) && Possible(s, steps)
    ensures SentInv(Run(s, steps))
    decreases |steps|
  {
    hide SentInv;
    if steps != [] {
      SentStep(s, steps[0]);
      SentIncreases(Next(s, steps[0]), steps[1..]);
    }
  }

  // ---------------------------------------------------------------------------------------------
  // Which events arrive
  // ---------------------------------------------------------------------------------------------

  /** No channel overflows and no replay query fails. */
  ghost predicate Lossless(s: Stream, step: Step) {
    (step.Publish? ==> |s.channel| < CHANNEL_SIZE) && (step.QueryPage? ==> !step.fails)
  }

  /** Where replay stands, or stood when it ended. */
  function Cursor(s: Stream): nat {
    if s.live then s.floor else s.lastID
  }

  ghost predicate TableInv(s: Stream) {
    && Ascending(s.events) && Distinct(s.history)
    && (forall k | k in s.published :: k in s.events)
    && (forall k | k in s.history :: k in s.published)
  }

  ghost predicate ReplayInv(s: Stream) {
    && (s.resume > 0 ==> After(s.events, s.resume) == s.replayed + After(s.events, Cursor(s)))
    && (s.resume == 0 ==> s.live && s.replayed == [] && s.floor == 0)
    && (Cursor(s) == s.resume || (Cursor(s) > s.resume && Cursor(s) in s.events))
  }

  /** Once live, an event above the replayed ones can only have been published since the subscription. */
  ghost predicate CoverInv(s: Stream) {
    s.live && s.resume > 0 ==> forall k | k in s.published && k > s.floor :: k in s.history
  }

  ghost predicate ChannelInv(s: Stream) {
    && s.consumed <= |s.history| && s.channel == s.history[s.consumed..]
    && (!s.live ==> s.consumed == 0 && s.sent == s.replayed)
    && (s.live ==>
          && s.sent == s.replayed + Records(s.history[..s.consumed], s.floor)
          && s.lastID == Top(s.history[..s.consumed], s.floor))
  }

  ghost predicate Inv(s: Stream) {
    TableInv(s) && ReplayInv(s) && CoverInv(s) && ChannelInv(s)
  }

  /** A row inserted while replay is under way lies behind its cursor. */
  lemma AppendRow(events: seq<nat>, id: nat, resume: nat, sent: seq<nat>, cursor: nat)
    requires Ascending(events + [id]) && After(events, resume) == sent + After(events, cursor)
    requires cursor == resume || (cursor > resume && cursor in events)
    ensures After(events + [id], resume) == sent + After(events + [id], cursor)
  {
    hide After;
    AfterAppend(events, id, resume);
    AfterAppend(events, id, cursor);
    var last := if id > resume then [id] else [];
    assert cursor in events ==> cursor < id by {
      LastLargest(events, id);
    }
    assert sent + (After(events, cursor) + last) == (sent + After(events, cursor)) + last;
  }

  lemma LastLargest(events: seq<nat>, id: nat)
    requires Ascending(events + [id])
    ensures forall k | k in events :: k < id
  {
    forall i | 0 <= i < |events|
      ensures events[i] < id
    {
      assert (events + [id])[i] == events[i] && (events + [id])[|events|] == id;
    }
  }

  lemma PersistKeeps(s: Stream, step: Step)
    requires Inv(s) && step.Persist? && Enabled(s, step)
    ensures Inv(Next(s, step))
  {
    hide After, Records, Top;
    AscendingAppend(s.events, step.id);
    AfterAppend(s.events, step.id, s.resume);
    AfterAppend(s.events, step.id, Cursor(s));
    if s.resume > 0 {
      AppendRow(s.events, step.id, s.resume, s.replayed, Cursor(s));
    }
  }

  lemma PublishKeeps(s: Stream, step: Step)
    requires Inv(s) && step.Publish? && Enabled(s, step) && Lossless(s, step)
    ensures Inv(Next(s, step))
  {
    hide After, Records, Top;
    var s' := Next(s, step);
    assert s'.history[..s.consumed] == s.history[..s.consumed];
    assert s'.history[s.consumed..] == s.history[s.consumed..] + [step.id];
  }

  /** Sending the next `n` rows moves the cursor to the last of them. */
  lemma PageReplay(events: seq<nat>, resume: nat, replayed: seq<nat>, cursor: nat, n: nat)
    requires Ascending(events) && 0 < n <= |After(events, cursor)|
    ensures var rest := After(events, cursor);
            && rest[n - 1] in events && rest[n - 1] > cursor && After(events, rest[n - 1]) == rest[n..]
            && (After(events, resume) == replayed + rest
                ==> After(events, resume) == (replayed + rest[..n]) + After(events, rest[n - 1]))
  {
    hide After;
    var rest := After(events, cursor);
    AfterMeans(events, cursor);
    AfterPage(events, cursor, n);
    assert rest[n - 1] in rest;
    assert replayed + rest == (replayed + rest[..n]) + rest[n..];
  }

  lemma QueryKeepsReplay(s: Stream, step: Step)
    requires TableInv(s) && ReplayInv(s) && step.QueryPage? && Enabled(s, step)
    ensures ReplayInv(Next(s, step))
    ensures Lossless(s, step) && Next(s, step).live ==> After(s.events, Next(s, step).floor) == []
  {
    hide After, TableInv;
    TableAscends(s);
    if Page(s) != [] {
      PageReplay(s.events, s.resume, s.replayed, s.lastID, |Page(s)|);
      assert After(s.events, s.lastID)[..|Page(s)|] == Page(s);
    }
  }

  lemma TableAscends(s: Stream)
    requires TableInv(s)
    ensures Ascending(s.events)
  {
  }

  lemma QueryKeeps(s: Stream, step: Step)
    requires Inv(s) && step.QueryPage? && Enabled(s, step) && Lossless(s, step)
    ensures Inv(Next(s, step))
  {
    hide After, Page, ReplayInv;
    QueryKeepsReplay(s, step);
    var s' := Next(s, step);
    AfterMeans(s.events, s'.floor);
    assert s.history[..0] == [];
  }

  lemma RecordsAppend(h: seq<nat>, n: nat, floor: nat)
    requires n < |h|
    ensures Top(h[..n + 1], floor) == if h[n] > Top(h[..n], floor) then h[n] else Top(h[..n], floor)
    ensures Records(h[..n + 1], floor) == Records(h[..n], floor) + if h[n] > Top(h[..n], floor) then [h[n]] else []
  {
    assert h[..n + 1][..n] == h[..n];
  }

  lemma ReceiveKeeps(s: Stream, step: Step)
    requires Inv(s) && step.Receive? && Enabled(s, step)
    ensures Inv(Next(s, step))
  {
    hide After, Records, Top;
    RecordsAppend(s.history, s.consumed, s.floor);
    assert s.history[s.consumed..][1..] == s.history[s.consumed + 1..];
    assert s.replayed + (Records(s.history[..s.consumed], s.floor) + [s.channel[0]]) == s.sent + [s.channel[0]] by {
      assert s.sent == s.replayed + Records(s.history[..s.consumed], s.floor);
    }
  }

  lemma StepKeeps(s: Stream, step: Step)
    requires Inv(s) && Enabled(s, step) && Lossless(s, step)
    ensures Inv(Next(s, step))
  {
    hide Inv, Next;
    match step {
      case Persist(_) => PersistKeeps(s, step);
      case Publish(_) => PublishKeeps(s, step);
      case QueryPage(_) => QueryKeeps(s, step);
      case Receive => ReceiveKeeps(s, step);
    }
  }

  lemma {:induction false} RunKeeps(s: Stream, steps: seq<Step>)
    requires Inv(s) && Possible(s, steps) && Throughout(s, steps, Lossless)
    ensures Inv(Run(s, steps))
    decreases |steps|
  {
    hide Inv, Lossless;
    if steps != [] {
      StepKeeps(s, steps[0]);
      RunKeeps(Next(s, steps[0]), steps[1..]);
    }
  }

  /** Every event is published, the client is live and its channel drained. */
  ghost predicate Drained(s: Stream) {
    s.live && s.channel == [] && forall k | k in s.events :: k in s.published
  }

  lemma NewStreamInv(events: seq<nat>, published: set<nat>, resume: nat)
    requires Ascending(events) && forall k | k in published :: k in events
    ensures Inv(NewStream(events, published, resume)) && SentInv(NewStream(events, published, resume))
  {
  }

  /**
   The exact outcome for a resuming client when nothing overflows and no query fails: an event above the resume id is
   sent unless, after the replay, one with a larger id was published before it.
   */
  lemma Delivered(events: seq<nat>, published: set<nat>, resume: nat, steps: seq<Step>, id: nat)
    requires Ascending(events) && (forall k | k in published :: k in events) && resume > 0
    requires var s := NewStream(events, published, resume); Possible(s, steps) && Throughout(s, steps, Lossless)
    requires Drained(Run(NewStream(events, published, resume), steps))
    ensures var s := Run(NewStream(events, published, resume), steps);
            id in s.sent <==> id in s.events && id > resume && !(id > s.floor && Overtaken(s.history, id))
  {
    var s0 := NewStream(events, published, resume);
    var s := Run(s0, steps);
    NewStreamInv(events, published, resume);
    RunKeeps(s0, steps);
    SameResume(s0, steps);
    DrainedMeans(s, id);
  }

  lemma {:induction false} SameResume(s: Stream, steps: seq<Step>)
    requires Possible(s, steps)
    ensures Run(s, steps).resume == s.resume
    decreases |steps|
  {
    if steps != [] {
      SameResume(Next(s, steps[0]), steps[1..]);
    }
  }

  lemma DrainedMeans(s: Stream, id: nat)
    requires Inv(s) && Drained(s) && s.resume > 0
    ensures id in s.sent <==> id in s.events && id > s.resume && !(id > s.floor && Overtaken(s.history, id))
  {
    hide After, Records, Top;
    assert s.history[..s.consumed] == s.history;
    RecordsMeans(s.history, s.floor, id);
    AfterMeans(s.events, s.resume);
    AfterMeans(s.events, s.floor);
    assert id in After(s.events, s.resume) <==> id in s.replayed || id in After(s.events, s.floor);
    if id in s.replayed {
      ReplayedBelow(s, id);
    }
  }

  lemma SplitAscending(a: seq<nat>, b: seq<nat>)
    requires Ascending(a + b)
    ensures forall x, y | x in a && y in b :: x < y
    ensures forall x | x in a :: x in a + b
  {
    forall i, j | 0 <= i < |a| && 0 <= j < |b|
      ensures a[i] < b[j]
    {
      assert (a + b)[i] == a[i] && (a + b)[|a| + j] == b[j];
    }
  }

  lemma ReplayedBelow(s: Stream, id: nat)
    requires Inv(s) && s.live && s.resume > 0 && id in s.replayed
    ensures id <= s.floor
  {
    hide After;
    AfterMeans(s.events, s.resume);
    AfterMeans(s.events, s.floor);
    SplitAscending(s.replayed, After(s.events, s.floor));
  }

  // ---------------------------------------------------------------------------------------------
  // The replay loop
  // ---------------------------------------------------------------------------------------------

  /** Any number of rows inserted behind the cursor. */
  lemma {:induction false} GrowTable(events: seq<nat>, later: seq<nat>, resume: nat, sent: seq<nat>, cursor: nat)
    requires Ascending(later) && events <= later && After(events, resume) == sent + After(events, cursor)
    requires cursor == resume || (cursor > resume && cursor in events)
    ensures After(later, resume) == sent + After(later, cursor) && (cursor == resume || cursor in later)
    decreases |later|
  {
    if events == later {
    } else {
      var front, id := later[..|later| - 1], later[|later| - 1];
      assert later == front + [id];
      GrowTable(events, front, resume, sent, cursor);
      AppendRow(front, id, resume, sent, cursor);
    }
  }

  /** The table only grows at its end, and its ids stay below some bound. */
  ghost predicate Growing(tables: nat -> seq<nat>, top: nat) {
    && (forall k :: Ascending(tables(k)))
    && (forall j, k | j <= k :: tables(j) <= tables(k))
    && (forall k, id | id in tables(k) :: id <= top)
  }

  /** So far exactly the rows above the resume id and up to the last id noted have been sent. */
  ghost predicate Sending(table: seq<nat>, resume: nat, sent: seq<nat>, lastID: nat) {
    && Ascending(table) && After(table, resume) == sent + After(table, lastID)
    && (lastID == resume || (lastID > resume && lastID in table))
    && lastID == (if sent == [] then resume else sent[|sent| - 1])
    && Ascending(sent) && forall id | id in sent :: resume < id <= lastID
  }

  lemma SendingGrows(table: seq<nat>, later: seq<nat>, resume: nat, sent: seq<nat>, lastID: nat)
    requires Sending(table, resume, sent, lastID) && Ascending(later) && table <= later
    ensures Sending(later, resume, sent, lastID)
  {
    hide After;
    GrowTable(table, later, resume, sent, lastID);
  }

  lemma SendingPage(table: seq<nat>, resume: nat, sent: seq<nat>, lastID: nat, n: nat)
    requires Sending(table, resume, sent, lastID) && 0 < n <= |After(table, lastID)|
    ensures var rest := After(table, lastID);
            && Sending(table, resume, sent + rest[..n], rest[n - 1]) && rest[n - 1] in table && rest[n - 1] > lastID
            && After(table, rest[n - 1]) == rest[n..]
  {
    hide After;
    PageReplay(table, resume, sent, lastID, n);
    PageBounds(table, lastID, n);
    AscendingJoin(sent, After(table, lastID)[..n], lastID);
  }

  lemma AscendingJoin(a: seq<nat>, b: seq<nat>, bound: nat)
    requires Ascending(a) && Ascending(b) && (forall x | x in a :: x <= bound) && forall y | y in b :: bound < y
    ensures Ascending(a + b) && forall z | z in a + b :: z in a || z in b
  {
    forall i, j | 0 <= i < j < |a + b|
      ensures (a + b)[i] < (a + b)[j]
    {
      if i < |a| && |a| <= j {
        assert a[i] in a && b[j - |a|] in b;
      }
    }
  }

  lemma SendingDone(table: seq<nat>, resume: nat, sent: seq<nat>, lastID: nat)
    requires Sending(table, resume, sent, lastID) && After(table, lastID) == []
    ensures sent == After(table, resume)
  {
    hide After;
    assert sent + After(table, lastID) == sent;
  }

  lemma SendingStarts(table: seq<nat>, resume: nat)
    requires Ascending(table)
    ensures Sending(table, resume, [], resume)
  {
    hide After;
    assert [] + After(table, resume) == After(table, resume);
  }

  lemma SendingBounds(tables: nat -> seq<nat>, top: nat, k: nat, resume: nat, sent: seq<nat>, lastID: nat)
    requires Growing(tables, top) && Sending(tables(k), resume, sent, lastID)
    ensures lastID <= top || lastID == resume
    ensures Ascending(tables(k)) && forall j | k <= j :: Ascending(tables(j)) && tables(k) <= tables(j)
    ensures Ascending(sent) && (forall id | id in sent :: resume < id <= lastID)
    ensures lastID == if sent == [] then resume else sent[|sent| - 1]
  {
  }

  lemma TableStarts(tables: nat -> seq<nat>, top: nat)
    requires Growing(tables, top)
    ensures Ascending(tables(0)) && forall k | 0 <= k :: tables(0) <= tables(k)
  {
  }

  /**
   The paging loop of `eventStream`, while events keep being inserted: query `k` sees table `k`. Unless the last
   query fails, everything above the resume id that it could see has been sent, each id once and in order.
   */
  method Replay(resume: nat, tables: nat -> seq<nat>, fails: nat -> bool, ghost top: nat)
    returns (sent: seq<nat>, lastID: nat, queries: nat)
    requires Growing(tables, top)
    ensures queries > 0 && Ascending(sent) && forall id | id in sent :: resume < id <= lastID
    ensures lastID == if sent == [] then resume else sent[|sent| - 1]
    ensures !fails(queries - 1) ==> sent == After(tables(queries - 1), resume)
  {
    hide After, Sending, Growing, Ascending;
    sent, lastID, queries := [], resume, 0;
    TableStarts(tables, top);
    ghost var seen := 0;
    SendingStarts(tables(0), resume);
    while true
      invariant seen <= queries && Sending(tables(seen), resume, sent, lastID)
      decreases top - lastID
    {
      SendingBounds(tables, top, seen, resume, sent, lastID);
      SendingGrows(tables(seen), tables(queries), resume, sent, lastID);
      seen := queries;
      SendingBounds(tables, top, seen, resume, sent, lastID);
      queries := queries + 1;
      var rest := After(tables(queries - 1), lastID);
      if fails(queries - 1) {
        return;
      }
      if |rest| == 0 {
        SendingDone(tables(seen), resume, sent, lastID);
        return;
      }
      var items := if |rest| <= PAGE_SIZE then rest else rest[..PAGE_SIZE];
      assert rest[..|items|] == items;
      SendingPage(tables(seen), resume, sent, lastID, |items|);
      sent, lastID := SendPage(items, sent, lastID);
      SendingBounds(tables, top, seen, resume, sent, lastID);
      if |items| < PAGE_SIZE {
        SendingDone(tables(seen), resume, sent, lastID);
        return;
      }
    }
  }

  /** Sending one page, event by event. */
  method SendPage(items: seq<nat>, before: seq<nat>, cursor: nat) returns (sent: seq<nat>, lastID: nat)
    ensures sent == before + items && lastID == if items == [] then cursor else items[|items| - 1]
  {
    sent, lastID := before, cursor;
    var i := 0;
    while i < |items|
      invariant 0 <= i <= |items| && sent == before + items[..i]
      invariant lastID == if i == 0 then cursor else items[i - 1]
    {
      sent := sent + [items[i]];
      lastID := items[i];
      i := i + 1;
    }
    assert items[..i] == items;
  }

  lemma PageBounds(ids: seq<nat>, bound: nat, n: nat)
    requires Ascending(ids) && 0 < n <= |After(ids, bound)|
    ensures var page := After(ids, bound)[..n]; Ascending(page) && forall id | id in page :: bound < id <= page[n - 1]
  {
    hide After;
    AfterMeans(ids, bound);
    var all := After(ids, bound);
    forall i | 0 <= i < n
      ensures bound < all[i]
    {
      assert all[i] in all;
    }
  }

  // ---------------------------------------------------------------------------------------------
  // Publication in id order
  // ---------------------------------------------------------------------------------------------

  ghost predicate InOrder(s: Stream, step: Step) {
    step.Publish? ==> forall k | k in s.published :: k < step.id
  }

  ghost predicate Orderly(s: Stream, step: Step) {
    Lossless(s, step) && InOrder(s, step)
  }

  lemma {:induction false} OrderlyHistory(s: Stream, steps: seq<Step>)
    requires Inv(s) && Ascending(s.history) && Possible(s, steps) && Throughout(s, steps, Orderly)
    ensures Inv(Run(s, steps)) && Ascending(Run(s, steps).history)
    decreases |steps|
  {
    hide Inv, Lossless, Ascending;
    if steps != [] {
      StepKeeps(s, steps[0]);
      HistoryAscends(s, steps[0]);
      OrderlyHistory(Next(s, steps[0]), steps[1..]);
    }
  }

  lemma HistoryAscends(s: Stream, step: Step)
    requires Inv(s) && Enabled(s, step) && InOrder(s, step) && Ascending(s.history)
    ensures Ascending(Next(s, step).history)
  {
    hide ReplayInv, CoverInv, ChannelInv, After;
    if step.Publish? {
      AscendingAppend(s.history, step.id);
    }
  }

  /**
   With publication in id order, no overflow and no failed query, a drained client has been sent exactly once, in
   order, every event above its resume id - or, without one, every event published since it subscribed.
   */
  lemma ExactlyOnce(events: seq<nat>, published: set<nat>, resume: nat, steps: seq<Step>)
    requires Ascending(events) && forall k | k in published :: 0 < k && k in events
    requires var s := NewStream(events, published, resume); Possible(s, steps) && Throughout(s, steps, Orderly)
    requires Drained(Run(NewStream(events, published, resume), steps))
    ensures var s := Run(NewStream(events, published, resume), steps);
            && Ascending(s.sent)
            && (resume > 0 ==> s.sent == After(s.events, resume))
            && (resume == 0 ==> s.sent == After(s.history, 0))
  {
    var s0 := NewStream(events, published, resume);
    var s := Run(s0, steps);
    NewStreamInv(events, published, resume);
    OrderlyHistory(s0, steps);
    SentIncreases(s0, steps);
    SameResume(s0, steps);
    assert s.history[..s.consumed] == s.history;
    AscendingRecords(s.history, s.floor);
    if resume > 0 {
      LiveTail(s);
    }
  }

  lemma LiveTail(s: Stream)
    requires Inv(s) && Drained(s) && s.resume > 0 && Ascending(s.history)
    ensures After(s.history, s.floor) == After(s.events, s.floor)
  {
    AfterMeans(s.history, s.floor);
    AfterMeans(s.events, s.floor);
    SameElements(After(s.history, s.floor), After(s.events, s.floor));
  }

  lemma DropLast(a: seq<nat>)
    requires Ascending(a) && a != []
    ensures var front, x := a[..|a| - 1], a[|a| - 1];
            Ascending(front) && a == front + [x] && x in a && (forall k | k in a :: k <= x)
            && forall k :: k in front <==> k in a && k != x
  {
    var front, x := a[..|a| - 1], a[|a| - 1];
    assert a == front + [x];
    assert forall i | 0 <= i < |front| :: front[i] == a[i] && a[i] < x;
  }

  lemma {:induction false} SameElements(a: seq<nat>, b: seq<nat>)
    requires Ascending(a) && Ascending(b) && forall k :: k in a <==> k in b
    ensures a == b
  {
    hide Ascending;
    assert a != [] ==> a[0] in a;
    assert b != [] ==> b[0] in b;
    if a != [] && b != [] {
      DropLast(a);
      DropLast(b);
      SameElements(a[..|a| - 1], b[..|b| - 1]);
    }
  }

  /** Publishing two events in the wrong order loses the lower id: the client is drained and never gets it. */
  lemma OutOfOrderLoses(low: nat, high: nat) returns (steps: seq<Step>)
    requires 0 < low < high
    ensures var s := NewStream([low, high], {}, 0);
            Possible(s, steps) && Throughout(s, steps, Lossless) && Drained(Run(s, steps))
              && Run(s, steps).sent == [high]
  {
    var s0 := NewStream([low, high], {}, 0);
    var s1 := Next(s0, Publish(high));
    var s2 := Next(s1, Receive);
    var s3 := Next(s2, Publish(low));
    var s4 := Next(s3, Receive);
    steps := [Publish(high), Receive, Publish(low), Receive];
    assert steps[1..] == [Receive, Publish(low), Receive] && steps[1..][1..] == [Publish(low), Receive];
    assert steps[1..][1..][1..] == [Receive] && steps[1..][1..][1..][1..] == [];
    assert Run(s4, []) == s4 && Possible(s4, []) && Throughout(s4, [], Lossless);
    assert Possible(s3, [Receive]) && Run(s3, [Receive]) == s4 && Throughout(s3, [Receive], Lossless);
    assert Possible(s2, steps[1..][1..]) && Run(s2, steps[1..][1..]) == s4 && Throughout(s2, steps[1..][1..], Lossless);
  }
}
