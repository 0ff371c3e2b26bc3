/** Frame retention: which rows `PruneFrameHistory` deletes, and that nobody can tell. */
module Retention {
  import opened Common
  import opened Assignments

  const FRAME_HISTORY_LIMIT: nat := 100

  // ---------------------------------------------------------------------------------------------
  // The newest rows
  // ---------------------------------------------------------------------------------------------

  function Above(s: set<nat>, id: nat): set<nat> {
    set k | k in s && id < k
  }

  /** `SELECT id .. ORDER BY id DESC LIMIT 1 OFFSET n`, with 0 for no row. */
  function NthNewest(s: set<nat>, n: nat): nat {
    if s == {} then 0 else if n == 0 then Max(s) else NthNewest(s - {Max(s)}, n - 1)
  }

  /** An id lies below the row at offset `n` exactly when more than `n` rows are newer. */
  lemma {:induction false} BelowNth(s: set<nat>, n: nat, id: nat)
    ensures id < NthNewest(s, n) <==> |Above(s, id)| > n
    decreases n
  {
    if s == {} {
      assert Above(s, id) == {};
    } else {
      var m := Max(s);
      if id < m {
        assert Above(s, id) == Above(s - {m}, id) + {m};
        if n > 0 {
          BelowNth(s - {m}, n - 1, id);
        }
      } else {
        assert Above(s, id) == {};
        if n > 0 {
          BelowNth(s - {m}, n - 1, id);
          assert Above(s - {m}, id) == {};
        }
      }
    }
  }

  function NewestOf(s: set<nat>, n: nat): set<nat> {
    set id | id in s && |Above(s, id)| < n
  }

  lemma NewestStep(s: set<nat>, n: nat)
    requires s != {} && n > 0
    ensures NewestOf(s, n) == NewestOf(s - {Max(s)}, n - 1) + {Max(s)}
  {
    var m := Max(s);
    assert Above(s, m) == {};
    forall id | id in s && id != m
      ensures |Above(s, id)| == |Above(s - {m}, id)| + 1
    {
      assert Above(s, id) == Above(s - {m}, id) + {m};
    }
  }

  /** There are `n` ids with fewer than `n` newer ones, unless there are fewer ids at all. */
  lemma {:induction false} NewestCount(s: set<nat>, n: nat)
    ensures |NewestOf(s, n)| == if n < |s| then n else |s|
    decreases n
  {
    hide NewestOf, Above;
    NewestWithin(s, n);
    if s != {} && n > 0 {
      var rest := s - {Max(s)};
      NewestCount(rest, n - 1);
      NewestWithin(rest, n - 1);
      NewestStep(s, n);
      assert Max(s) !in NewestOf(rest, n - 1);
      assert |NewestOf(s, n)| == |NewestOf(rest, n - 1)| + 1;
      assert |s| == |rest| + 1;
    }
  }

  lemma NewestWithin(s: set<nat>, n: nat)
    ensures NewestOf(s, n) <= s && (n == 0 ==> NewestOf(s, n) == {})
  {
  }

  lemma AboveMonotonic(s: set<nat>, t: set<nat>, id: nat)
    requires s <= t
    ensures |Above(s, id)| <= |Above(t, id)|
  {
    Subset(Above(s, id), Above(t, id));
  }

  lemma Subset(a: set<nat>, b: set<nat>)
    requires a <= b
    ensures |a| <= |b|
  {
    assert b == a + (b - a);
  }

  // ---------------------------------------------------------------------------------------------
  // The tables
  // ---------------------------------------------------------------------------------------------

  datatype Assignment = Assignment(row: Row, imageID: nat)

  /** A claim: this device, frame and target key were handled. */
  datatype Claim = Claim(device: string, frameID: U32, key: string)

  /** The display state per device, images, assignments, touch maps by assignment, and claims. */
  datatype Data = Data(devices: map<string, U32>, images: map<nat, Bytes>, assignments: map<nat, Assignment>,
                       interactions: map<nat, string>, claims: set<Claim>)

  /** The foreign keys of `assignments` and `assignment_interactions`; row ids start at 1. */
  ghost predicate Consistent(d: Data) {
    && (forall id | id in d.assignments ::
        d.assignments[id].row.device in d.devices && d.assignments[id].imageID in d.images)
    && (forall id | id in d.interactions :: id in d.assignments)
    && 0 !in d.assignments
  }

  function Rows(d: Data): Table {
    map id | id in d.assignments :: d.assignments[id].row
  }

  /** The subquery `obsolete`: behind the newest 100 of its device, and not displayed. */
  function Obsolete(d: Data): (ids: set<nat>)
  {
    set id | id in d.assignments
             && var row := d.assignments[id].row;
                row.device in d.devices && id < NthNewest(IdsOf(Rows(d), row.device), FRAME_HISTORY_LIMIT - 1)
                && row.frameID != d.devices[row.device]
  }

  function DeleteInteractions(d: Data): Data {
    d.(interactions := d.interactions - Obsolete(d))
  }

  function DeleteAssignments(d: Data): Data {
    d.(assignments := d.assignments - Obsolete(d))
  }

  function ImagesInUse(d: Data): set<nat> {
    set id | id in d.assignments :: d.assignments[id].imageID
  }

  function DeleteImages(d: Data): Data {
    d.(images := map i | i in d.images && i in ImagesInUse(d) :: d.images[i])
  }

  function FramesOf(d: Data): set<(string, U32)> {
    set id | id in d.assignments :: (d.assignments[id].row.device, d.assignments[id].row.frameID)
  }

  function DeleteClaims(d: Data): Data {
    d.(claims := set c | c in d.claims && (c.device, c.frameID) in FramesOf(d))
  }

  function Pruned(d: Data): Data {
    DeleteClaims(DeleteImages(DeleteAssignments(DeleteInteractions(d))))
  }

  class Database {
    var devices: map<string, U32>
    var images: map<nat, Bytes>
    var assignments: map<nat, Assignment>
    var interactions: map<nat, string>
    var claims: set<Claim>

    ghost function View(): Data
      reads this
    {
      Data(devices, images, assignments, interactions, claims)
    }

    function ObsoleteIds(): (ids: set<nat>)
      reads this
      ensures ids == Obsolete(View())
    {
      Obsolete(Data(devices, images, assignments, interactions, claims))
    }

    method DeleteObsoleteInteractions()
      requires Consistent(View())
      modifies `interactions
      ensures View() == DeleteInteractions(old(View())) && Consistent(View())
    {
      interactions := interactions - ObsoleteIds();
    }

    /** Needs the touch maps of these rows to be gone: the foreign key would refuse it otherwise. */
    method DeleteObsoleteAssignments()
      requires Consistent(View()) && interactions.Keys !! Obsolete(View())
      modifies `assignments
      ensures View() == DeleteAssignments(old(View())) && Consistent(View())
    {
      assignments := assignments - ObsoleteIds();
    }

    method DeleteUnusedImages()
      requires Consistent(View())
      modifies `images
      ensures View() == DeleteImages(old(View())) && Consistent(View())
    {
      var used := set id | id in assignments :: assignments[id].imageID;
      assert used == ImagesInUse(View());
      images := map i | i in images && i in used :: images[i];
    }

    method DeleteUnmatchedClaims()
      requires Consistent(View())
      modifies `claims
      ensures View() == DeleteClaims(old(View())) && Consistent(View())
    {
      var frames := set id | id in assignments :: (assignments[id].row.device, assignments[id].row.frameID);
      assert frames == FramesOf(View());
      claims := set c | c in claims && (c.device, c.frameID) in frames;
    }

    method PruneFrameHistory()
      requires Consistent(View())
      modifies `images, `assignments, `interactions, `claims
      ensures View() == Pruned(old(View())) && Consistent(View())
    {
      hide NthNewest;
      ghost var d := View();
      DeleteObsoleteInteractions();
      assert Obsolete(View()) == Obsolete(d);
      DeleteObsoleteAssignments();
      DeleteUnusedImages();
      DeleteUnmatchedClaims();
    }
  }

  // ---------------------------------------------------------------------------------------------
  // What is kept
  // ---------------------------------------------------------------------------------------------

  /** The rows behind `FRAME_HISTORY_LIMIT` newer ones of the same device whose frame is not on display. */
  lemma ObsoleteMeans(d: Data, id: nat)
    requires Consistent(d) && id in d.assignments
    ensures var row := d.assignments[id].row;
            id in Obsolete(d) <==>
              && |Above(IdsOf(Rows(d), row.device), id)| >= FRAME_HISTORY_LIMIT
              && row.frameID != d.devices[row.device]
  {
    BelowNth(IdsOf(Rows(d), d.assignments[id].row.device), FRAME_HISTORY_LIMIT - 1, id);
  }

  /** Each table of the result, read off the original one. */
  lemma PrunedTables(d: Data)
    ensures Pruned(d).devices == d.devices
    ensures Pruned(d).assignments == d.assignments - Obsolete(d)
    ensures Pruned(d).interactions == d.interactions - Obsolete(d)
    ensures Pruned(d).images.Keys == d.images.Keys * ImagesInUse(Pruned(d))
    ensures forall i | i in Pruned(d).images :: Pruned(d).images[i] == d.images[i]
    ensures Pruned(d).claims == set c | c in d.claims && (c.device, c.frameID) in FramesOf(Pruned(d))
  {
    hide NthNewest;
    assert Obsolete(DeleteInteractions(d)) == Obsolete(d);
  }

  /**
   Exactly the newest 100 rows of a device and those of its displayed frame are kept; there are 100 newest if there are
   100 at all.
   */
  lemma NewestKept(d: Data, device: string)
    requires Consistent(d) && device in d.devices
    ensures var ids, n := IdsOf(Rows(d), device), FRAME_HISTORY_LIMIT;
            && (forall id :: id in IdsOf(Rows(Pruned(d)), device) <==>
                  id in NewestOf(ids, n) || (id in ids && d.assignments[id].row.frameID == d.devices[device]))
            && |NewestOf(ids, n)| == if n < |ids| then n else |ids|
  {
    hide Obsolete, Pruned;
    PrunedTables(d);
    var ids := IdsOf(Rows(d), device);
    NewestCount(ids, FRAME_HISTORY_LIMIT);
    forall id | id in ids
      ensures id in IdsOf(Rows(Pruned(d)), device) <==>
                id in NewestOf(ids, FRAME_HISTORY_LIMIT) || d.assignments[id].row.frameID == d.devices[device]
    {
      ObsoleteMeans(d, id);
    }
  }

  lemma NothingLeftObsolete(d: Data)
    requires Consistent(d)
    ensures Obsolete(Pruned(d)) == {}
  {
    hide Obsolete, Pruned;
    PrunedTables(d);
    var p := Pruned(d);
    ObsoleteWithin(p);
    forall id | id in p.assignments
      ensures id !in Obsolete(p)
    {
      var device := p.assignments[id].row.device;
      PrunedConsistent(d);
      ObsoleteMeans(d, id);
      ObsoleteMeans(p, id);
      AboveMonotonic(IdsOf(Rows(p), device), IdsOf(Rows(d), device), id);
    }
  }

  lemma PrunedConsistent(d: Data)
    requires Consistent(d)
    ensures Consistent(Pruned(d)) && Pruned(d).images.Keys == ImagesInUse(Pruned(d))
  {
    hide Obsolete, Pruned;
    PrunedTables(d);
  }

  /**
   Foreign keys hold after the whole transaction, no image or claim is left without an assignment, and a second run
   finds nothing.
   */
  lemma PrunedClean(d: Data)
    requires Consistent(d)
    ensures Consistent(Pruned(d))
    ensures Pruned(d).images.Keys == ImagesInUse(Pruned(d))
    ensures forall c | c in Pruned(d).claims ::
              exists id :: id in Pruned(d).assignments && Pruned(d).assignments[id].row.device == c.device
                                                             && Pruned(d).assignments[id].row.frameID == c.frameID
    ensures Pruned(Pruned(d)) == Pruned(d)
  {
    hide Obsolete, Pruned;
    var p := Pruned(d);
    PrunedTables(d);
    PrunedConsistent(d);
    PrunedTables(p);
    NothingLeftObsolete(d);
    assert p.assignments - {} == p.assignments && p.interactions - {} == p.interactions;
    assert Pruned(p).images == p.images;
    forall c | c in p.claims
      ensures exists id ::
                && id in p.assignments && p.assignments[id].row.device == c.device
                && p.assignments[id].row.frameID == c.frameID
    {
      assert (c.device, c.frameID) in FramesOf(p);
    }
  }

  // ---------------------------------------------------------------------------------------------
  // Nobody can tell
  // ---------------------------------------------------------------------------------------------

  lemma ObsoleteWithin(d: Data)
    ensures Obsolete(d) <= d.assignments.Keys
  {
  }

  lemma NewestIsKept(d: Data, device: string)
    requires Consistent(d)
    ensures Newest(Rows(Pruned(d)), device) == Newest(Rows(d), device)
    ensures Newest(Rows(d), device) !in Obsolete(d)
  {
    hide Obsolete, Pruned;
    PrunedTables(d);
    var ids := IdsOf(Rows(d), device);
    assert IdsOf(Rows(Pruned(d)), device) <= ids;
    if ids != {} {
      var id := Newest(Rows(d), device);
      ObsoleteMeans(d, id);
      assert Above(ids, id) == {};
      assert id in IdsOf(Rows(Pruned(d)), device);
    } else {
      assert Obsolete(d) <= d.assignments.Keys by {
        ObsoleteWithin(d);
      }
    }
  }

  /** What `Pending` joins for the tablet: the newest row, unless settled, with its image. */
  function Pending(d: Data, device: string): Option<(nat, Row, Bytes)> {
    match PendingId(Rows(d), device)
    case None => None
    case Some(id) =>
      if id in d.assignments && d.assignments[id].imageID in d.images && device in d.devices
      then Some((id, d.assignments[id].row, d.images[d.assignments[id].imageID])) else None
  }

  /** `ReconcileDesired` on the whole database. */
  function Reconciled(d: Data, device: string, displayState: U32): Data {
    d.(assignments := map id | id in d.assignments ::
       d.assignments[id].(row := Reconcile(Rows(d), device, displayState)[id]))
  }

  /** The touch map of a frame: that of its newest assignment that has one. */
  function TouchIds(d: Data, device: string, frameID: U32): set<nat> {
    set id | id in d.assignments && id in d.interactions && d.assignments[id].row.device == device
      && d.assignments[id].row.frameID == frameID
  }

  function InteractionForFrame(d: Data, device: string, frameID: U32): Option<string> {
    var ids := TouchIds(d, device, frameID);
    if ids == {} then None else Some(d.interactions[Max(ids)])
  }

  /** The touch map read for a frame belongs to its newest assignment that has one. */
  lemma TouchNewest(d: Data, device: string, frameID: U32)
    ensures InteractionForFrame(d, device, frameID) == None <==> TouchIds(d, device, frameID) == {}
    ensures InteractionForFrame(d, device, frameID).Some? ==>
              exists id ::
                && id in d.interactions && InteractionForFrame(d, device, frameID) == Some(d.interactions[id])
                && id in TouchIds(d, device, frameID) && forall k | k in TouchIds(d, device, frameID) :: k <= id
  {
  }

  /** Delivery sees the same pending frame, image included. */
  lemma PendingUnchanged(d: Data, device: string)
    requires Consistent(d)
    ensures Pending(Pruned(d), device) == Pending(d, device)
  {
    hide Obsolete, Pruned, Newest;
    PrunedTables(d);
    PrunedClean(d);
    NewestIsKept(d, device);
    var id := Newest(Rows(d), device);
    assert id in d.assignments ==> id in Pruned(d).assignments;
    assert id in Pruned(d).assignments ==> Pruned(d).assignments[id].imageID in ImagesInUse(Pruned(d));
  }

  lemma ReconciledIds(d: Data, device: string, displayState: U32, other: string)
    ensures IdsOf(Rows(Reconciled(d, device, displayState)), other) == IdsOf(Rows(d), other)
  {
  }

  lemma ReconciledObsolete(d: Data, device: string, displayState: U32)
    ensures Obsolete(Reconciled(d, device, displayState)) == Obsolete(d)
  {
    hide NthNewest, IdsOf, Newest;
    var r := Reconciled(d, device, displayState);
    forall id | id in d.assignments
      ensures id in Obsolete(r) <==> id in Obsolete(d)
    {
      ReconciledIds(d, device, displayState, d.assignments[id].row.device);
      assert r.assignments[id].row.device == d.assignments[id].row.device
             && r.assignments[id].row.frameID == d.assignments[id].row.frameID;
    }
  }

  /** Reconciling treats the rows that are kept alike, pruned or not. */
  lemma ReconcileRows(d: Data, p: Data, device: string, displayState: U32)
    requires Consistent(d) && p == Pruned(d)
    ensures forall id | id in p.assignments ::
              id in d.assignments && Reconcile(Rows(p), device, displayState)[id]
                  == Reconcile(Rows(d), device, displayState)[id]
  {
    hide Obsolete, Pruned, Newest;
    PrunedTables(d);
    NewestIsKept(d, device);
    assert forall id | id in p.assignments :: Rows(p)[id] == Rows(d)[id];
  }

  /** Reconciling after pruning is pruning after reconciling. */
  lemma ReconcileCommutes(d: Data, device: string, displayState: U32)
    requires Consistent(d)
    ensures Pruned(Reconciled(d, device, displayState)) == Reconciled(Pruned(d), device, displayState)
  {
    hide Obsolete, Pruned, Newest, Reconcile, ImagesInUse, FramesOf;
    var r, p := Reconciled(d, device, displayState), Pruned(d);
    PrunedTables(d);
    PrunedTables(r);
    ReconciledObsolete(d, device, displayState);
    ReconcileRows(d, p, device, displayState);
    var a, b := Pruned(r), Reconciled(p, device, displayState);
    assert a.assignments == b.assignments;
    ExecuteKeepsIdentity(Rows(p), device, OpReconcile(displayState));
    SameUse(a, p);
    assert a.images == b.images;
  }

  lemma SameUse(a: Data, b: Data)
    requires a.assignments.Keys == b.assignments.Keys
    requires forall id | id in a.assignments :: && a.assignments[id].imageID == b.assignments[id].imageID
               && a.assignments[id].row.device == b.assignments[id].row.device
               && a.assignments[id].row.frameID == b.assignments[id].row.frameID
    ensures ImagesInUse(a) == ImagesInUse(b) && FramesOf(a) == FramesOf(b)
  {
    assert forall i | i in ImagesInUse(a) :: i in ImagesInUse(b);
    assert forall f | f in FramesOf(a) :: f in FramesOf(b);
  }

  /**
   A touch map disappears exactly when the row it belongs to is obsolete, so never for the frame on display or a newest
   one.
   */
  lemma TouchUnchanged(d: Data, device: string, frameID: U32)
    requires Consistent(d)
    ensures var ids := TouchIds(d, device, frameID);
            && InteractionForFrame(Pruned(d), device, frameID)
               == (if ids != {} && Max(ids) in Obsolete(d) then None else InteractionForFrame(d, device, frameID))
            && (ids != {} && frameID == d.devices[device] ==> Max(ids) !in Obsolete(d))
  {
    hide Obsolete, Pruned;
    PrunedTables(d);
    var ids := TouchIds(d, device, frameID);
    var kept := TouchIds(Pruned(d), device, frameID);
    assert kept <= ids;
    if ids != {} {
      var m := Max(ids);
      ObsoleteMeans(d, m);
      if m in Obsolete(d) {
        forall id | id in ids
          ensures id in Obsolete(d)
        {
          ObsoleteMeans(d, id);
          Subset(Above(IdsOf(Rows(d), device), m), Above(IdsOf(Rows(d), device), id));
        }
        assert kept == {};
      } else {
        assert m in kept;
      }
    }
  }

  /** Deleting the assignments before their touch maps would be refused exactly when an obsolete row has one. */
  lemma OrderMatters(d: Data)
    requires Consistent(d)
    ensures Consistent(DeleteAssignments(d)) <==> d.interactions.Keys !! Obsolete(d)
  {
    hide Obsolete;
    if d.interactions.Keys * Obsolete(d) != {} {
      var id :| id in d.interactions.Keys * Obsolete(d);
      assert id in DeleteAssignments(d).interactions && id !in DeleteAssignments(d).assignments;
    }
  }
}
