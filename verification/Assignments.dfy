/** The `assignments` table: what each query reads and what each statement changes. Row ids only grow. */
module Assignments {
  import opened Common

  datatype State = Queued | Sent | Error | Delivered | Failed

  /**
   `rendered` stands for the stored source and settings: what the deterministic renderer makes of them, or None when it
   fails.
   */
  datatype Row = Row(device: string, frameID: U32, state: State, sentSequence: Option<U32>, acknowledged: bool,
                     sendAttempts: nat, rendered: Option<Bytes>)

  type Table = map<nat, Row>

  function IdsOf(t: Table, device: string): (ids: set<nat>)
  {
    set id | id in t && t[id].device == device
  }

  /** `SELECT MAX(id) FROM assignments WHERE device_uuid=?`, with 0 for no row. */
  function Newest(t: Table, device: string): (id: nat)
    ensures IdsOf(t, device) != {} ==> id in IdsOf(t, device)
    ensures forall k | k in IdsOf(t, device) :: k <= id
  {
    if IdsOf(t, device) == {} then 0 else Max(IdsOf(t, device))
  }

  /** The newest assignment, unless it is already delivered or failed. */
  function PendingId(t: Table, device: string): Option<nat> {
    var id := Newest(t, device);
    if id in t && t[id].device == device && t[id].state != Delivered && t[id].state != Failed then Some(id) else None
  }

  function Reconcile(t: Table, device: string, displayState: U32): Table {
    var id := Newest(t, device);
    if id in t && t[id].device == device && t[id].state == Delivered && t[id].frameID != displayState then
      t[id := t[id].(state := Queued, acknowledged := false)]
    else t
  }

  function PrepareSend(t: Table, id: nat, sequence: U32): Table {
    if id in t then
      t[id := t[id].(sentSequence := Some(sequence), acknowledged := false, sendAttempts := t[id].sendAttempts + 1)]
    else t
  }

  function MarkFailed(t: Table, id: nat): Table {
    if id in t && t[id].state != Delivered then t[id := t[id].(state := Failed)] else t
  }

  function MarkSent(t: Table, id: nat, ok: bool): Table {
    if id in t && t[id].state != Delivered then t[id := t[id].(state := if ok then Sent else Error)] else t
  }

  function UndeliveredWithFrame(t: Table, device: string, frameID: U32): set<nat> {
    set id | id in t && t[id].device == device && t[id].frameID == frameID && t[id].state != Delivered
  }

  function DeliveredBy(t: Table, device: string, frameID: U32): Option<nat> {
    var ids := UndeliveredWithFrame(t, device, frameID);
    if frameID == 0 || ids == {} then None else Some(Max(ids))
  }

  function MarkDelivered(t: Table, device: string, frameID: U32): Table {
    match DeliveredBy(t, device, frameID)
    case None => t
    case Some(id) => if id in t then t[id := t[id].(state := Delivered)] else t
  }

  /** Rows in state `Error` are not candidates: their acknowledgement stays unmatched. */
  function AwaitingAck(t: Table, device: string, sequence: U32): set<nat> {
    set id | id in t && t[id].device == device && t[id].sentSequence == Some(sequence)
             && (t[id].state == Queued || t[id].state == Sent) && !t[id].acknowledged
  }

  function AcknowledgedBy(t: Table, device: string, sequence: U32): Option<nat> {
    var ids := AwaitingAck(t, device, sequence);
    if ids == {} then None else Some(Max(ids))
  }

  function MarkAcknowledged(t: Table, device: string, sequence: U32): Table {
    match AcknowledgedBy(t, device, sequence)
    case None => t
    case Some(id) => if id in t then t[id := t[id].(acknowledged := true)] else t
  }

  /** Row `id` of the device shows the frame and is not delivered yet. */
  ghost predicate Undelivered(t: Table, device: string, id: nat, frameID: U32) {
    id in t && t[id].device == device && t[id].frameID == frameID && t[id].state != Delivered
  }

  lemma UndeliveredIds(t: Table, device: string, frameID: U32)
    ensures forall id: nat :: id in UndeliveredWithFrame(t, device, frameID) <==> Undelivered(t, device, id, frameID)
  {
  }

  /** Row `id` of the device waits for the acknowledgement of number `sequence`. */
  ghost predicate Awaits(t: Table, device: string, id: nat, sequence: U32) {
    && id in t && t[id].device == device && t[id].sentSequence == Some(sequence)
    && (t[id].state == Queued || t[id].state == Sent) && !t[id].acknowledged
  }

  lemma WaitingIds(t: Table, device: string, sequence: U32)
    ensures forall id: nat :: id in AwaitingAck(t, device, sequence) <==> Awaits(t, device, id, sequence)
  {
  }

  /** One statement some goroutine issues against the table. */
  datatype StoreOp =
    | OpPrepareSend(id: nat, sequence: U32)
    | OpMarkSent(id: nat, ok: bool)
    | OpMarkFailed(id: nat)
    | OpMarkDelivered(frameID: U32)
    | OpMarkAcknowledged(sequence: U32)
    | OpReconcile(displayState: U32)

  function Execute(t: Table, device: string, op: StoreOp): Table {
    match op
    case OpPrepareSend(id, sequence) => PrepareSend(t, id, sequence)
    case OpMarkSent(id, ok) => MarkSent(t, id, ok)
    case OpMarkFailed(id) => MarkFailed(t, id)
    case OpMarkDelivered(frameID) => MarkDelivered(t, device, frameID)
    case OpMarkAcknowledged(sequence) => MarkAcknowledged(t, device, sequence)
    case OpReconcile(displayState) => Reconcile(t, device, displayState)
  }

  /** The columns no statement writes after insertion, and the counter that never falls. */
  ghost predicate SameIdentity(t: Table, t': Table) {
    && t'.Keys == t.Keys
    && forall id | id in t ::
         && t'[id].device == t[id].device && t'[id].frameID == t[id].frameID && t'[id].rendered == t[id].rendered
         && t'[id].sendAttempts >= t[id].sendAttempts
  }

  lemma IdentityTransitive(t: Table, u: Table, v: Table)
    requires SameIdentity(t, u) && SameIdentity(u, v)
    ensures SameIdentity(t, v)
  {
  }

  /** The two statements of a first status record, the first of which may fail. */
  lemma ConnectKeepsIdentity(t: Table, device: string, display: U32, stored: bool)
    ensures SameIdentity(t, Reconcile(if stored then MarkDelivered(t, device, display) else t, device, display))
  {
    hide MarkDelivered, Reconcile;
    var u := if stored then MarkDelivered(t, device, display) else t;
    ExecuteKeepsIdentity(t, device, OpMarkDelivered(display));
    ExecuteKeepsIdentity(u, device, OpReconcile(display));
    IdentityTransitive(t, u, Reconcile(u, device, display));
  }

  lemma ExecuteKeepsIdentity(t: Table, device: string, op: StoreOp)
    ensures SameIdentity(t, Execute(t, device, op))
  {
  }

  lemma NewestSame(t: Table, t': Table, device: string)
    requires SameIdentity(t, t')
    ensures Newest(t', device) == Newest(t, device)
  {
    assert IdsOf(t', device) == IdsOf(t, device);
  }

  /** Retention never takes a device's newest row, so the newest row stays. */
  lemma PruneNewest(t: Table, device: string, ids: set<nat>)
    requires Newest(t, device) !in ids
    ensures Newest(t - ids, device) == Newest(t, device)
  {
    assert IdsOf(t - ids, device) <= IdsOf(t, device);
    if IdsOf(t, device) != {} {
      assert Newest(t, device) in IdsOf(t - ids, device);
    }
  }

  /**
   A delivered row stays delivered under every statement except `ReconcileDesired`, which touches the newest row only.
   */
  lemma DeliveredSticks(t: Table, device: string, op: StoreOp, id: nat)
    requires id in t && t[id].state == Delivered
    ensures var t' := Execute(t, device, op);
            id in t' && (t'[id].state != Delivered <==>
              op.OpReconcile? && t[id].device == device && id == Newest(t, device) && t[id].frameID != op.displayState)
  {
  }
}
