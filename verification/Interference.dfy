/** What other goroutines may do to the table and a session while one of them is in the middle of an attempt. */
module Interference {
  import opened Common
  import opened Assignments
  import opened Session
  import opened Store
  import opened Gateway

  /** The part of the server that an attempt shares with others, together with the session's own notes. */
  datatype Server = Server(rows: Table, nextId: nat, session: SessionState)

  datatype Disturbance =
    | Queues(target: Target)
    | Statement(op: StoreOp)
    | Prunes(ids: set<nat>)
    | Acknowledges(sequence: U32, stored: bool)
    | Reports(kind: U32, display: U32, stored: bool)
    | Closes

  /** One disturbance; retention never takes a device's newest row. */
  function Disturbed(devices: set<string>, device: string, v: Server, d: Disturbance): Server {
    match d
    case Queues(target) =>
      if target.device in devices && target.rendered.Ok?
      then v.(rows := v.rows[v.nextId := NewRow(target)], nextId := v.nextId + 1) else v
    case Statement(op) => v.(rows := Execute(v.rows, device, op))
    case Prunes(ids) => if Newest(v.rows, device) !in ids then v.(rows := v.rows - ids) else v
    case Acknowledges(sequence, stored) =>
      var (t, s) := AfterAck(v.rows, v.session, device, sequence, stored);
      v.(rows := t, session := s)
    case Reports(kind, display, stored) =>
      var (t, s) := AfterStatus(v.rows, v.session, device, kind, display, stored);
      v.(rows := t, session := s)
    case Closes => v.(session := v.session.(closed := true))
  }

  function DisturbedBy(devices: set<string>, device: string, v: Server, batch: seq<Disturbance>): Server
    decreases |batch|
  {
    if batch == [] then v else DisturbedBy(devices, device, Disturbed(devices, device, v, batch[0]), batch[1..])
  }

  lemma {:induction false} DisturbedConcat(devices: set<string>, device: string, v: Server, first: seq<Disturbance>,
                                           second: seq<Disturbance>)
    ensures DisturbedBy(devices, device, v, first + second)
         == DisturbedBy(devices, device, DisturbedBy(devices, device, v, first), second)
    decreases |first|
  {
    hide Disturbed;
    if first == [] {
      assert first + second == second;
    } else {
      DisturbedConcat(devices, device, Disturbed(devices, device, v, first[0]), first[1..], second);
      assert (first + second)[1..] == first[1..] + second;
    }
  }

  /** New assignments for the device in a batch; other devices and unusable targets queue nothing for it. */
  function Arrivals(batch: seq<Disturbance>, device: string): nat {
    if batch == [] then 0
    else Arrivals(batch[1..], device)
         + if batch[0].Queues? && batch[0].target.device == device && batch[0].target.rendered.Ok? then 1 else 0
  }

  /** What `store` and `session` hold now. */
  ghost function Now(store: AssignmentStore, session: TabletSession): Server
    reads store, session
  {
    Server(store.rows, store.nextId, session.View())
  }

  method Disturb(store: AssignmentStore, session: TabletSession, device: string, d: Disturbance)
    requires store.Valid()
    modifies store`rows, store`nextId, session`closed, session`display, session`nextSeq, session`ackedSeq
    ensures store.Valid()
    ensures Now(store, session) == Disturbed(store.devices, device, old(Now(store, session)), d)
  {
    match d {
      case Queues(target) =>
        if target.device in store.devices && target.rendered.Ok? {
          store.rows, store.nextId := store.rows[store.nextId := NewRow(target)], store.nextId + 1;
        }
      case Statement(op) =>
        ExecuteKeepsIdentity(store.rows, device, op);
        store.rows := Execute(store.rows, device, op);
      case Prunes(ids) =>
        if Newest(store.rows, device) !in ids {
          store.rows := store.rows - ids;
        }
      case Acknowledges(sequence, stored) =>
        HandleAcknowledgement(store, session, device, sequence, stored);
      case Reports(kind, display, stored) =>
        HandleStatus(store, session, device, kind, display, stored);
      case Closes =>
        session.Close();
    }
  }

  method DisturbBy(store: AssignmentStore, session: TabletSession, device: string, batch: seq<Disturbance>)
    requires store.Valid()
    modifies store`rows, store`nextId, session`closed, session`display, session`nextSeq, session`ackedSeq
    ensures store.Valid()
    ensures Now(store, session) == DisturbedBy(store.devices, device, old(Now(store, session)), batch)
  {
    hide Disturbed, TabletSession.View;
    ghost var v := Now(store, session);
    var k := 0;
    while k < |batch|
      invariant 0 <= k <= |batch| && store.Valid()
      invariant DisturbedBy(store.devices, device, Now(store, session), batch[k..])
                  == DisturbedBy(store.devices, device, v, batch)
    {
      assert batch[k..][1..] == batch[k + 1..];
      Disturb(store, session, device, batch[k]);
      k := k + 1;
    }
  }

  // ---------------------------------------------------------------------------------------------
  // What stays as it is
  // ---------------------------------------------------------------------------------------------

  lemma StatementNewest(t: Table, device: string, op: StoreOp)
    ensures Newest(Execute(t, device, op), device) == Newest(t, device)
  {
    ExecuteKeepsIdentity(t, device, op);
    NewestSame(t, Execute(t, device, op), device);
  }

  lemma ElsewhereNewest(t: Table, device: string, id: nat, row: Row)
    requires row.device != device && id !in t
    ensures Newest(t[id := row], device) == Newest(t, device)
  {
    assert IdsOf(t[id := row], device) == IdsOf(t, device);
  }

  /** The attempt counters are the delivering goroutine's own, and only a new assignment changes which one is newest. */
  lemma DisturbedKeeps(devices: set<string>, device: string, v: Server, d: Disturbance)
    requires v.nextId !in v.rows
    ensures var v' := Disturbed(devices, device, v, d);
            && v'.session == v.session.(closed := v'.session.closed, display := v'.session.display,
                                        nextSeq := v'.session.nextSeq, ackedSeq := v'.session.ackedSeq)
            && (Arrivals([d], device) == 0 ==> Newest(v'.rows, device) == Newest(v.rows, device))
  {
    hide Newest, MarkDelivered, MarkAcknowledged, AcknowledgedBy, Execute;
    match d
    case Queues(target) =>
      if target.device in devices && target.rendered.Ok? && target.device != device {
        ElsewhereNewest(v.rows, device, v.nextId, NewRow(target));
      }
    case Statement(op) => StatementNewest(v.rows, device, op);
    case Prunes(ids) => if Newest(v.rows, device) !in ids { PruneNewest(v.rows, device, ids); }
    case Acknowledges(sequence, _) =>
      StatementNewest(v.rows, device, OpMarkAcknowledged(sequence));
      AsStatement(v.rows, device, OpMarkAcknowledged(sequence));
    case Reports(_, display, _) =>
      StatementNewest(v.rows, device, OpMarkDelivered(display)); AsStatement(v.rows, device, OpMarkDelivered(display));
    case Closes =>
  }

  lemma AsStatement(t: Table, device: string, op: StoreOp)
    ensures op.OpMarkAcknowledged? ==> Execute(t, device, op) == MarkAcknowledged(t, device, op.sequence)
    ensures op.OpMarkDelivered? ==> Execute(t, device, op) == MarkDelivered(t, device, op.frameID)
  {
  }
}
