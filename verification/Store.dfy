/** The assignment store as an object: every method is one query, or one transaction, of the database. */
module Store {
  import opened Common
  import opened Assignments

  /** The frame id `randomID` makes of four random bytes. */
  function RandomID(draw: U32): (id: U32)
    ensures id != 0 && (draw != 0 ==> id == draw) && (draw == 0 ==> id == 1)
  {
    if draw == 0 then 1 else draw
  }

  /**
   One device to assign an image to: the random draw, and the rendering its settings lead to, or Err when they cannot be
   applied.
   */
  datatype Target = Target(device: string, draw: U32, rendered: Result<Option<Bytes>>)

  function NewRow(target: Target): Row
    requires target.rendered.Ok?
  {
    Row(target.device, RandomID(target.draw), Queued, None, false, 0, target.rendered.value)
  }

  predicate Assignable(devices: set<string>, targets: seq<Target>) {
    forall i | 0 <= i < |targets| :: targets[i].device in devices && targets[i].rendered.Ok?
  }

  /** The table after one row per target was inserted, the first with id `nextId`. */
  function Inserted(t: Table, nextId: nat, targets: seq<Target>): Table
    requires forall i | 0 <= i < |targets| :: targets[i].rendered.Ok?
  {
    if targets == [] then t
    else
      var last := |targets| - 1;
      Inserted(t, nextId, targets[..last])[nextId + last := NewRow(targets[last])]
  }

  /** Consecutive fresh ids, and nothing else changes. */
  lemma {:induction false} InsertedRows(t: Table, nextId: nat, targets: seq<Target>)
    requires forall i | 0 <= i < |targets| :: targets[i].rendered.Ok?
    requires forall id | id in t :: id < nextId
    ensures var t' := Inserted(t, nextId, targets);
            && (forall id :: id in t' <==> id in t || nextId <= id < nextId + |targets|)
            && (forall id: nat | id in t :: t'[id] == t[id])
            && (forall i, id | 0 <= i < |targets| && id == nextId + i :: t'[id] == NewRow(targets[i]))
  {
    if targets != [] {
      InsertedRows(t, nextId, targets[..|targets| - 1]);
    }
  }

  lemma InsertedValid(devices: set<string>, t: Table, nextId: nat, targets: seq<Target>)
    requires Assignable(devices, targets) && 0 < nextId
    requires forall id | id in t :: 0 < id < nextId && t[id].device in devices && t[id].frameID != 0
    ensures var t' := Inserted(t, nextId, targets);
            forall id | id in t' :: 0 < id < nextId + |targets| && t'[id].device in devices && t'[id].frameID != 0
  {
    InsertedRows(t, nextId, targets);
    var t' := Inserted(t, nextId, targets);
    forall id | id in t'
      ensures 0 < id < nextId + |targets| && t'[id].device in devices && t'[id].frameID != 0
    {
      if nextId <= id {
        assert t'[id] == NewRow(targets[id - nextId]);
      }
    }
  }

  /** No row but `id` is different, and none comes or goes. */
  ghost predicate OnlyRow(t: Table, t': Table, id: nat) {
    t'.Keys == t.Keys && forall k | k in t && k != id :: t'[k] == t[k]
  }

  /** Row `id` is the last one queued for the device, was delivered, and is not what the tablet shows. */
  ghost predicate Lost(t: Table, device: string, displayState: U32, id: nat) {
    && id in t && t[id].device == device && (forall k | k in t && t[k].device == device :: k <= id)
    && t[id].state == Delivered && t[id].frameID != displayState
  }

  lemma LostNewest(t: Table, device: string, displayState: U32)
    ensures forall id :: Lost(t, device, displayState, id) <==>
              id == Newest(t, device) && id in t && t[id].device == device && t[id].state == Delivered
                && t[id].frameID != displayState
  {
    assert forall k | k in t && t[k].device == device :: k in IdsOf(t, device);
    hide Newest;
  }

  class AssignmentStore {
    var devices: set<string>
    var rows: Table
    var nextId: nat

    ghost predicate Valid()
      reads this
    {
      && 0 < nextId
      && (forall id | id in rows :: 0 < id < nextId)
      && (forall id | id in rows :: rows[id].device in devices && rows[id].frameID != 0)
    }

    constructor ()
      ensures Valid() && rows == map[] && devices == {} && nextId == 1
    {
      devices, rows, nextId := {}, map[], 1;
    }

    /** All rows or none: an unknown device or unusable settings roll the transaction back. */
    method CreateAssignments(targets: seq<Target>) returns (r: Result<seq<nat>>)
      requires Valid()
      modifies `rows, `nextId
      ensures Valid()
      ensures r.Ok? <==> Assignable(devices, targets)
      ensures r.Err? ==> rows == old(rows) && nextId == old(nextId)
      ensures r.Ok? ==>
        && nextId == old(nextId) + |targets| && rows == Inserted(old(rows), old(nextId), targets)
        && |r.value| == |targets| && forall i | 0 <= i < |targets| :: r.value[i] == old(nextId) + i
    {
      var t, next := rows, nextId;
      var out: seq<nat> := [];
      var i := 0;
      while i < |targets|
        invariant 0 <= i <= |targets| && Assignable(devices, targets[..i])
        invariant next == nextId + i && |out| == i && forall k | 0 <= k < i :: out[k] == nextId + k
        invariant t == Inserted(rows, nextId, targets[..i])
      {
        var target := targets[i];
        if target.device !in devices || target.rendered.Err? {
          return Err("no such device, or invalid settings");
        }
        assert targets[..i + 1][..i] == targets[..i];
        t, out, next, i := t[next := NewRow(target)], out + [next], next + 1, i + 1;
      }
      assert targets[..i] == targets;
      InsertedRows(rows, nextId, targets);
      InsertedValid(devices, rows, nextId, targets);
      rows, nextId := t, next;
      r := Ok(out);
    }

    method Pending(device: string) returns (pending: Option<nat>)
      ensures pending == PendingId(rows, device)
    {
      var newest := Newest(rows, device);
      if newest in rows && rows[newest].device == device && rows[newest].state !in {Delivered, Failed} {
        return Some(newest);
      }
      pending := None;
    }

    method PrepareSend(id: nat, sequence: U32)
      requires Valid()
      modifies `rows
      ensures Valid() && rows == Assignments.PrepareSend(old(rows), id, sequence)
      ensures OnlyRow(old(rows), rows, id)
      ensures id in rows ==>
        rows[id] == old(rows)[id].(sentSequence := Some(sequence), acknowledged := false,
                                   sendAttempts := old(rows)[id].sendAttempts + 1)
    {
      if id in rows {
        rows := rows[id := rows[id].(sentSequence := Some(sequence), acknowledged := false,
                                     sendAttempts := rows[id].sendAttempts + 1)];
      }
    }

    method MarkFailed(id: nat)
      requires Valid()
      modifies `rows
      ensures Valid() && rows == Assignments.MarkFailed(old(rows), id)
      ensures OnlyRow(old(rows), rows, id)
      ensures id in rows ==>
        rows[id] == old(rows)[id].(state := if old(rows)[id].state == Delivered then Delivered else Failed)
    {
      if id in rows && rows[id].state != Delivered {
        rows := rows[id := rows[id].(state := Failed)];
      }
    }

    method MarkSent(id: nat, ok: bool)
      requires Valid()
      modifies `rows
      ensures Valid() && rows == Assignments.MarkSent(old(rows), id, ok)
      ensures OnlyRow(old(rows), rows, id)
      ensures id in rows ==>
        rows[id] == old(rows)[id].(
          state := if old(rows)[id].state == Delivered then Delivered else if ok then State.Sent else State.Error)
    {
      var state := State.Sent;
      if !ok {
        state := State.Error;
      }
      if id in rows && rows[id].state != Delivered {
        rows := rows[id := rows[id].(state := state)];
      }
    }

    method MarkDelivered(device: string, frameID: U32) returns (matched: Option<nat>)
      requires Valid()
      modifies `rows
      ensures Valid() && rows == Assignments.MarkDelivered(old(rows), device, frameID)
      ensures matched == DeliveredBy(old(rows), device, frameID)
      ensures matched.None? ==>
        && rows == old(rows)
        && (frameID == 0 || forall id: nat :: !Undelivered(rows, device, id, frameID))
      ensures matched.Some? ==>
        && frameID != 0 && Undelivered(old(rows), device, matched.value, frameID)
        && (forall id: nat | Undelivered(old(rows), device, id, frameID) :: id <= matched.value)
        && OnlyRow(old(rows), rows, matched.value)
        && rows[matched.value] == old(rows)[matched.value].(state := Delivered)
    {
      if frameID == 0 {
        return None;
      }
      UndeliveredIds(rows, device, frameID);
      var candidates := UndeliveredWithFrame(rows, device, frameID);
      if candidates == {} {
        return None;
      }
      var id := Max(candidates);
      rows := rows[id := rows[id].(state := Delivered)];
      matched := Some(id);
    }

    method MarkAcknowledged(device: string, sequence: U32) returns (matched: Option<nat>)
      requires Valid()
      modifies `rows
      ensures Valid() && rows == Assignments.MarkAcknowledged(old(rows), device, sequence)
      ensures matched == AcknowledgedBy(old(rows), device, sequence)
      ensures matched.None? ==> rows == old(rows) && forall id: nat :: !Awaits(rows, device, id, sequence)
      ensures matched.Some? ==>
        && Awaits(old(rows), device, matched.value, sequence)
        && (forall id: nat | Awaits(old(rows), device, id, sequence) :: id <= matched.value)
        && OnlyRow(old(rows), rows, matched.value)
        && rows[matched.value] == old(rows)[matched.value].(acknowledged := true)
    {
      WaitingIds(rows, device, sequence);
      var candidates := AwaitingAck(rows, device, sequence);
      if candidates == {} {
        return None;
      }
      var id := Max(candidates);
      rows := rows[id := rows[id].(acknowledged := true)];
      matched := Some(id);
    }

    method ReconcileDesired(device: string, displayState: U32)
      requires Valid()
      modifies `rows
      ensures Valid() && rows == Reconcile(old(rows), device, displayState)
      ensures rows.Keys == old(rows).Keys
      ensures forall id | id in rows ::
        rows[id] == if Lost(old(rows), device, displayState, id)
        then old(rows)[id].(state := Queued, acknowledged := false) else old(rows)[id]
    {
      var newest := Newest(rows, device);
      LostNewest(rows, device, displayState);
      if newest in rows && rows[newest].device == device && rows[newest].state == Delivered
        && rows[newest].frameID != displayState {
        rows := rows[newest := rows[newest].(state := Queued, acknowledged := false)];
      }
    }
  }
}
