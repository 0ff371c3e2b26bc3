/**
 The gateway's own objects: a session, its connection, the map of connections, and the branches of `handle` that update
 them.
 */
module Gateway {
  import opened Common
  import opened Delta
  import opened Assignments
  import opened Session
  import opened Store

  /** The writing side of a tablet connection. */
  class Connection {
    var sent: Bytes

    /** A failed write may still have put the first `arrived` bytes on the stream. */
    method Write(data: Bytes, complete: bool, arrived: nat) returns (ok: bool)
      modifies this
      ensures ok == complete
      ensures sent == old(sent) + if complete then data else data[..MinLength(arrived, data)]
    {
      ok := complete;
      sent := sent + if complete then data else data[..MinLength(arrived, data)];
    }
  }

  function MinLength(n: nat, data: Bytes): nat {
    if n < |data| then n else |data|
  }

  class TabletSession {
    const connection: Connection
    var closed: bool
    var display: U32
    var nextSeq: U32
    var ackedSeq: U32
    var lastFrameID: U32
    var lastSentSeq: U32
    var attemptID: nat
    var attempts: nat
    var renderFailedID: nat
    var lastFrame: Bytes
    var frameWidth: int
    var frameHeight: int

    ghost function View(): SessionState
      reads this
    {
      SessionState(closed, display, nextSeq, ackedSeq, lastFrameID, lastSentSeq, attemptID, attempts, renderFailedID,
                   lastFrame, frameWidth, frameHeight)
    }

    constructor (connection: Connection, kind: U32, display: U32)
      ensures this.connection == connection
      ensures View() == SessionState(false, display, Trunc32(kind + 1), 0, 0, 0, 0, 0, 0, [], 0, 0)
    {
      this.connection := connection;
      closed, this.display, nextSeq, ackedSeq := false, display, Trunc32(kind + 1), 0;
      lastFrameID, lastSentSeq, attemptID, attempts, renderFailedID := 0, 0, 0, 0, 0;
      lastFrame, frameWidth, frameHeight := [], 0, 0;
    }

    method Sequence() returns (sequence: U32)
      modifies `nextSeq
      ensures sequence == Issued(old(View())) && View() == AfterIssue(old(View()))
    {
      if nextSeq == 0 {
        nextSeq := 1;
      }
      sequence := nextSeq;
      nextSeq := Trunc32(nextSeq + 1);
      if nextSeq == 0 {
        nextSeq := 1;
      }
    }

    method AdvanceSequence(observed: U32)
      modifies `nextSeq
      ensures View() == Observe(old(View()), observed)
    {
      if nextSeq <= observed {
        nextSeq := Trunc32(observed + 1);
        if nextSeq == 0 {
          nextSeq := 1;
        }
      }
    }

    method NoteAcknowledged(sequence: U32)
      modifies `ackedSeq
      ensures View() == old(View()).(ackedSeq := sequence)
    {
      ackedSeq := sequence;
    }

    method IsAcknowledged(sequence: U32) returns (yes: bool)
      ensures yes == Acknowledged(View(), sequence)
    {
      yes := sequence != 0 && ackedSeq == sequence;
    }

    /** The bookkeeping after a complete send. */
    method NoteSent(frameID: U32, sequence: U32, frame: Bytes, width: int, height: int)
      modifies `lastFrameID, `lastSentSeq, `lastFrame, `frameWidth, `frameHeight
      ensures View() == SendRecorded(old(View()), frameID, sequence, frame, width, height)
    {
      lastFrameID := frameID;
      lastSentSeq := sequence;
      lastFrame := frame;
      frameWidth, frameHeight := width, height;
    }

    method StartAttempts(id: nat)
      modifies `attemptID, `attempts
      ensures View() == Started(old(View()), id)
    {
      if attemptID != id {
        attemptID, attempts := id, 0;
      }
    }

    method CountAttempt()
      modifies `attempts
      ensures View() == old(View()).(attempts := old(View()).attempts + 1)
    {
      attempts := attempts + 1;
    }

    method NoteRenderFailure(id: nat)
      modifies `renderFailedID
      ensures View() == old(View()).(renderFailedID := id)
    {
      renderFailedID := id;
    }

    method Close()
      modifies `closed
      ensures View() == old(View()).(closed := true)
    {
      closed := true;
    }
  }

  /** The connection in charge of each device. */
  class Connections {
    var current: map<string, TabletSession>

    constructor ()
      ensures current == map[]
    {
      current := map[];
    }

    /** A first status takes the device over: the session before it is closed. */
    method Register(device: string, session: TabletSession)
      modifies `current, if device in current && current[device] != session then {current[device]} else {}
      ensures current == old(current)[device := session]
      ensures device in old(current) && old(current)[device] != session ==>
                old(current)[device].View() == old(current[device].View()).(closed := true)
    {
      if device in current && current[device] != session {
        current[device].Close();
      }
      current := current[device := session];
    }

    /** A connection that ends marks itself closed and gives up the device only if no later one has taken it over. */
    method Teardown(device: string, session: TabletSession)
      modifies `current, session`closed
      ensures session.View() == old(session.View()).(closed := true)
      ensures current == if device in old(current) && old(current)[device] == session then old(current) - {device}
              else old(current)
    {
      session.closed := true;
      if device in current && current[device] == session {
        current := current - {device};
      }
    }
  }

  /** The acknowledgement branch of `handle`; the statement may fail. */
  method HandleAcknowledgement(store: AssignmentStore, session: TabletSession, device: string, sequence: U32,
                               stores: bool)
    requires store.Valid()
    modifies store`rows, session`ackedSeq
    ensures store.Valid()
    ensures (store.rows, session.View()) == AfterAck(old(store.rows), old(session.View()), device, sequence, stores)
  {
    if stores {
      var matched := store.MarkAcknowledged(device, sequence);
      if matched.Some? {
        session.NoteAcknowledged(sequence);
      }
    }
  }

  /** A status record on a connection that is already known. */
  method HandleStatus(store: AssignmentStore, session: TabletSession, device: string, kind: U32, display: U32,
                      stores: bool)
    requires store.Valid()
    modifies store`rows, session`display, session`nextSeq
    ensures store.Valid()
    ensures (store.rows, session.View())
         == AfterStatus(old(store.rows), old(session.View()), device, kind, display, stores)
  {
    if stores {
      var _ := store.MarkDelivered(device, display);
    }
    session.display := display;
    session.AdvanceSequence(kind);
  }

  /**
   The rows after the statements of a first status: the second depends on the first, and so on, but for a delivery that
   fails.
   */
  function FirstStatusRows(t: Table, device: string, display: U32, upserts: bool, delivers: bool,
                           reconciles: bool): Table {
    var u := if upserts && delivers then Assignments.MarkDelivered(t, device, display) else t;
    if upserts && reconciles then Reconcile(u, device, display) else u
  }

  lemma FirstStatusStored(t: Table, device: string, kind: U32, display: U32, delivers: bool)
    ensures AfterFirstStatus(t, device, kind, display, delivers) ==
              (FirstStatusRows(t, device, display, true, delivers, true), NewSession(kind, display))
  {
  }

  method StoreFirstStatus(store: AssignmentStore, device: string, display: U32, upserts: bool, delivers: bool,
                          reconciles: bool)
    returns (stored: bool)
    requires store.Valid()
    modifies store`rows
    ensures store.Valid() && (stored <==> upserts && reconciles)
    ensures store.rows == FirstStatusRows(old(store.rows), device, display, upserts, delivers, reconciles)
  {
    if !upserts {
      return false;
    }
    if delivers {
      var _ := store.MarkDelivered(device, display);
    }
    if !reconciles {
      return false;
    }
    store.ReconcileDesired(device, display);
    stored := true;
  }

  /**
   The first status record of a connection: a new session takes the device over, and the desired frame is reconciled.
   Attempts wait for `ready`; without it `handle` returns, and the session goes with it.
   */
  method HandleFirstStatus(store: AssignmentStore, connections: Connections, connection: Connection, device: string,
                           kind: U32, display: U32, upserts: bool, delivers: bool, reconciles: bool, responds: bool)
    returns (session: TabletSession, ready: bool)
    requires store.Valid()
    modifies store`rows, connections`current, if device in connections.current then {connections.current[device]}
             else {}
    ensures store.Valid() && fresh(session) && session.connection == connection
    ensures device in old(connections.current) ==> old(connections.current)[device].closed
    ensures ready <==> upserts && reconciles && responds
    ensures ready ==> connections.current == old(connections.current)[device := session]
    ensures ready ==> (store.rows, session.View()) == AfterFirstStatus(old(store.rows), device, kind, display, delivers)
    ensures !ready ==> session.closed && connections.current == old(connections.current) - {device}
    ensures store.rows == FirstStatusRows(old(store.rows), device, display, upserts, delivers, reconciles)
  {
    hide Assignments.MarkDelivered, Reconcile, FirstStatusRows;
    session := new TabletSession(connection, kind, display);
    connections.Register(device, session);
    var stored := StoreFirstStatus(store, device, display, upserts, delivers, reconciles);
    if stored {
      session.AdvanceSequence(kind);
    }
    ready := stored && responds;
    if !ready {
      connections.Teardown(device, session);
    }
    FirstStatusStored(old(store.rows), device, kind, display, delivers);
  }
}
