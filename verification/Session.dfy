/** One tablet connection: its sequence counter, and the decision `deliverLatest` takes for the newest assignment. */
module Session {
  import opened Common
  import opened Assignments
  import opened Delta

  const MAX_ATTEMPTS: nat := 3
  const MAX_TOTAL_ATTEMPTS: nat := 3 * MAX_ATTEMPTS

  /** `display` is the display state of the last status; 0 stands for "none" in every id field. */
  datatype SessionState = SessionState(
    closed: bool, display: U32, nextSeq: U32, ackedSeq: U32,
    lastFrameID: U32, lastSentSeq: U32, attemptID: nat, attempts: nat, renderFailedID: nat,
    lastFrame: Bytes, frameWidth: int, frameHeight: int)

  /** The session `handle` creates for a first status record of kind `kind`. */
  function NewSession(kind: U32, display: U32): SessionState {
    Observe(SessionState(false, display, Trunc32(kind + 1), 0, 0, 0, 0, 0, 0, [], 0, 0), kind)
  }

  // ---------------------------------------------------------------------------------------------
  // Sequence numbers
  // ---------------------------------------------------------------------------------------------

  /** The number `sequence()` issues next: 0 is skipped. */
  function Issued(s: SessionState): U32 {
    if s.nextSeq == 0 then 1 else s.nextSeq
  }

  function AfterIssue(s: SessionState): SessionState {
    var next := Trunc32(Issued(s) + 1);
    s.(nextSeq := if next == 0 then 1 else next)
  }

  /** `advanceSequence`. */
  function Observe(s: SessionState, kind: U32): SessionState {
    if s.nextSeq <= kind then
      var next := Trunc32(kind + 1);
      s.(nextSeq := if next == 0 then 1 else next)
    else s
  }

  /** Numbers are never 0, and they go up except exactly where the 32-bit counter wraps. */
  lemma SequenceDiscipline(s: SessionState, kind: U32)
    ensures Issued(s) != 0 && AfterIssue(s).nextSeq != 0 && Observe(s, kind).nextSeq != 0
    ensures Issued(AfterIssue(s)) == if Issued(s) < TWO32 - 1 then Issued(s) + 1 else 1
    ensures Issued(Observe(s, kind)) > kind <==> kind < TWO32 - 1
    ensures kind < TWO32 - 1 ==> Issued(Observe(s, kind)) >= Issued(s)
    ensures Issued(NewSession(kind, s.display)) == if kind < TWO32 - 1 then kind + 1 else 1
  {
  }

  /** `acknowledged(sequence)`. */
  predicate Acknowledged(s: SessionState, sequence: U32) {
    sequence != 0 && s.ackedSeq == sequence
  }

  // ---------------------------------------------------------------------------------------------
  // Records from the tablet
  // ---------------------------------------------------------------------------------------------

  /** Table and session after an acknowledgement: it is noted if it matches a row, and that could be stored. */
  function AfterAck(t: Table, s: SessionState, device: string, sequence: U32, stored: bool): (Table, SessionState) {
    if stored && AcknowledgedBy(t, device, sequence).Some?
    then (MarkAcknowledged(t, device, sequence), s.(ackedSeq := sequence)) else (t, s)
  }

  /** After a status on a known connection. */
  function AfterStatus(t: Table, s: SessionState, device: string, kind: U32, display: U32,
                       stored: bool): (Table, SessionState) {
    (if stored then MarkDelivered(t, device, display) else t, Observe(s.(display := display), kind))
  }

  /** After the first status of a connection; a delivery that cannot be stored is only logged. */
  function AfterFirstStatus(t: Table, device: string, kind: U32, display: U32, stored: bool): (Table, SessionState) {
    (Reconcile(if stored then MarkDelivered(t, device, display) else t, device, display), NewSession(kind, display))
  }

  // ---------------------------------------------------------------------------------------------
  // deliverLatest
  // ---------------------------------------------------------------------------------------------

  /** What the checks of `deliverLatest` make of a pending row. */
  datatype Plan = Idle | Abandon | Exhausted | Proceed

  /** The checks in their order; `elapsed` tells whether the retry interval has passed since the last attempt. */
  function Decide(s: SessionState, id: nat, row: Row, elapsed: bool): Plan {
    if s.renderFailedID == id then Idle
    else if row.sendAttempts >= MAX_TOTAL_ATTEMPTS then Abandon
    else if s.attemptID == id && s.lastFrameID == row.frameID && Acknowledged(s, s.lastSentSeq) then Idle
    else if s.attemptID == id && !elapsed then Idle
    else if s.attemptID == id && s.attempts >= MAX_ATTEMPTS then Exhausted
    else Proceed
  }

  /**
   The frame a partial update may build on: the last one sent, if a status echoed it or its record was acknowledged.
   */
  function ConfirmedBase(s: SessionState, display: U32): Option<U32> {
    if s.lastFrameID == 0 || (display != s.lastFrameID && !Acknowledged(s, s.lastSentSeq)) then None
    else Some(s.lastFrameID)
  }

  /** A row not tried before on this connection starts a count of its own. */
  function Started(s: SessionState, id: nat): SessionState {
    if s.attemptID == id then s else s.(attemptID := id, attempts := 0)
  }

  /** The previous frame handed to `changedPrimitive`: nothing without a confirmed base. */
  function PreviousFrame(s: SessionState, base: Option<U32>): Bytes {
    if base == None then [] else s.lastFrame
  }

  /** The session after a record was written and `MarkSent` done. */
  function SendRecorded(s: SessionState, frameID: U32, sequence: U32, pixels: Bytes, w: int, h: int): SessionState {
    s.(lastFrameID := frameID, lastSentSeq := sequence, lastFrame := pixels, frameWidth := w, frameHeight := h)
  }
}
