/**
 A delivery attempt that sends its record with nothing else happening meanwhile, in one go: a building block for runs.
 */
module Undisturbed {
  import opened Common
  import opened Assignments
  import opened Session
  import opened Attempt
  import opened Delivery
  import D = Delta

  /** An idle live connection whose newest assignment `id` passes the checks once the retry interval is over. */
  ghost predicate ReadyToSend(w: World, id: nat, pixels: Bytes) {
    && Sized(w) && w.connected && !w.session.closed && w.job.NoJob?
    && PendingId(w.table, w.device) == Some(id)
    && w.table[id].rendered == Some(pixels)
    && Decide(w.session, id, w.table[id], true) == Proceed
  }

  const CHECKING := [Begin, Load(true), Check(true)]
  const WRITING := [Number, Prepare(Ready), Write(true, true), Finish(true)]
  const FINISHING := [Render] + WRITING
  const SENDING := CHECKING + FINISHING

  /** One more attempt at `id` on this connection. */
  function Tried(s: SessionState, id: nat): SessionState {
    var s' := Started(s, id);
    s'.(attempts := s'.attempts + 1)
  }

  ghost function NewRecord(w: World, frameID: U32, sequence: U32, pixels: Bytes, base: Option<U32>): ImageRecord {
    ImageRecord(sequence, frameID, Patch(w.session, pixels, base, w.catalog.width, w.catalog.height), base)
  }

  ghost function Record(w: World, id: nat, pixels: Bytes): ImageRecord
    requires id in w.table
  {
    NewRecord(w, w.table[id].frameID, Issued(w.session), pixels, ConfirmedBase(w.session, w.session.display))
  }

  /** The world once the attempt has passed its checks. */
  function Passed(w: World, id: nat): World
    requires id in w.table
  {
    w.(session := Started(w.session, id), job := Checked(id, w.table[id], w.session.display))
  }

  lemma CheckingRun(w: World, id: nat, pixels: Bytes)
    requires ReadyToSend(w, id, pixels)
    ensures Possible(w, CHECKING) && Run(w, CHECKING) == Passed(w, id) && Sized(Passed(w, id))
  {
    hide Newest, IdsOf, Decide;
    RunThree(w, Begin, Load(true), Check(true));
  }

  /** The world after the attempt, started at its render, is through. */
  ghost function AfterSending(w: World, id: nat, pixels: Bytes): World
    requires id in w.table
  {
    var record := Record(w, id, pixels);
    w.(job := NoJob,
       table := MarkSent(PrepareSend(w.table, id, record.sequence), id, true),
       session := SendRecorded(AfterIssue(Tried(w.session, id)), record.frameID, record.sequence, pixels,
                               w.catalog.width, w.catalog.height),
       toTablet := w.toTablet + [record],
       attempts := Bump(w.attempts, id), attemptsHere := Bump(w.attemptsHere, id))
  }

  lemma NumberedAndPrepared(w: World) returns (w': World)
    requires Sized(w) && w.connected && w.job.Based?
    ensures Enabled(w, Number) && Enabled(Next(w, Number), Prepare(Ready))
            && w' == Next(Next(w, Number), Prepare(Ready)) && Sized(w')
    ensures w' == w.(session := AfterIssue(w.session), table := PrepareSend(w.table, w.job.id, Issued(w.session)),
                     job := Prepared(w.job.id, w.job.record.(sequence := Issued(w.session)), w.job.pixels))
  {
    hide Assignments.PrepareSend, Issued, AfterIssue;
    w' := Next(Next(w, Number), Prepare(Ready));
  }

  lemma WrittenAndStored(w: World) returns (w': World)
    requires Sized(w) && w.connected && w.job.Prepared?
    ensures Enabled(w, Write(true, true)) && Enabled(Next(w, Write(true, true)), Finish(true))
            && w' == Next(Next(w, Write(true, true)), Finish(true)) && Sized(w')
    ensures w' == w.(job := NoJob, table := MarkSent(w.table, w.job.id, true),
                     session := SendRecorded(w.session, w.job.record.frameID, w.job.record.sequence, w.job.pixels,
                                             w.catalog.width, w.catalog.height),
                     toTablet := w.toTablet + [w.job.record], attempts := Bump(w.attempts, w.job.id),
                     attemptsHere := Bump(w.attemptsHere, w.job.id))
  {
    hide Assignments.MarkSent;
    w' := Next(Next(w, Write(true, true)), Finish(true));
  }

  /** The world after a record is numbered, prepared, written and stored. */
  ghost function AfterWriting(w: World, id: nat, record: ImageRecord, pixels: Bytes): World {
    var numbered := record.(sequence := Issued(w.session));
    w.(job := NoJob,
       table := MarkSent(PrepareSend(w.table, id, numbered.sequence), id, true),
       session := SendRecorded(AfterIssue(w.session), numbered.frameID, numbered.sequence, pixels,
                               w.catalog.width, w.catalog.height),
       toTablet := w.toTablet + [numbered],
       attempts := Bump(w.attempts, id), attemptsHere := Bump(w.attemptsHere, id))
  }

  /** From the drawing of a number on. */
  lemma WritingRun(w: World, id: nat, record: ImageRecord, pixels: Bytes)
    requires Sized(w) && w.connected && w.job == Based(id, record, pixels)
    ensures Possible(w, WRITING) && Run(w, WRITING) == AfterWriting(w, id, record, pixels)
  {
    hide Next, Enabled, Assignments.MarkSent, Assignments.PrepareSend, Issued, AfterIssue;
    var w1 := NumberedAndPrepared(w);
    var w2 := WrittenAndStored(w1);
    RunFour(w, Number, Prepare(Ready), Write(true, true), Finish(true));
  }

  lemma RenderOne(w: World, pixels: Bytes) returns (w': World)
    requires Sized(w) && w.connected && w.job.Checked? && w.job.row.rendered == Some(pixels)
    ensures Enabled(w, Render) && w' == Next(w, Render) && Sized(w')
    ensures w' == w.(session := w.session.(attempts := w.session.attempts + 1),
                     job := Based(w.job.id, NewRecord(w, w.job.row.frameID, 0, pixels,
                                                      ConfirmedBase(w.session, w.job.display)), pixels))
  {
    hide Patch, ConfirmedBase;
    w' := Next(w, Render);
  }

  /** From the render on, whatever acknowledgements came in since the check. */
  lemma FinishingRun(w: World, id: nat, row: Row, pixels: Bytes)
    requires Sized(w) && w.connected && id in w.table && w.table[id].frameID == row.frameID
             && row.rendered == Some(pixels)
    requires w.session.attemptID == id && w.job == Checked(id, row, w.session.display)
    ensures Possible(w, FINISHING) && Run(w, FINISHING) == AfterSending(w, id, pixels)
  {
    hide Next, Enabled, AfterWriting, AfterSending, NewRecord, ConfirmedBase;
    var w1 := RenderOne(w, pixels);
    RunOne(w, Render);
    WritingRun(w1, id, w1.job.record, pixels);
    RunConcat(w, [Render], WRITING);
    SendingIsWriting(w, id, row, pixels);
  }

  lemma SendingIsWriting(w: World, id: nat, row: Row, pixels: Bytes)
    requires id in w.table && w.table[id].frameID == row.frameID && w.session.attemptID == id
    ensures var record := NewRecord(w, row.frameID, 0, pixels, ConfirmedBase(w.session, w.session.display));
            AfterWriting(w.(session := w.session.(attempts := w.session.attempts + 1),
                            job := Based(id, record, pixels)), id, record, pixels)
              == AfterSending(w, id, pixels)
  {
    hide D.Changed, ConfirmedBase, Assignments.MarkSent, Assignments.PrepareSend;
  }

  lemma IssueSame(s: SessionState)
    ensures Issued(s.(attempts := s.attempts + 1)) == Issued(s)
  {
  }

  lemma SendingRun(w: World, id: nat, pixels: Bytes)
    requires ReadyToSend(w, id, pixels)
    ensures Possible(w, SENDING) && Run(w, SENDING) == AfterSending(w, id, pixels)
  {
    hide Next, Enabled, Newest, Decide, Assignments.MarkSent, Assignments.PrepareSend, AfterIssue, Issued;
    CheckingRun(w, id, pixels);
    FinishingRun(Passed(w, id), id, w.table[id], pixels);
    RunConcat(w, CHECKING, FINISHING);
    SamePassed(w, id, pixels);
  }

  lemma SamePassed(w: World, id: nat, pixels: Bytes)
    requires id in w.table && w.job.NoJob?
    ensures AfterSending(Passed(w, id), id, pixels) == AfterSending(w, id, pixels)
  {
    hide D.Changed;
  }

  lemma NewestOnly(t: Table, device: string, id: nat)
    requires id in t && t[id].device == device && forall k | k in t :: k <= id
    ensures Newest(t, device) == id
  {
    assert id in IdsOf(t, device);
  }
}
