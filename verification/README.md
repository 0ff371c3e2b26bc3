# eink-server: frame delivery, verified

A Dafny model of what happens between a grayscale frame in the server and the pixels in a tablet's framebuffer, and of
the smaller machines that share its state: design compilation, frame retention, the event stream and calendar widgets.
`dafny verify dfyconfig.toml` checks everything.

## What is modelled

**Delivery** (`Assignments`, `Session`, `Attempt`, `Delivery`). One tablet, its assignment rows, its current connection
and both directions of that connection form a state machine. A delivery attempt takes one step for each access to what
other goroutines share - begin, load, check, render, number, prepare, write, finish - and anything may happen between two
of them. The other steps are queueing, connecting, disconnecting, a tablet reboot, the tablet applying or dropping a
record, its statuses, the gateway receiving acknowledgements and statuses, stray store statements, and retention.
Database statements may fail where the code only logs the failure.

- `Coherence` proves, over every run, that the framebuffer always equals the full frame whose id the tablet reports and
  that a partial update meets the frame it was computed from - also when the base is confirmed only after the check.
- `Budget` proves the delivery budget and the order of writes, whatever attempts of replaced connections still store.
  `Stickiness` proves until exactly which step a delivered row stays delivered, until exactly which step the newest row
  stays delivered, failed or out of attempts, and exactly when something is still written in the meantime.
- `Pacing` proves that every repeat on a connection has waited for the retry interval, and that rendering an assignment
  fails at most once there.
- `Settlement` proves when an assignment is written again after its acknowledgement was noted: exactly if an attempt on
  it was past its check by then. `Acknowledgement` proves which assignment an acknowledgement is credited to. `Races`
  gives runs from a fresh server for both.
- `Coherence` needs one thing of sequence numbers: a record is not given a number that something in flight, under way
  or noted as acknowledged still carries. `Settlement` proves that this holds as long as no connection's counter wraps,
  and `Wraparound` that it is needed: from any connection at rest, losing one frame and applying the next is safe for
  all frame contents if and only if the number the lost frame gets is not the acknowledged one. The counter can come to
  such a number: a status kind of 0xFFFFFFFF restarts it at 1, and a run from a fresh server through that status ends
  with a wrong framebuffer.
- `Store`, `Gateway`, `GatewayAttempt` and `DeliverLoop` hold the objects the code updates in place - the assignment
  store, the session, the connection map, `deliverLatest` and the delivery loop - with the disturbances of `Interference`
  striking before every stage. `OneCall` says case by case what a call of `deliverLatest` that nobody disturbs writes and
  how it leaves table and session. `Refinement` proves that every call of `deliverLatest` whose connection lasts, with any
  steps of others in between, is a run of the state machine with the same table, session and bytes on the wire, and that
  one `CreateAssignments` is a run of queue steps. `Detachment` proves that a call whose connection is replaced or dropped
  in its middle is a run as well: its stages up to there, then its statements as those of a goroutine elsewhere, with any
  steps of others in between, those of the next connection included. With nobody else at work the conditions of both
  theorems are met (`Refinement.AloneAlongside`, `Detachment.DetachedAlone`).

**Wire** (`Delta`, `LittleEndian`, `Lz4`, `Record`, `ImageMessage`). The changed rectangle, raw LZ4 blocks after the LZ4
Block Format Description (sections "Compressed block format" and "End of block conditions"), 4800-byte chunks, the
logical image message and record framing, each with a strict reader written from the format. The compressor and CRC-32
are parameters: the compressor fails, gives up, or returns a block the decoder inverts.

**Pixels** (`Pixels`, `Framebuffer`, `Dither`). Nibble packing, the 180-degree turn, touch coordinates, quantisation and
Floyd-Steinberg diffusion. Dithering is over real numbers; its two error rows are proved to compute the textbook
recursion.

**Designs** (`Svg`, `Substitution`, `Fragment`, `HitBox`, `Compiler`, `CompilerTree`, `CompilerElements`, `CompilerNotes`,
`CompilerRegions`, `Dependencies`, `BatteryDesign`). A document is a sequence of XML tokens, balanced exactly if it is that of a tree. The compiler's token
loop is proved equal to a transformation of that tree; when an element is accepted, what it writes and what it notes is
stated from its attributes; every hit box is proved to be placed by the transforms of all its
ancestors; the dependency set it records is proved sound, and with it the decision to skip a render. Hit boxes are over
real numbers.

**Retention, events, calendar** (`Retention`, `EventStream`, `Calendar`, `WidgetEvents`).

## Assumptions

- A frame id is never reused for a device, and never one its tablet reported before; the source draws 32 random bits.
- The renderer is deterministic and a device keeps its display size; rendered frames have that size.
- A connection delivers in order, a new connection starts empty, and a tablet acknowledges a record only after applying it.
- `Coherence`: a record about to be written has a number that is no longer about (`NoReuse`); `Settlement` and
  `Acknowledgement`: the counter does not wrap on a live connection (`NoWrap`), which implies it. `Budget` and
  `Stickiness` need neither, but for `Stickiness.LoadedExactly`, which is about runs below the wrap.
- One clause of `Acknowledgement.CreditedExactly` is for histories in which no attempt of a replaced connection still runs
  `PrepareSend` (`Serialised`). Nothing else assumes it.
- `Dependencies.ActiveDesign.Render`: SHA-256 is free of collisions, and keys and values hold no NUL
  (`BatteryDesign.IdealExists`: the conditions on the hash can be met).
  `BatteryDesign`: lexing and attribute rules accept its one design (`Ordinary`; `SettingsOrdinary` gives such settings).

## Where the code does not do what one might expect

- An acknowledgement noted while a retry is past its check does not stop that retry: the assignment is written again, and
  as the number noted is then not that of the last record, possibly a third time (`Settlement.RewrittenExactlyIfRacing`,
  `Races.RacedTwice`).
- `MarkAcknowledged` ignores rows in state `error` or `delivered`, so an acknowledgement can stay unmatched
  (`Races.AckUnmatched`), or be credited to an older row that still waits with the same number from an earlier connection
  (`Acknowledgement.CreditedExactly`, `Races.CreditedElsewhere`).
- An attempt begun on a connection that was then replaced goes on, and may give a newer row the number of a record in
  flight on the new connection: the acknowledgement of that record is credited to the newer row (`Races.CreditedToNewer`).
- A status that delivers a row whose attempt is past its check does not stop the write: with the newest assignment done,
  something is still written exactly if an attempt is past its check (`Stickiness.NothingWrittenExactly`,
  `Races.DeliveredRaced`).
- `transformRect` may end a hit box before the element does: floor of the start plus ceiling of the length. The loss is
  below one pixel and occurs exactly when the fractions say so (`HitBox.BoxNearBounds`, `HitBox.RightEdgeShort`).
- Adding months to the 29th, 30th or 31st may show one month further (`Calendar.ShownMonth`).
- Publishing events out of id order loses the lower ones (`EventStream.Delivered`, `EventStream.OutOfOrderLoses`).
- A prune between reading a touch map and claiming the event lets an event be handled twice, exactly if it drops the
  frame (`WidgetEvents.HandledAgainExactly`, `WidgetEvents.HandledTwice`).
- If the hash of a render cannot be saved after its frame was queued, a later render whose values match the older hash
  is skipped although the newer frame is the one queued last (`Dependencies.StaleSkip`, `BatteryDesign.StaleBattery`).

## Model

| member | source | states |
|---|---|---|
| Coherence.FramebufferCoherence | internal/gateway/gateway.go:365-467 | over every run from a fresh server, with any steps of others between the stages of an attempt, the framebuffer is the full frame of the reported id, and a partial update about to be applied meets exactly its base frame and restores its own |
| Coherence.StepKeeps | internal/gateway/gateway.go:141-288 | every protocol step, in any state, keeps the invariant the coherence theorem rests on |
| Coherence.HeadRestores | internal/gateway/gateway.go:431-437 | applying the record at the head of the queue turns the framebuffer into that record's full frame, whatever records were dropped before it |
| Wraparound.SafeExactlyUnused | internal/gateway/gateway.go:431-437 | from any connection at rest, one frame lost and the next applied leave the framebuffer right for all contents if and only if the lost frame's number is not the acknowledged one |
| Wraparound.WrapBreaksCoherence | internal/gateway/gateway.go:304-313 | a run from a fresh server through a status kind of 0xFFFFFFFF after which the framebuffer differs from the reported frame |
| Settlement.BelowWrapNoReuse | internal/gateway/gateway.go:290-313 | in every run without a counter wrap no number is reused while it is still about |
| Budget.DeliveryBudget | internal/gateway/gateway.go:385-415 | over every run, stray statements of replaced connections included, an assignment is written at most 9 times in its life and at most 3 times per connection, and never before one already written there |
| Budget.SpentNeverWritten | internal/gateway/gateway.go:385-393 | once its budget is spent an assignment is never written again, even if reconciliation requeues it |
| Settlement.RewrittenExactlyIfRacing | internal/gateway/gateway.go:394-442 | after any history from a fresh server without a counter wrap, an assignment whose last record's acknowledgement is noted is never written again on the connection if and only if no attempt on it is past its check; otherwise at most once until the next attempt begins and at most twice in all |
| Settlement.SettledNotRewritten | internal/gateway/gateway.go:394-400 | no run of the connection below the wrap writes a settled assignment again: acknowledged with nothing racing, or passed over |
| Settlement.OneRecordPerAttempt | internal/gateway/gateway.go:365-467 | whatever others do, one attempt writes at most one record |
| Pacing.RepeatsWait | internal/gateway/gateway.go:394-403 | over every run an assignment is written on the current connection at most once more than the retry interval was found over for it since the connect |
| Pacing.FailsOnce | internal/gateway/gateway.go:381-428 | over every run rendering an assignment fails at most once on a connection |
| Races.RacedTwice | internal/gateway/gateway.go:394-442 | a run from a fresh server in which an assignment is written a second and a third time after its acknowledgement was noted |
| Acknowledgement.CreditedExactly | internal/store/store.go:403-414 | over every run without a counter wrap, the acknowledgement of the last record is credited to its assignment if and only if that row is queued or sent, still carries the number and is not acknowledged, and no newer row waits with it; it stays unmatched exactly if no row waits with it; a newer one can only through an attempt of a replaced connection |
| Races.AckUnmatched | internal/store/store.go:403-414 | a run from a fresh server whose only record is applied and acknowledged in vain, because its write was reported as failed |
| Races.CreditedElsewhere | internal/store/store.go:403-414 | a run from a fresh server in which the acknowledgement of one frame is credited to an older one |
| Races.CreditedToNewer | internal/gateway/gateway.go:417-442 | a run from a fresh server in which an attempt begun on a replaced connection gives a newer row the number in flight, and that row would take its acknowledgement while the record's own row waits |
| Settlement.NoAckPending | internal/gateway/gateway.go:188-196 | an acknowledgement received is newer than the one noted and not newer than the last record |
| Session.SequenceDiscipline | internal/gateway/gateway.go:290-313 | one draw or status: sequence numbers are never 0 and rise, except exactly where the 32-bit counter wraps |
| Settlement.NumbersRise | internal/gateway/gateway.go:290-313 | over every run of one connection below the wrap the numbers drawn strictly increase, from the next one on and below the next one after it, and none is 0 |
| Stickiness.DeliveredStays | internal/store/store.go:371-401 | over every run - attempts under way, late statements, failed writes - a delivered row stays delivered exactly until a reconciliation finds it newest with another frame shown, or until it is pruned |
| Stickiness.NothingWritten | internal/store/store.go:360-401 | over every run the newest row stays delivered, failed or out of attempts exactly until a new assignment, or a statement that makes it wanted with attempts left; until then nothing is written but the one record of an attempt that had loaded its row before |
| Stickiness.NothingWrittenExactly | internal/gateway/gateway.go:394-446 | with the newest assignment done and no row loaded that the check could pass, every run that does not wake it leaves an assignment unwritten if and only if no attempt past its check is on it |
| Stickiness.LoadedExactly | internal/gateway/gateway.go:381-446 | the same with a row loaded, for runs below the wrap: something is written exactly if that row would still pass the checks and can be rendered and numbered, or an attempt on it is past them |
| Stickiness.DeliveredThenWritten | internal/gateway/gateway.go:394-446 | a status that delivers the row of an attempt past its check: the row is written once more and stays delivered |
| Races.DeliveredRaced | internal/gateway/gateway.go:394-446 | a run from a fresh server after which the newest row is delivered, and is written once more all the same |
| Assignments.ExecuteKeepsIdentity | internal/store/store.go:373-417 | no statement after insertion changes a row's device, frame or rendering, or lowers its attempt count |
| Store.AssignmentStore.CreateAssignments | internal/store/store.go:310-348 | all rows are inserted with consecutive ids, or none: exactly when a device is unknown or its settings do not apply |
| Store.InsertedRows | internal/store/store.go:333-341 | the inserted rows are queued, unsent, one per target, and all others stay as they are |
| Store.AssignmentStore.Pending | internal/store/store.go:360-369 | the newest row of the device, unless it is delivered or failed |
| Store.AssignmentStore.ReconcileDesired | internal/store/store.go:373-378 | requeues the newest delivered row exactly if the display shows another frame |
| Store.AssignmentStore.PrepareSend | internal/store/store.go:382-385 | stores the sequence, clears the acknowledgement and counts the attempt of one row |
| Store.AssignmentStore.MarkFailed | internal/store/store.go:389-392 | fails a row that is not delivered |
| Store.AssignmentStore.MarkSent | internal/store/store.go:394-401 | stores the outcome of an attempt unless the row is delivered |
| Store.AssignmentStore.MarkDelivered | internal/store/store.go:210-224 | delivers the newest undelivered row of that frame, for a nonzero frame id |
| Store.AssignmentStore.MarkAcknowledged | internal/store/store.go:403-414 | acknowledges the newest queued or sent row with that sequence, and reports which |
| Gateway.TabletSession.Sequence | internal/gateway/gateway.go:290-302 | issues a nonzero number and advances the counter, skipping 0 |
| Gateway.TabletSession.AdvanceSequence | internal/gateway/gateway.go:304-313 | lifts the counter above an observed status kind |
| Gateway.Connections.Register | internal/gateway/gateway.go:240-245 | the new session takes the device over and the replaced one is closed |
| Gateway.Connections.Teardown | internal/gateway/gateway.go:146-158 | a connection that ends never removes a later one |
| Gateway.HandleAcknowledgement | internal/gateway/gateway.go:178-197 | a matched acknowledgement is stored and noted, an unmatched one changes nothing |
| Gateway.HandleStatus | internal/gateway/gateway.go:259-277 | a later status marks delivery and lifts the counter, with the effect of the protocol step |
| Gateway.HandleFirstStatus | internal/gateway/gateway.go:236-277 | the first status replaces and closes the old session; if all its statements and the response succeed the session is ready and has the effect of the protocol step, otherwise it is closed and gone |
| GatewayAttempt.Choose | internal/gateway/gateway.go:381-416 | the checks in their order, with the acknowledged number read when they run |
| GatewayAttempt.MakePatch | internal/gateway/gateway.go:431-437 | the acknowledged number is read a second time for the base, and the patch is cut against exactly that |
| GatewayAttempt.WriteRecord | internal/gateway/gateway.go:446-466 | bytes written, outcome stored and session after a complete or broken write, with others striking in between |
| GatewayAttempt.DeliverLatest | internal/gateway/gateway.go:365-467 | the whole attempt has the effect of its stages in order, for any disturbances before each of them |
| OneCall.Unwanted | internal/gateway/gateway.go:366-380 | a closed session, a failed query or nothing wanted: the call changes and writes nothing |
| OneCall.Waits | internal/gateway/gateway.go:381-403 | a failed rendering, a frame that has arrived, or a repeat before the interval is over: the call changes and writes nothing |
| OneCall.GivesUp | internal/gateway/gateway.go:385-393 | with nine attempts counted the assignment fails for good, and nothing is written |
| OneCall.Reconnects | internal/gateway/gateway.go:404-412 | after three attempts on the connection the row is in error and the session closed |
| OneCall.CannotRender | internal/gateway/gateway.go:417-428 | a rendering that fails is noted; it costs no attempt, and the connection stays |
| OneCall.CannotPrepare | internal/gateway/gateway.go:439-462 | an attempt that cannot be counted, or a record that cannot be built, leaves the row in error and the connection open |
| OneCall.Writes | internal/gateway/gateway.go:429-467 | the record written has the frame's own id, the next number and the change against what the tablet is known to show; row and session after a whole or broken write |
| Refinement.AttemptIsRun | internal/gateway/gateway.go:365-467 | every call of deliverLatest whose connection lasts, with any steps of others between its accesses to shared state, is a run of the state machine; a record put in flight is exactly the complete bytes written, and these read back as that record with its frame id and number |
| Refinement.RunIdentified | internal/store/store.go:310-348 | in every run all rows, and so all records in flight, have a frame id |
| Detachment.CutCallIsRun | internal/gateway/gateway.go:365-467 | every call whose connection is replaced or dropped before one of its stages leaves the table as a run does: its stages up to there, the end of the connection, then its remaining statements as stray ones, with any steps of others in between, those of the next connection included |
| Detachment.StraysAreRun | internal/gateway/gateway.go:382-467 | from any stage on, a call off its connection has exactly the effect of its stray statements on the table |
| Refinement.StageIsStep | internal/gateway/gateway.go:365-467 | each stage of the code changes table, session and wire as the protocol step of its name does |
| Refinement.CreateIsRun | internal/store/store.go:310-348 | one transaction inserts the rows of that many queue steps |
| DeliverLoop.Deliver | internal/gateway/gateway.go:348-361 | the loop makes attempts in a row up to the first that sends nothing, with their table, session and bytes; it ends under any clock and any interference, inside attempts and between them, with finitely many assignments, within three sends per assignment |
| DeliverLoop.LoopSettles | internal/gateway/gateway.go:348-361 | when nothing comes in around the last attempt and nothing fails there, an assignment still wanted at the end was tried on this connection |
| DeliverLoop.SendLowersLeft | internal/gateway/gateway.go:394-430 | every send lowers the attempts left at the newest assignment, unless new ones came in during the attempt |
| Delta.ChangedPrimitive | internal/gateway/gateway.go:469-505 | the nested loops find the smallest rectangle of whole bytes around the changes and cut it out |
| Delta.WholeFrame | internal/gateway/gateway.go:470-495 | the whole frame is taken when there is no previous one of the same size, or nothing has changed |
| Delta.PatchRestores | internal/gateway/gateway.go:469-505 | painting the patch over the previous frame gives the current one, for all frames of even width |
| Delta.PatchMinimal | internal/gateway/gateway.go:478-495 | any byte-aligned rectangle that does the same contains it |
| Delta.PaintFull | internal/gateway/gateway.go:471-474 | without a usable previous frame the primitive replaces the whole framebuffer |
| ImageMessage.ChangedValid | internal/pv3/image.go:75-84 | within 16-bit dimensions the patch always passes the primitive validation |
| ImageMessage.WireRoundTrip | internal/pv3/image.go:70-120 | reading any record built returns the UUID, sequence, frame id and primitives in order - for a frame id of 0 the checksum of all pixels, or 1 if that is 0 -, leaves the rest of the stream, and no embedded length was truncated |
| ImageMessage.PixelsConcatenate | internal/pv3/image.go:86-89 | the checksum is over the pixels of all primitives in their order |
| ImageMessage.BuildSucceeds | internal/pv3/image.go:70-120 | a record is built exactly if there is a primitive, all are valid, the compressor fails on no piece, and the payload is within the limit |
| ImageMessage.AlwaysBuilt | internal/pv3/image.go:70-120 | valid primitives of up to 16 MB are always built, however badly they compress |
| ImageMessage.BuildImagePrimitives | internal/pv3/image.go:70-120 | the buffers written in place hold the message and record the readers invert, or the error |
| ImageMessage.Validate | internal/pv3/image.go:74-84 | accepts exactly lists of valid primitives and adds up their encoded length |
| ImageMessage.EncodeLogical | internal/pv3/image.go:96-115 | header and primitives, written at running offsets |
| ImageMessage.ParseLogicalInverts | internal/pv3/image.go:96-115 | a strict reader gets every field of a logical message back |
| Lz4.CompressChunks | internal/pv3/image.go:12-42 | the chunk loop gives the serialised chunks of the source, or the compressor's error |
| Lz4.ChunkRoundTrip | internal/pv3/image.go:12-42 | for every byte string the chunks are numbered without a gap, hold at most 4800 bytes, decode, and concatenate to the source |
| Lz4.PayloadSucceeds | internal/pv3/image.go:12-42 | compression succeeds exactly if the compressor fails on no 4800-byte piece; each chunk holds the compressor's block, or literals only where the compressor gave up |
| Lz4.LiteralBlock | internal/pv3/image.go:50-64 | the fallback writes one literal-only sequence |
| Lz4.LiteralDecodes | internal/pv3/image.go:50-64 | it decodes to its source at every length, 15 and 255-step boundaries included |
| Lz4.PayloadBoundsSource | internal/pv3/record.go:50-53 | a payload within the record limit comes from less than 4 GiB of source |
| Lz4.SourceBoundsPayload | internal/pv3/image.go:12-42 | 16 MB of source always fit the record limit |
| Record.MarshalRecord | internal/pv3/record.go:50-66 | the buffer holds header, check word over the right part, and payload, or the record is refused |
| Record.Reader.ReadRecord | internal/pv3/record.go:23-48 | consumes exactly one record of the stream, or fails as the reader does |
| Record.ReadInvertsWire | internal/pv3/record.go:23-66 | reading what was marshalled returns it and stops behind it |
| Record.WireInvertsRead | internal/pv3/record.go:23-66 | every record read is the wire form of itself |
| Framebuffer.PackRows | internal/imageproc/image.go:172-190 | the packing loop puts the left pixel of each pair into the low nibble |
| Framebuffer.UnpackPack | internal/imageproc/image.go:172-190 | unpacking inverts packing |
| Framebuffer.PackUnpack | internal/imageproc/image.go:172-190 | packing inverts unpacking |
| Framebuffer.RotatePacked180 | internal/imageproc/image.go:196-202 | bytes reversed, nibbles swapped |
| Framebuffer.RotatedPixel | internal/imageproc/image.go:196-202 | pixel k of the turned frame is the k-th pixel from the end |
| Framebuffer.RotateTwice | internal/imageproc/image.go:196-202 | turning twice gives the frame back |
| Framebuffer.TouchMeetsPreview | internal/pv3/touch.go:37-42 | the framebuffer pixel at native touch coordinates is the preview's pixel at the physical ones |
| Dither.Quantize | internal/imageproc/image.go:276-280 | every pixel becomes the level of its own value |
| Dither.QuantizedNearest | internal/imageproc/image.go:276-280 | no other level is nearer, and levels stay put |
| Dither.DitherImage | internal/imageproc/image.go:301-325 | two swapped error rows give exactly the picture of the Floyd-Steinberg recursion, for any size |
| Dither.Error | internal/imageproc/image.go:301-325 | every diffused error lies within 8.5 |
| Dither.LossExactly | internal/imageproc/image.go:308-314 | only a value outside the gray range loses anything in clamping, and exactly what lies outside |
| Dither.Conservation | internal/imageproc/image.go:301-325 | gray in is gray out plus clamping losses, errors off the side edges and errors left below the last row |
| Dither.ToneKept | internal/imageproc/image.go:301-325 | apart from clamping a picture's tone changes by a bound on its border only |
| Fragment.EncodeFragment | internal/design/compiler.go:166-232 | the token loop accepts and emits what the specification of a fragment says |
| Fragment.FragmentAccepted | internal/design/compiler.go:166-232 | a fragment is accepted exactly if its one element at the top is a g, no element is forbidden, invalid, a widget or touchable, and there is nothing else but text and comments |
| Fragment.CleanedNodes | internal/design/compiler.go:210-226 | the elements keep their order and lose only data attributes; of the other tokens only comments go |
| Fragment.FragmentSplices | internal/design/compiler.go:166-232 | a fragment is spliced exactly if it is one allowed g, and then as that element without comments and data attributes, balanced |
| Substitution.ReplaceAll | internal/design/compiler.go:639-651 | the scan replaces every expression from left to right and lists the keys |
| Substitution.FirstReplaced | internal/design/compiler.go:639-651 | text in front of the first expression stays, its value takes its place, and the rest follows; its key is listed first |
| Substitution.PlainKept | internal/design/compiler.go:639-651 | text without an opening stays as it is |
| Substitution.ReplacedDefined | internal/design/compiler.go:652-654 | it succeeds exactly if all keys are known |
| Substitution.ReplacedReads | internal/design/compiler.go:639-659 | it reads no value but those of its own keys |
| HitBox.MulComposes | internal/design/compiler.go:238-244 | the matrix product is composition, for all points |
| HitBox.ParseTransform | internal/design/compiler.go:719-766 | a transform list gives the product of its functions, or an error exactly if one is unsupported |
| HitBox.SingleActs | internal/design/compiler.go:735-763 | translate, scale and matrix move every point as their names say, and anything else is an error |
| HitBox.ProductActs | internal/design/compiler.go:719-766 | a transform list acts on every point as its functions in turn, the last one first |
| HitBox.AccumulateComposes | internal/design/compiler.go:301-307 | a matrix accumulated over nested transforms is the composition of them all |
| HitBox.TransformRect | internal/design/compiler.go:687-701 | the corner loop gives the rounded extent of the transformed element |
| HitBox.BoundsContain | internal/design/compiler.go:687-701 | every point of the element, not just a corner, lies in the exact bounding box |
| HitBox.BoundsTouched | internal/design/compiler.go:687-701 | and every side of that box is touched |
| HitBox.BoxNearBounds | internal/design/compiler.go:698-699 | the integer box is less than a pixel off on every side, never starts late, and ends early at a far edge if and only if the fractions f of the scaled start and g of the scaled extent have g = 0 and f > 0, or f + g > 1 |
| HitBox.RightEdgeShort | internal/design/compiler.go:698-699 | an element whose right half pixel its hit box misses |
| HitBox.ViewCentred | internal/design/compiler.go:696-697 | the view box is scaled uniformly to fit and centred |
| Compiler.CompileXML | internal/design/compiler.go:258-508 | the token loop with its stack computes the compilation that the theorems are about |
| CompilerTree.FoldWalks | internal/design/compiler.go:270-496 | reading the tokens of a tree leaves the stack as it was, with any stack below and any tokens behind |
| Svg.BalancedIsTree | internal/design/compiler.go:270-496 | a token sequence is balanced if and only if it is that of an element tree |
| CompilerTree.WellNestedErasure | internal/design/compiler.go:270-496 | for every accepted balanced document the output is balanced and is the document with all pages but the first erased and dynamic parts replaced; without the erased pages it compiles to the same output, hit boxes and page |
| CompilerElements.Accepted | internal/design/compiler.go:277-455 | a start tag is accepted if and only if these conditions on its attributes, its parent and the document so far hold |
| CompilerElements.PlainAccepted | internal/design/compiler.go:471-490 | text, comments and instructions: what is refused, dropped, restyled or kept |
| CompilerElements.RootSized | internal/design/compiler.go:318-322 | the root gets the display's size and a default font, and keeps all else |
| CompilerElements.StripSplits | internal/design/compiler.go:619-627 | exactly the data attributes are removed, the others stay in order |
| CompilerElements.StaticWritten | internal/design/compiler.go:411-418 | a plain element is written with its attributes |
| CompilerElements.TextWritten | internal/design/compiler.go:411-459 | dynamic text is written as the text its expressions stand for |
| CompilerElements.CalendarWritten | internal/design/compiler.go:411-456 | a calendar is written as its group with the month drawn inside |
| CompilerElements.ModuleWritten | internal/design/compiler.go:411-446 | any other widget is moved to its place and its fragment shown through a viewport of its size |
| CompilerElements.CalendarInputs | internal/design/calendar.go:21-68 | when a calendar is refused, and the date, locale and month offset it is drawn from |
| CompilerElements.RegionNoted | internal/design/compiler.go:396-409 | a kept element with an action or region gets a numbered hit box with its own id, action and region |
| CompilerElements.WidgetNoted | internal/design/compiler.go:347-377 | every widget is noted with provider, id, place and size, in erased pages too |
| CompilerNotes.DepsExactly | internal/design/compiler.go:334-395 | a key is recorded if and only if an element's attributes name it: in its text, as a calendar's date, locale or paged offset, or the time for any other widget |
| CompilerNotes.CompiledNotes | internal/design/compiler.go:342-409 | for every accepted balanced document the recorded keys are exactly those the elements name, no two widgets share an id, and hit boxes carry strictly increasing order numbers |
| CompilerNotes.CompiledRefresh | internal/design/compiler.go:323-386 | for every accepted balanced document the refresh interval is the root's, capped at a minute by a navigable calendar anywhere in the document |
| CompilerTree.ErasureInvisible | internal/design/compiler.go:293-300 | an erased page contributes no token, no hit box and no order number |
| CompilerTree.PagesErased | internal/design/compiler.go:293-300 | exactly the first page in document order survives |
| CompilerTree.OnePageKept | internal/design/compiler.go:293-300 | a document with at most one page is left as it is |
| CompilerRegions.RegionsPlaced | internal/design/compiler.go:292-480 | for every accepted balanced document the boxes of all actions and regions are, in document order, those of the kept elements and their calendars, each under the product of the transforms of all ancestors and its own, bounded and rounded |
| Dependencies.DependencySoundness | internal/design/compiler.go:258-508 | values that agree on the recorded dependencies give the very same output, hit boxes, page and dependencies |
| Dependencies.LookReads | internal/design/compiler.go:334-395 | one element reads no value but those it records |
| Dependencies.CalendarReads | internal/design/calendar.go:21-68 | a calendar looks up the date, the locale and, if navigable, its own month offset, and nothing else |
| Dependencies.ValuesHash | internal/store/design.go:209-218 | the digest of all keys and values, each closed by a NUL |
| Dependencies.SerialFields | internal/store/design.go:209-218 | each key and each value is closed by a NUL, wherever it stands |
| Dependencies.SerialInjective | internal/store/design.go:209-218 | without NULs equal digest inputs mean equal values |
| Dependencies.HashesAgree | internal/store/design.go:209-218 | hashes are equal exactly if the values agree on the keys, missing ones included |
| Dependencies.ActiveDesign.Render | internal/design/service.go:225-299 | an unforced render is skipped exactly if the values agree with those of the stored hash, and then rendering would give that frame again; nothing is stored if compiling or queueing fails |
| Dependencies.StaleSkip | internal/design/service.go:285-292 | of three renders the last is skipped with an older frame's hash while a newer frame is queued exactly if the second frame differed, its hash was not saved, and the last values agree with the first |
| BatteryDesign.LevelsDiffer | internal/design/compiler.go:334-345 | a design with one text that shows the battery level: under any settings that accept it, two levels give different documents |
| BatteryDesign.StaleBattery | internal/design/service.go:285-292 | three renders of that design at 100, 99 and 100 percent, the second hash not saved: the third is skipped with the frame for 99 queued last |
| Dependencies.ActiveDesign.Assign | internal/store/design.go:115-126 | a new design forgets the hash |
| Retention.Database.PruneFrameHistory | internal/store/retention.go:14-37 | four deletions, with foreign keys valid after each |
| Retention.BelowNth | internal/store/retention.go:20-22 | an id is below the row at offset n exactly if more than n rows are newer |
| Retention.NewestKept | internal/store/retention.go:10-12 | exactly the newest 100 rows of a device and those of its displayed frame are kept |
| Retention.PrunedClean | internal/store/retention.go:14-37 | no dangling key, orphan image or unmatched claim is left, and a second run changes nothing |
| Retention.PendingUnchanged | internal/store/retention.go:14-37 | the pending frame is the same, image included |
| Retention.ReconcileCommutes | internal/store/retention.go:14-37 | reconciling before or after pruning gives the same database |
| Retention.TouchUnchanged | internal/store/retention.go:23-31 | a touch map disappears exactly with an obsolete row, never for the frame on display |
| Retention.TouchNewest | internal/store/design.go:257-268 | the touch map read for a frame is that of its newest assignment with one |
| Retention.NewestIsKept | internal/store/retention.go:20-22 | the newest row of a device survives, as the delivery protocol requires of pruning |
| Retention.OrderMatters | internal/store/retention.go:23-28 | deleting assignments before their touch maps would be refused exactly if an obsolete row has one |
| EventStream.Hub.Publish | internal/events/hub.go:34-43 | every channel with room gets the event, a full one drops it, nobody waits |
| EventStream.Hub.Subscribe | internal/events/hub.go:17-32 | a fresh, empty channel beside the others |
| EventStream.Hub.Cancel | internal/events/hub.go:24-31 | removes exactly the one subscriber |
| EventStream.Replay | internal/httpapi/api.go:355-373 | the paging loop ends and sends every event above the resume id that its last query could see, once and in order |
| EventStream.SentIncreases | internal/httpapi/api.go:341-391 | for any interleaving the ids sent strictly increase above the resume id |
| EventStream.Delivered | internal/httpapi/api.go:341-391 | without overflow or failed query an event is sent exactly unless, after the replay, a larger id was published before it |
| EventStream.ExactlyOnce | internal/httpapi/api.go:341-391 | with publication in id order every event above the resume id is sent exactly once |
| EventStream.OutOfOrderLoses | internal/httpapi/api.go:383-389 | two events published in the wrong order: the lower one is never sent |
| Calendar.EmitCells | internal/design/calendar.go:102-141 | the 42-cell loop draws the cells the theorems are about |
| Calendar.CellsDrawn | internal/design/calendar.go:102-141 | with spillover all 42 cells are drawn, otherwise those inside the month, in order of their places |
| Calendar.WeekdaysFollow | internal/design/calendar.go:93-107 | 1 January 1970 is a Thursday, and weekdays follow each other from day to day |
| Calendar.EveryDayOnce | internal/design/calendar.go:102-141 | every day of the month stands in exactly one cell, for either week start, and today is marked where it stands |
| Calendar.CellShows | internal/design/calendar.go:109-114 | a cell is marked as outside exactly if it shows no day of the month |
| Calendar.ColumnsMatch | internal/design/calendar.go:93-107 | every cell stands under the name of its own Gregorian weekday |
| Calendar.ShownMonth | internal/design/calendar.go:53-63 | the month asked for is shown exactly if it has the day, otherwise the next one |
| Calendar.FebruarySkipped | internal/design/calendar.go:62 | one month after 31 January is March |
| WidgetEvents.FindRegion | internal/design/service.go:356-367 | the region hit is the one drawn last among those under the point |
| WidgetEvents.HandleEvent | internal/design/service.go:411-435 | the new offset lies within a year for any stored one, and unknown events are errors |
| WidgetEvents.EventsMove | internal/design/service.go:416-431 | next, previous and today move any stored offset by one on, one back and to 0, and stop at a year |
| WidgetEvents.ReadPends | internal/design/service.go:346-367 | a touch leads to an event exactly if the frame's touch map has a widget's region there |
| WidgetEvents.ConsumeMoves | internal/design/service.go:375-400 | a claim taken before does nothing; a new one is handled, and moves the offset of its own calendar only |
| WidgetEvents.EventsUndo | internal/design/service.go:416-431 | within the range next and previous undo each other |
| WidgetEvents.HandledOnce | internal/design/service.go:375-407 | over any touches, renders, expiries and prunes in which no prune drops a frame between a touch's read and its claim, each widget event is handled at most once per device and frame, and offsets stay in range |
| WidgetEvents.HandledAgainExactly | internal/store/design.go:162-169 | a touch on an event handled before ends with the event handled again if and only if a prune between its read and its claim dropped the frame |
| WidgetEvents.HandledTwice | internal/store/retention.go:32-33 | a run that handles one event twice |

## Left out

- TCP, deadlines, goroutine start-up, SQL text, JSON, logging, emitted events and the wording of errors.
- Timestamps: the retry interval is a yes or no chosen by the environment; ages of events and states are not modelled.
- `PruneEventHistory`: events are not deleted while a stream replays.
- In the state machine a first status one of whose statements fails is the statement that succeeded and a disconnect.
- `MarkAcknowledged` and `MarkDelivered` select a row and then update it by id: one step each here.
- The check of the closed flag and the snapshot of the status at the start of an attempt are one step.
- On receipt, `MarkAcknowledged` and `noteAcknowledged` are one step, and so are the status assignment and
  `advanceSequence`, which the code does one after the other.
- Bytes that a replaced connection still delivers; statements its goroutines still issue are in the model.
- Detachment.CutCallIsRun: says what such a call does to the table; its own session and the bytes it still writes end with the connection.
- Several devices at once: other devices' rows are in the table, their tablets are not.
- `resample`, `vssBeautify`, decoding, fitting and the rotation setting: a frame is any buffer of the right size.
- Floating-point rounding in dithering and hit boxes: both are over real numbers.
- SVG rasterisation, fonts, and the allow-lists of `validateAttrs` and `validateStyle`, which are parameters.
- Lexing of numbers, transforms and durations, and `elementRect`: parameters of `Compiler.Settings`.
- The text and positions `emitCalendar` draws: a function of the attributes, the date, the locale and the month offset; the grid is in `Calendar`.
- Dependencies.ActiveDesign.Render: takes the values as collected; that expired calendar states are dropped before is not modelled.
- A widget's offset is read and stored in the step that claims the event.
- XML encoder errors, and documents whose tokens are not balanced, which the decoder refuses.
- Module widgets that give different output at different times: a fragment is a function of its widget.
- Fragment and document size limits, and the REST handlers, configuration and actions.
- EventStream.Replay: assumes that the table only grows while it is read.
