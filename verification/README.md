# Verified model of Hey Robot

Hey Robot connects language-driven agents to robots.  This project models the parts of it
that keep durable state, move bytes between formats or run as stepwise protocols, and proves
what they promise.  One module stands for one component:

| module | component |
|---|---|
| `RunLog`, `RunLogProofs`, `StoredEvents`, `RunStore` | the durable log of a skill run: torn-tail repair, duplicate detection, externalised results, crashes |
| `Messages`, `MessagesProofs`, `MessageUniverse`, `MessageReading` | the type-directed message decoder over an unbounded universe of types |
| `EventStore` | the bounded event file and its backward block reader |
| `ServoWords`, `SyncRead`, `SyncWrite`, `ServoBus`, `MobileBase` | servo words, the resynchronising frame scanner, batched tables, the three-wheel base |
| `Iou`, `TrackerSpec`, `Tracker`, `FollowRun` | person tracking and the follow loop |
| `FollowSessions` | the session protocol between the follow client and the follow service |
| `ControlPlane` | the execution boundary in front of the robot driver |
| `TypedArchive` | the typed tree archive |
| `Wire`, `Asr`, `Tts` | the speech wire formats |
| `TrialService` | the simulator's trial service and its event ledger |
| `Text`, `Lists`, `Numbers`, `Numbering`, `Wrappers` | lines, numerals, lists, clamping, a codec that satisfies the laws assumed of JSON, options and results |

Objects that update their fields are classes; each of their methods is proved against a
function of the old state, and the laws are proved about those functions.  Interleavings of
concurrent calls are runs of a state machine whose steps are the stretches of code between two
points where another coroutine can run.

## What the proofs show about the code

Some promises do not hold for every input.  In each case the code is modelled as it is and the
exact condition is proved.

- A crash that writes a complete record but not its newline leaves a record that is read as
  valid; the next write onto it makes both unreadable while the append reports success
  (`LostNewlineIff`, `RunShrinksIff`).
- A crash after a complete record and before `result.json` leaves a stale result that appending
  the same event again does not repair (`StaleResultIff`).  After any number of crashes it is
  stale exactly when such a crash was not followed by a settled terminal record (`StrandedIff`).
- The duplicate test accepts a different event with the same number whenever its outcome is the
  same: data and time never count, observations do not once a trace was stored
  (`DuplicateAcceptedIff`).
- A union in which an earlier arm accepts what a later arm sends does not round trip, and
  neither does an untyped part that is not plain (`RoundTripIff`, `FloatBeforeIntIsAmbiguous`).
  A skill result with a tuple in its metadata loses it on the way through JSON
  (`MetadataTupleIsLost`, `PointSurvivesUnlessJson`).
- The frame scanner loses a valid frame behind an odd number of back-to-back headers
  (`ScanIff`, `SwallowedIff`).
- `SyncReadPos` reports the raw unsigned word, `ReadPos` the signed one (`RawEqualsSignedIff`).
- `sync_write_positions` answers true whatever the write returned (`SyncWritePositions`).
- A control action, alone or in a policy result, can start after its deadline, because the
  deadline is checked before the preempting stop and before the lock is awaited (`LateStartIff`).
- A start command that names an unknown robot is never answered (`UnknownRobotNeverAnswered`).
- A TTS message for the connection-started event can be written but never read back
  (`MessageRoundTripIff`).
- The frame counter of a trial falls behind the simulator by every admitted step that raised or
  whose observation was refused (`FrameAgreesIff`).
- A begin whose response cannot be built reports failure and leaves the trial active and the
  backend held (`FailedBeginIff`).  A step whose response cannot be built reports failure
  although its action is recorded and the frame has moved (`FailedStepIff`).
- A typed archive is written for arrays and NumPy scalars that do not load back as they were,
  such as arrays of objects; the tree is then not recovered (`EncodeTypedNpz`).

## Model

| member | source | states |
|---|---|---|
| `RunLogProofs.RunRefinesList` | `src/hey_robot/persistence/run_store.py:95-164` | over every run of appends, reads and crashes at any point, the log text reads back as the list a plain list machine holds, which only has to remember whether the last record lost its newline |
| `RunLogProofs.RunShrinksIff` | `src/hey_robot/persistence/run_store.py:95-164` | over every run, nothing readable is ever lost exactly when no step writes onto a record that lost its newline in a crash |
| `RunLogProofs.StepShrinksIff` | `src/hey_robot/persistence/run_store.py:95-164` | one step loses something readable exactly when it writes at least one character onto such a record |
| `RunLogProofs.DurableRun` | `src/hey_robot/persistence/run_store.py:95-164` | over every run without such a write: what was readable before stays a prefix, every acknowledged event is there in order, at most one further event per crash, sequences strictly increase |
| `RunLogProofs.StepAdds` | `src/hey_robot/persistence/run_store.py:95-164` | one step adds at most one event; an append adds exactly the event it acknowledges |
| `RunLogProofs.ReadRendered` | `src/hey_robot/persistence/run_store.py:135-164` | complete records followed by a torn one read back as the complete records, the torn one is the only one dropped |
| `RunLogProofs.LostNewlineIff` | `src/hey_robot/persistence/run_store.py:95-164` | the append after a crash always reports success, and extends what was recovered exactly when the crash did not lose a complete record's newline |
| `RunLogProofs.GluedAppend` | `src/hey_robot/persistence/run_store.py:108-116` | a record missing only its newline is read as valid, and the next accepted append makes both unreadable |
| `RunLogProofs.RetryIsIdempotent` | `src/hey_robot/persistence/run_store.py:95-116` | appending the last accepted event again, pinned or moved to an artifact or not, returns its stored form, leaves every file alone and creates no artifact |
| `RunLogProofs.RetryOfStored` | `src/hey_robot/persistence/run_store.py:95-116` | the same from any log whose last record is the stored form, with a torn tail that the retry removes |
| `RunLogProofs.StoredAnswersForEvent` | `src/hey_robot/persistence/run_store.py:187-300` | whatever externalising did to an event, the duplicate test accepts the original against the stored form |
| `RunLogProofs.OlderEventRefused` | `src/hey_robot/persistence/run_store.py:99-107` | an event older than the last stored one is refused, with nothing lost or created |
| `RunLogProofs.DuplicateAcceptedIff` | `src/hey_robot/persistence/run_store.py:95-116` | after an accepted append, an event with the same number is answered like it exactly when it is the stored event or has the same outcome, where data, time and, once a trace is stored, observations do not count; nothing is written either way |
| `RunLogProofs.MatchesIff` | `src/hey_robot/persistence/run_store.py:268-300` | the duplicate test against the stored form, in terms of the two events as submitted |
| `RunLogProofs.ExternalizeKeeps` | `src/hey_robot/persistence/run_store.py:187-266` | externalising changes only pinned uris, data and the artifact list; trace keys never stay in the log and the entry left behind names the artifact |
| `StoredEvents.AppendStores` | `src/hey_robot/persistence/run_store.py:95-266` | an accepted append stores the event with every observation at the uri it was pinned to; data that is over the inline limit or has a trace key moves to one artifact and leaves behind exactly its seven named facts with their values, the number of its steps if they are a list, and the artifact's uri, and any other data stays as it is; result.json is the stored result |
| `StoredEvents.AppendRefusedIff` | `src/hey_robot/persistence/run_store.py:95-120` | a new event is refused exactly when its data has to move and storing it raises, or when its stored form cannot be encoded; events and result.json then stay |
| `StoredEvents.CorruptRefusedIff` | `src/hey_robot/persistence/run_store.py:145-152` | an append is refused for corruption exactly when a line that does not decode stands before another record, with the number of the first such line, and changes nothing |
| `RunLogProofs.CrashFreeResult` | `src/hey_robot/persistence/run_store.py:114-120` | without crashes result.json is the result of the last terminal event in the log |
| `RunLogProofs.StaleResultIff` | `src/hey_robot/persistence/run_store.py:99-120` | after a crash at any point result.json agrees with the log unless the record was complete, with or without its newline, result.json was not yet replaced and the new result differs; a retry does not repair it |
| `RunLogProofs.RunResultIff` | `src/hey_robot/persistence/run_store.py:99-120` | over every run, with any number of crashes and whatever they cut or glue, whether result.json agrees with the log is settled step by step by the guards of the steps alone |
| `RunLogProofs.StrandedIff` | `src/hey_robot/persistence/run_store.py:99-120` | over every run that glues nothing, result.json agrees with the log in the end exactly when no crash left a complete terminal record with a different result unreplaced after which no terminal record was settled |
| `RunLogProofs.LawsAreConsistent` | `src/hey_robot/persistence/run_store.py:109-111` | a codec that satisfies the laws assumed of JSON exists for any given events |
| `RunStore.FileRunStore.ReadEvents` | `src/hey_robot/persistence/run_store.py:129-164` | the reading loop computes the reading of the text and rewrites the file only to drop a torn tail |
| `RunStore.FileRunStore.PinObservations` | `src/hey_robot/persistence/run_store.py:191-209` | one reference per observation, in order, with the same image hash |
| `RunStore.FileRunStore.ExternalizeTerminalResult` | `src/hey_robot/persistence/run_store.py:187-266` | the stored form and the artifacts created, or the failure that leaves no artifact |
| `RunStore.FileRunStore.AppendEvent` | `src/hey_robot/persistence/run_store.py:95-116` | an append has the answer, the files and the artifacts of the specified append, in that run's directory only |
| `RunStore.FileRunStore.RecordSubmission` | `src/hey_robot/persistence/run_store.py:78-87` | the first submission of a run wins; only an equal command is accepted again |
| `RunStore.FileRunStore.WriteFresh` | `src/hey_robot/persistence/run_store.py:108-116` | externalise, write the record, then the result: the specified files, artifacts and answer |
| `RunStore.FileRunStore.constructor` | `src/hey_robot/persistence/run_store.py:66-76` | a new store is empty and its inline limit is the given one, but at least 1024 |
| `MessagesProofs.DecodeSound` | `src/hey_robot/protocol/messages.py:327-434` | every successful decode is a well-typed value that passes the cross-field checks, provided that message objects already inside the payload do |
| `MessagesProofs.RoundTripIff` | `src/hey_robot/protocol/messages.py:323-403` | decoding the payload of a well-typed value returns it exactly when no union inside it has an earlier arm that accepts the payload as something else, and everything handed on undecoded is plain |
| `MessagesProofs.SeparatedIsUnambiguous` | `src/hey_robot/protocol/messages.py:357-366` | where earlier union arms refuse later arms by shape or by an unknown field, no value is ambiguous |
| `MessagesProofs.RoundTrip` | `src/hey_robot/protocol/messages.py:323-403` | over separated classes a well-typed value survives encoding and decoding exactly when its untyped parts are plain |
| `MessagesProofs.RefusesIsSound` | `src/hey_robot/protocol/messages.py:357-403` | an arm that refuses another by shape or unknown field rejects every payload of that arm |
| `MessagesProofs.UnknownFieldRejected` | `src/hey_robot/protocol/messages.py:331-334` | a payload with one unknown field never decodes |
| `MessagesProofs.MissingFieldRejected` | `src/hey_robot/protocol/messages.py:337-341` | a payload without a required field never decodes |
| `MessagesProofs.FloatBeforeIntIsAmbiguous` | `src/hey_robot/protocol/messages.py:389-396` | a union that lists float before int turns every integer into a float |
| `MessagesProofs.StatusSourceIff` | `src/hey_robot/protocol/messages.py:410-417` | robot status evidence is accepted exactly for source ids of the form status:<robot without colon>:<frame> |
| `MessageReading.RecordAcceptedIff` | `src/hey_robot/protocol/messages.py:327-347` | an object payload is accepted exactly when all its keys are fields, every field reads from the entry of its name or takes its default where there is none, and the message passes its checks |
| `MessageReading.UnionAcceptedIff` | `src/hey_robot/protocol/messages.py:357-368` | a union takes what its first accepting arm makes of the payload |
| `MessageReading.ArrayAcceptedIff` | `src/hey_robot/protocol/messages.py:373-378` | an array is accepted, from a list or a tuple, exactly when all its items are |
| `MessageReading.ScalarAcceptedIff` | `src/hey_robot/protocol/messages.py:350-403` | a value is accepted as it is exactly where it has the type asked for, an integer also as a float, and None only where the union says so |
| `MessageReading.DecodeMirrors` | `src/hey_robot/protocol/messages.py:327-403` | whatever is accepted has the content of its payload: the same values, floats for integers, arrays item by item, messages field by field with defaults for missing entries |
| `MessageReading.ResultAcceptedIff` | `src/hey_robot/protocol/messages.py:418-429` | a skill result whose fields read is accepted exactly when completed goes with success true, failed and interrupted with false, unknown with none, and every evidence fact has the source kind skill_result and the result's skill_id as its source |
| `MessageReading.ControlAcceptedIff` | `src/hey_robot/protocol/messages.py:430-434` | a control result whose fields read is accepted exactly when it is completed if and only if the robot was confirmed idle |
| `MessageReading.EvidenceAcceptedIff` | `src/hey_robot/protocol/messages.py:407-417` | an evidence fact whose fields read is accepted exactly when its three ids are not empty and a robot status has a frame and the source id status:<robot without colon>:<frame> |
| `MessageUniverse.UniverseIsWellFormed` | `src/hey_robot/protocol/messages.py:31-308` | field names of the evidence and result classes are distinct and every default is a value of its type |
| `MessageUniverse.UniverseIsSeparated` | `src/hey_robot/protocol/messages.py:31-308` | no union in those classes is ambiguous |
| `MessageUniverse.ProtocolRoundTrip` | `src/hey_robot/protocol/messages.py:242-347` | evidence, skill results and control results survive encoding and decoding exactly when their metadata dictionaries hold plain values |
| `MessageUniverse.MetadataTupleIsLost` | `src/hey_robot/protocol/messages.py:323-403` | no skill result with a tuple in its metadata survives JSON |
| `MessageUniverse.PointSurvivesUnlessJson` | `src/hey_robot/protocol/messages.py:323-403` | for every point there is such a well-typed skill result, which survives encoding and decoding without JSON and not with it |
| `EventStore.TailLines` | `src/hey_robot/events/store.py:70-87` | for every file, limit and positive block size the backward block reader returns exactly the last lines of the whole file |
| `EventStore.TailInSuffix` | `src/hey_robot/events/store.py:79-87` | a suffix holding more newlines than the limit already determines the last lines |
| `EventStore.LinesBehind` | `src/hey_robot/events/store.py:79-87` | text put in front of a suffix changes no line of it but the first |
| `EventStore.RuntimeEventStore.Append` | `src/hey_robot/events/store.py:26-32` | an append adds one line to the unbounded history, or completes an unterminated line found at the start, and keeps the file a bounded suffix of that history; an event that JSON refuses leaves the history alone and at most makes an empty file |
| `EventStore.RuntimeEventStore.Trim` | `src/hey_robot/events/store.py:59-67` | trimming keeps at most max_items lines, always the newest ones |
| `EventStore.RuntimeEventStore.Recent` | `src/hey_robot/events/store.py:34-48` | recent(k) gives the events on the last min(max(1, k), max_items) lines of the whole history, as if nothing had been trimmed, whatever file was found at the start |
| `EventStore.LastEvents` | `src/hey_robot/events/store.py:34-48` | in a history of well-formed records those are exactly the last events |
| `EventStore.EveryLineCounts` | `src/hey_robot/events/store.py:38-57` | wherever it stands, a line adds its own event if it is not blank and decodes, and counts unless it is blank; it hides no other line |
| `EventStore.LawIsConsistent` | `src/hey_robot/events/store.py:26-48` | a codec that satisfies the law assumed of JSON exists for any given events of any type |
| `EventStore.AppendLine` | `src/hey_robot/events/store.py:26-28` | appending a record to any text adds its line, or extends the last line where that is unterminated |
| `EventStore.CutText` | `src/hey_robot/events/store.py:59-67` | a rewritten text has exactly the last lines, all terminated |
| `EventStore.RuntimeEventStore.Payloads` | `src/hey_robot/events/store.py:38-48` | every nonblank line that decodes is kept, in order, and nothing else |
| `EventStore.RuntimeEventStore.constructor` | `src/hey_robot/events/store.py:11-24` | the history starts as the lines of the file found |
| `EventStore.RuntimeEventStore.Count` | `src/hey_robot/events/store.py:50-57` | the nonblank lines of the file are counted; between calls the file has at most max_items + trim_every - 1 lines, and at least max_items once anything was trimmed |
| `ServoWords.WordRoundTripIff` | `src/hey_robot/robot_hardware/sms_sts.py:89-126` | sign-magnitude packing through byte split and join is the identity exactly on -32767..32767, in both byte orders |
| `ServoWords.SplitJoin` | `src/hey_robot/robot_hardware/sms_sts.py:101-126` | splitting a word into bytes and joining them gives the word modulo 65536 |
| `ServoWords.DwordRoundTrip` | `src/hey_robot/robot_hardware/sms_sts.py:106-116` | two words joined into a double word come back as themselves |
| `ServoWords.RawEqualsSignedIff` | `src/hey_robot/robot_hardware/sms_sts.py:473-477` | the unsigned word SyncReadPos reports equals what ReadPos would report exactly when bit 15 is clear |
| `SyncRead.ScanSound` | `src/hey_robot/robot_hardware/sms_sts.py:271-308` | a successful scan has found a contiguous FF FF id length error data checksum frame with a right checksum, and returns its error and data |
| `SyncRead.ScanComplete` | `src/hey_robot/robot_hardware/sms_sts.py:271-308` | a whole valid frame is found unless an earlier header has the right length byte or ends inside the frame |
| `SyncRead.ScanIff` | `src/hey_robot/robot_hardware/sms_sts.py:271-308` | for every servo id but 0xFF the scan succeeds exactly when the first header it takes with the right length byte starts a valid frame; of headers standing back to back it takes every second one |
| `SyncRead.SwallowedIff` | `src/hey_robot/robot_hardware/sms_sts.py:289-294` | a valid frame that is the only one with its length byte is lost exactly when an odd number of headers stands back to back directly before it |
| `SyncRead.SwallowedFrame` | `src/hey_robot/robot_hardware/sms_sts.py:289-294` | one such buffer: a header with a wrong length byte right before a valid frame |
| `SyncRead.SeekHeader` | `src/hey_robot/robot_hardware/sms_sts.py:278-289` | the shift register stops just after the first header |
| `SyncRead.ReadFrame` | `src/hey_robot/robot_hardware/sms_sts.py:295-307` | error, data and checksum are read as the specification judges them |
| `SyncRead.ReadRx` | `src/hey_robot/robot_hardware/sms_sts.py:271-308` | the scanner loop ends in bounds and returns the specified scan |
| `SyncRead.GroupSyncRead.RxPacket` | `src/hey_robot/robot_hardware/sms_sts.py:246-263` | every requested servo keeps its entry or gets its own frame in the reply; the code is that of the last scan, and last_result says whether every servo was found |
| `SyncRead.GroupSyncRead.IsAvailable` | `src/hey_robot/robot_hardware/sms_sts.py:310-323` | data is available exactly for a requested servo, an address range inside the block and a long enough reply |
| `SyncRead.GroupSyncRead.SyncReadPos` | `src/hey_robot/robot_hardware/sms_sts.py:541-563` | the servos already listed and the new ones are requested, exactly those that answered in this call are reported, each with the first two data bytes of its own frame as its position, and no reply is left behind |
| `SyncRead.PositionsAreTruthful` | `src/hey_robot/robot_hardware/sms_sts.py:541-563` | every reported position is the low and high byte that start the data of a whole valid frame of that servo in the buffer; for every id but 0xFF a listed servo is reported with w exactly when the first header that the scanner takes with the right length byte starts such a frame that says w |
| `SyncRead.GroupSyncRead.AddParam` | `src/hey_robot/robot_hardware/sms_sts.py:218-223` | a servo is added once, with an empty reply |
| `SyncRead.GroupSyncRead.ClearParam` | `src/hey_robot/robot_hardware/sms_sts.py:231-232` | nothing is requested and no reply is stored |
| `SyncRead.GroupSyncRead.TxPacket` | `src/hey_robot/robot_hardware/sms_sts.py:234-244` | the request lists the current table |
| `SyncRead.GroupSyncRead.Positions` | `src/hey_robot/robot_hardware/sms_sts.py:547-561` | exactly the listed servos with a stored reply are reported, each with the first two data bytes of its frame as its position |
| `SyncWrite.ParseEncodeIff` | `src/hey_robot/robot_hardware/sms_sts.py:524-539` | the block is received as the targets exactly when ids and accelerations are bytes, speeds 0..65535 and positions -32767..32767 |
| `SyncWrite.SendableIff` | `src/hey_robot/robot_hardware/sms_sts.py:394-404` | the block has eight numbers per servo and consists of bytes exactly when every id and acceleration is one |
| `SyncWrite.BlockOfTargets` | `src/hey_robot/robot_hardware/sms_sts.py:357-365` | the block built from a table of encoded targets is the encoding of the targets in table order |
| `SyncWrite.GroupSyncWrite.AddParam` | `src/hey_robot/robot_hardware/sms_sts.py:367-374` | a packet is added only for a new servo and when it is not too long |
| `SyncWrite.GroupSyncWrite.ChangeParam` | `src/hey_robot/robot_hardware/sms_sts.py:382-389` | a packet is changed only for a known servo and when it is not too long |
| `SyncWrite.GroupSyncWrite.RemoveParam` | `src/hey_robot/robot_hardware/sms_sts.py:376-380` | only the named servo leaves the table, the others keep their order |
| `SyncWrite.GroupSyncWrite.MakeParam` | `src/hey_robot/robot_hardware/sms_sts.py:357-365` | the block is rebuilt from the current table, up to the first empty packet |
| `SyncWrite.GroupSyncWrite.TxPacket` | `src/hey_robot/robot_hardware/sms_sts.py:394-404` | what is sent is built from the current table |
| `SyncWrite.GroupSyncWrite.SyncWritePosEx` | `src/hey_robot/robot_hardware/sms_sts.py:524-539` | what is sent is the encoding of exactly the given targets, whatever the table held before |
| `ServoBus.Bus.WriteSpeed` | `src/hey_robot/robot_hardware/servo_bus.py:130-137` | the answer is the confirmation; a delivered write sets that wheel's register to the clamped speed and no other |
| `ServoBus.Bus.SetWheelMode` | `src/hey_robot/robot_hardware/servo_bus.py:109-128` | the answer is true exactly when one of three attempts has its unlocking, four limits and mode confirmed; the servo is then in wheel mode with zero limits; no other servo is touched |
| `ServoBus.Bus.TryWheelMode` | `src/hey_robot/robot_hardware/servo_bus.py:111-126` | one attempt succeeds exactly when its unlocking, four limits and mode are confirmed, and leaves the servo in wheel mode with zero limits |
| `ServoBus.Bus.SyncWritePositions` | `src/hey_robot/robot_hardware/servo_bus.py:152-162` | the block sent is received as the targets, with positions limited to 0..4095 and nothing else changed, exactly when ids, speeds and accelerations are in range; the answer only says whether the bus is connected |
| `ServoBus.Bus.WriteByte` | `src/hey_robot/robot_hardware/servo_bus.py:193-201` | the answer is the confirmation; a delivered write sets that byte register and no other |
| `ServoBus.Bus.ClearLimits` | `src/hey_robot/robot_hardware/servo_bus.py:115-123` | success leaves all four limit bytes zero and touches no other servo |
| `MobileBase.StillIsZero` | `src/hey_robot/robot_hardware/mobile_base.py:182-187` | a still base has zero in every wheel register |
| `MobileBase.WheelsAre` | `src/hey_robot/robot_hardware/mobile_base.py:173-180` | forward motion turns the front wheels against each other and leaves the rear one, sideways motion turns the rear wheel at full and the front ones at half speed against it, turning turns all three alike, and a mixed motion is the sum |
| `MobileBase.ServoSpeedIs` | `src/hey_robot/robot_hardware/mobile_base.py:182-187` | a register is the wheel's share of the default value cut towards zero and limited to 3250 either way, and zero without a linear limit |
| `MobileBase.ClampedIs` | `src/hey_robot/robot_hardware/mobile_base.py:190-191` | a velocity is limited component by component, the linear ones to the linear and the turn to the angular limit |
| `MobileBase.KinematicsInverse` | `src/hey_robot/robot_hardware/mobile_base.py:173-180` | every triple of wheel speeds has exactly one body velocity, given explicitly |
| `MobileBase.BodyOfWheels` | `src/hey_robot/robot_hardware/mobile_base.py:173-180` | the explicit inverse recovers the commanded body velocity |
| `MobileBase.WheelEnergy` | `src/hey_robot/robot_hardware/mobile_base.py:173-180` | the squared wheel speeds sum to the same measure of body speed in every direction |
| `MobileBase.LeKiwiBase.StopBase` | `src/hey_robot/robot_hardware/mobile_base.py:113-142` | a zero is sent to all three wheels even after a failed write, and zero velocity is reported |
| `MobileBase.LeKiwiBase.SetBaseVelocity` | `src/hey_robot/robot_hardware/mobile_base.py:57-111` | success leaves the clamped velocity reported and its image in every wheel; the first failed write ends in zeros to all wheels and zero velocity reported |
| `MobileBase.LeKiwiBase.Drive` | `src/hey_robot/robot_hardware/mobile_base.py:57-142` | after any sequence of calls whose last one succeeded, every wheel register is the image of the reported velocity |
| `MobileBase.LeKiwiBase.Initialize` | `src/hey_robot/robot_hardware/mobile_base.py:27-55` | the answer is true exactly when the bus is connected, every wheel answers and every wheel mode is confirmed; every wheel is then in wheel mode and zero velocity reported; the wheels are still when the final stop, whose answer is ignored, was confirmed |
| `Iou.IouFacts` | `src/hey_robot/human_follow/perception.py:246-261` | IoU is symmetric, in [0, 1], positive exactly for boxes that overlap with area, and 1 exactly for equal nonempty boxes |
| `Iou.IouIs` | `src/hey_robot/human_follow/perception.py:246-268` | the ratio is positive exactly when the boxes have a cell in common, and times the area of the union it is the area of the common box |
| `Iou.CommonCells` | `src/hey_robot/human_follow/perception.py:246-256` | the common box has exactly the common cells |
| `Iou.AreaIs` | `src/hey_robot/human_follow/perception.py:28-31` | the area is that of the sides, and zero where they are crossed |
| `TrackerSpec.GreedyIsOneToOne` | `src/hey_robot/human_follow/perception.py:206-237` | no detection is matched to two targets |
| `TrackerSpec.GreedyIsUnique` | `src/hey_robot/human_follow/perception.py:206-237` | the best-among-unclaimed description determines the matching |
| `TrackerSpec.ConservationIff` | `src/hey_robot/human_follow/perception.py:186-204` | the current targets carry exactly the detections, as a multiset, if and only if max_age >= 1 or nothing was detected |
| `TrackerSpec.UpdatingIsGood` | `src/hey_robot/human_follow/perception.py:43-53` | after an update targets are in the strict order of their ids, histories have 1 to 10 boxes and end in the current box |
| `TrackerSpec.UpdatedIff` | `src/hey_robot/human_follow/perception.py:186-204` | exactly these targets are there after an update, as far as they were missed fewer times than the limit: every old one, moved to its detection with the last ten boxes as its history or missed once more, and one with the next id for every detection left over |
| `TrackerSpec.UniformMotionPredicted` | `src/hey_robot/human_follow/perception.py:65-76` | a box that moved by the same step in every recorded frame is predicted one step ahead |
| `TrackerSpec.DriftEnds` | `src/hey_robot/human_follow/perception.py:65-73` | the summed drift over a history is where it ends seen from where it began |
| `TrackerSpec.AimedAt` | `src/hey_robot/human_follow/perception.py:216-218` | a target seen in the last update, or with a short history, is looked for at its box, any other where the mean step of its corners puts it, cut towards zero |
| `Tracker.Target.Update` | `src/hey_robot/human_follow/perception.py:43-50` | a matched target takes the detection, is no longer missing and remembers at most ten boxes |
| `Tracker.Target.MarkMissed` | `src/hey_robot/human_follow/perception.py:52-53` | a missed target only counts one more miss |
| `Tracker.TargetTracker.AdvanceTargets` | `src/hey_robot/human_follow/perception.py:188-191` | matched targets take their detection, the others count a miss |
| `Tracker.TargetTracker.CreateTargets` | `src/hey_robot/human_follow/perception.py:192-204` | each unclaimed detection becomes a new target with a fresh id |
| `Tracker.TargetTracker.DropOld` | `src/hey_robot/human_follow/perception.py:194-196` | exactly the targets missing for less than max_age are kept, in order |
| `Tracker.TargetTracker.BestFor` | `src/hey_robot/human_follow/perception.py:216-228` | a single pass finds the first unclaimed detection with the greatest overlap above min_iou |
| `Tracker.TargetTracker.Match` | `src/hey_robot/human_follow/perception.py:206-237` | every target gets the best detection that earlier targets left, or none |
| `Tracker.TargetTracker.SelectPrimary` | `src/hey_robot/human_follow/perception.py:239-243` | the primary is the first current target with the best score, or none when nothing is current |
| `Tracker.ScoreIs` | `src/hey_robot/human_follow/perception.py:239-243` | the score is the area times the confidence, which counts as a tenth at least |
| `Tracker.LargerAndSurer` | `src/hey_robot/human_follow/perception.py:239-243` | a target that is no smaller and no less sure never scores lower |
| `Tracker.TargetTracker.Update` | `src/hey_robot/human_follow/perception.py:186-198` | one frame: greedy matching, the specified new target list with conserved detections, and a primary exactly when something was detected |
| `FollowRun.FollowingIsBounded` | `src/hey_robot/human_follow/perception.py:321-343` | a following command stays within the forward, backward and angular limits with no sideways motion |
| `FollowRun.TurnsTowardsTarget` | `src/hey_robot/human_follow/perception.py:322-338` | the base turns towards the target, and does not approach one more than a quarter of the frame off centre |
| `FollowRun.KeepsDistance` | `src/hey_robot/human_follow/perception.py:325-343` | a target that looks too large is never approached, one that looks too small is never backed away from |
| `FollowRun.FollowingSteers` | `src/hey_robot/human_follow/perception.py:322-335` | the turn asked for is the offset from the centre in half frame widths times its gain, the speed the missing share of the wanted area times its gain, and neither inside its dead zone |
| `FollowRun.SteerIs` | `src/hey_robot/human_follow/perception.py:332-343` | turn and speed are limited, backing away only where allowed; an approach is slowed in proportion to the offset and stops at half a frame |
| `FollowRun.SharesAre` | `src/hey_robot/human_follow/perception.py:299-308` | the area of a target is its share of the frame scaled to the reference frame; the wanted one falls with the square of the distance, at least 0.2, and is at most 85 percent |
| `FollowRun.SmoothIsBounded` | `src/hey_robot/human_follow/perception.py:354-362` | smoothing two commands within the limits stays within them |
| `FollowRun.StepTowards` | `src/hey_robot/human_follow/perception.py:345-362` | every command keeps seven tenths of its distance from what its frame asks for, which without a target is to turn on the spot at half the angular limit |
| `FollowRun.SearchDecays` | `src/hey_robot/human_follow/perception.py:345-362` | after n frames without a target the speed, and the distance of the turn from half the angular limit, are what they were times 0.7 to the n |
| `FollowRun.AtMostSixtyInARow` | `src/hey_robot/human_follow/perception.py:313-320` | among any 61 consecutive commands one was sent for a visible target |
| `FollowRun.SendKeeps` | `src/hey_robot/human_follow/perception.py:457-480` | sending one more command keeps the log sound and the targetless streak within the limit |
| `FollowRun.FollowController.ComputeVelocity` | `src/hey_robot/human_follow/perception.py:313-343` | counts targetless frames, or resets the count and steers towards the target |
| `FollowRun.HumanFollowRunner.Process` | `src/hey_robot/human_follow/perception.py:457-480` | one new frame extends the log by one sound command, or finds the person lost exactly after sixty targetless ones |
| `FollowRun.HumanFollowRunner.Advance` | `src/hey_robot/human_follow/perception.py:449-503` | a new frame: its command is sent and logged unless the person is lost; the run ends exactly where an exception follows or the base has settled and may stop early |
| `FollowRun.HumanFollowRunner.Pass` | `src/hey_robot/human_follow/perception.py:433-503` | one pass of the loop: exactly when it ends the run and with which outcome, when it skips a frame and when it sends a command |
| `FollowRun.HumanFollowRunner.Run` | `src/hey_robot/human_follow/perception.py:413-519` | over a whole run every command is bounded and smoothed, one is sent for exactly the new frames of the passes used, at most max_steps, and no pass used met a stop, the deadline or an exception; the pass that ends the run gives the outcome, and person_lost exactly when the targetless limit was passed |
| `FollowSessions.EveryRun` | `src/hey_robot/human_follow/service.py:84-213` | in every interleaving: one session per robot, at most one result and one resolution per session, a known robot's start is answered exactly once when it is neither in flight nor running, velocity numbers count 1, 2, 3, ... |
| `FollowSessions.StepKeeps` | `src/hey_robot/human_follow/service.py:84-213` | every step of clients, network and service keeps the session invariant |
| `FollowSessions.RunKeeps` | `src/hey_robot/human_follow/service.py:84-213` | every run from a state that satisfies the invariant ends in one that does |
| `FollowSessions.UnknownRobotNeverAnswered` | `src/hey_robot/human_follow/service.py:93-94` | a start that names an unknown robot is never answered |
| `FollowSessions.StopIff` | `src/hey_robot/human_follow/service.py:84-116` | in every run the stop flag of a session in the table is set exactly when a stop for it, or for all, was delivered after its start: clear when it is new, and set until it is taken out |
| `FollowSessions.StopStep` | `src/hey_robot/human_follow/service.py:84-116` | a step that is no start of it never adds a session; one that stays keeps its robot, and its flag is set by a stop and cleared by nothing |
| `FollowSessions.StartOutcome` | `src/hey_robot/human_follow/service.py:93-116` | a start opens a session exactly when it names one, its robot is known and free; a taken robot is answered as busy at once, any other start is dropped |
| `FollowSessions.EveryCancelStops` | `src/hey_robot/human_follow/client.py:60-74` | in every run each cancelled caller has sent one stop for its session, in flight or delivered, and nothing else sends one |
| `FollowSessions.FutureStep` | `src/hey_robot/human_follow/client.py:76-101` | a waiting future is cancelled by its caller or resolved by a result, and what is settled stays |
| `FollowSessions.FinishAnswers` | `src/hey_robot/human_follow/service.py:211-212` | a session that ends publishes its final result and stays in the table, not running |
| `FollowSessions.NewCallerCanBeServed` | `src/hey_robot/human_follow/service.py:84-213` | from every reachable state a new caller whose robot is known and free can be served to the end, with one velocity command and its future resolved |
| `FollowSessions.HumanFollowService.OnCommand` | `src/hey_robot/human_follow/service.py:84-116` | the handler changes the session table and answers as specified |
| `FollowSessions.HumanFollowService.ActiveSession` | `src/hey_robot/human_follow/service.py:95-97` | a session is found exactly when the robot has one |
| `FollowSessions.HumanFollowService.ApplyVelocity` | `src/hey_robot/human_follow/service.py:141-157` | the table and the number of one velocity command, as in the interleaved system |
| `FollowSessions.HumanFollowService.Forget` | `src/hey_robot/human_follow/service.py:213-213` | the table without the finished session, as in the interleaved system |
| `FollowSessions.HumanFollowServiceClient.OnStatus` | `src/hey_robot/human_follow/client.py:76-101` | only a result for a waiting future resolves it; progress and late results change nothing |
| `FollowSessions.HumanFollowServiceClient.Begin` | `src/hey_robot/human_follow/client.py:46-59` | the waiting entry and the start command, as in the interleaved system |
| `FollowSessions.HumanFollowServiceClient.Return` | `src/hey_robot/human_follow/client.py:73-74` | the table without the entry, as in the interleaved system |
| `FollowSessions.HumanFollowService.Finish` | `src/hey_robot/human_follow/service.py:211-212` | the published result and the table that still holds the session, as in the interleaved system |
| `FollowSessions.HumanFollowServiceClient.Cancel` | `src/hey_robot/human_follow/client.py:60-74` | the cancelled future and the stop command, as in the interleaved system |
| `ControlPlane.EveryRun` | `src/hey_robot/robot_runtime/control_plane.py:44-120` | in every interleaving of single actions, policy results, stops and cancellations: of the open driver calls at most one is buffered, it belongs to the lock holder, whose action current_action_id names, every buffered call was in time, by the action's own fields, when it was let through, and buffer, watchdog and preemptions agree with what the driver saw, with the same deadlines |
| `ControlPlane.CallsOfTask` | `src/hey_robot/robot_runtime/control_plane.py:122-155` | in every interleaving the driver calls of one policy result are a prefix of its actions, each ended before the next, and nothing follows a failure, an exception or a cancellation |
| `ControlPlane.EmergencyOverlaps` | `src/hey_robot/robot_runtime/runtime.py:148-169` | an emergency stop begins in every reachable state; while the lock is held its driver call and the holder's are open together, and nothing else changes |
| `ControlPlane.LateStartIff` | `src/hey_robot/robot_runtime/control_plane.py:51-87` | in every reachable state an action, supervised or of a policy result, that passes its gates in time can reach the driver after its deadline exactly when it has a deadline and its own preempting stop, a held lock or waiting calls make it pause |
| `ControlPlane.RefusedIff` | `src/hey_robot/robot_runtime/control_plane.py:169-190` | in every reachable state a judged action is refused exactly when its deadline_at is over, or without one its timestamp plus deadline_sec, or without both its timestamp plus dt times horizon; no driver call begins for it |
| `ControlPlane.JudgedIs` | `src/hey_robot/robot_runtime/control_plane.py:139-154` | judged are the first action of a policy result, the one the supervisor found safe, and the one behind an action that did not fail; after any other ending the task is over |
| `ControlPlane.UnsafeIsRefused` | `src/hey_robot/robot_runtime/runtime.py:127-146` | an action that the supervisor found unsafe goes no further and leaves lock, queue and driver alone |
| `ControlPlane.EntryIsTimed` | `src/hey_robot/robot_runtime/control_plane.py:79-83` | a new buffer entry carries the moment at which its action took the lock |
| `ControlPlane.WatchdogAtEnd` | `src/hey_robot/robot_runtime/control_plane.py:91-105` | when a driver call ends the watchdog names its action and skill, its duration and deadline, whether it ended past it, and how |
| `ControlPlane.PolicyCanRunThrough` | `src/hey_robot/robot_runtime/control_plane.py:122-155` | where the lock is free a policy result whose actions are in time and ask for no stop can run through: the driver sees every action in order and nothing else |
| `ControlPlane.SupervisedCanRun` | `src/hey_robot/robot_runtime/runtime.py:127-146` | so can a supervised action, once it was found safe |
| `ControlPlane.WaiterGetsLock` | `src/hey_robot/robot_runtime/control_plane.py:79-105` | whoever waits for the lock can still get it at any later time |
| `ControlPlane.FirstComeFirstServed` | `src/hey_robot/robot_runtime/control_plane.py:79-80` | in every run a waiting task that has not given up gets the lock only after those that waited longer got it or gave up |
| `ControlPlane.NewcomerWaitsLast` | `src/hey_robot/robot_runtime/control_plane.py:79-80` | whoever starts to wait for the lock stands behind all who wait already |
| `ControlPlane.StepKeeps` | `src/hey_robot/robot_runtime/control_plane.py:44-120` | every step keeps the whole invariant of lock, queue, gates, open calls and records |
| `ControlPlane.RobotControlPlane.Enter` | `src/hey_robot/robot_runtime/control_plane.py:79-83` | the state after taking the lock, as in the interleaved machine |
| `ControlPlane.RobotControlPlane.Leave` | `src/hey_robot/robot_runtime/control_plane.py:91-105` | the state after a call that returned, raised or was cancelled, as in the interleaved machine |
| `ControlPlane.RobotControlPlane.RecordPreemption` | `src/hey_robot/robot_runtime/control_plane.py:68-77` | the state after a preempting stop, as in the interleaved machine |
| `ControlPlane.RobotControlPlane.ApplyPolicyResult` | `src/hey_robot/robot_runtime/control_plane.py:122-155` | the actions executed are a prefix that ends at the first failure, exception or cancellation, whose ending is the outcome |
| `ControlPlane.MapActionChunk` | `src/hey_robot/robot_runtime/control_plane.py:237-288` | a chunk maps to the actions of its items in order |
| `ControlPlane.ChunkInOrder` | `src/hey_robot/robot_runtime/control_plane.py:237-288` | the mapped actions are exactly those the items ask for, each once, arm before gripper before stop and in the order of the items, due dt times the place of the item counted from one, with the gripper's share as a percentage limited to 0..100 |
| `ControlPlane.DeadlinesInOrder` | `src/hey_robot/robot_runtime/control_plane.py:254-256` | with a nonnegative time step deadlines never decrease along the chunk |
| `TypedArchive.EncodeTypedNpz` | `src/hey_robot/robot_media/store.py:464-525` | a tree encodes exactly when nothing in it is foreign and JSON takes its manifest; the archive decodes to the tree exactly when its arrays and scalars load back, and holds its arrays in order under distinct fresh names beside the manifest, and nothing else |
| `TypedArchive.EncodableIff` | `src/hey_robot/robot_media/store.py:468-494` | a tree encodes exactly when nothing in it is of another type, a plain value that JSON does not know, or a dictionary without a value for every key |
| `TypedArchive.Encoder.Encode` | `src/hey_robot/robot_media/store.py:468-494` | the recursive encoder with its shared counter and table computes the specified manifest, names and table |
| `TypedArchive.Encoder.EncodeAll` | `src/hey_robot/robot_media/store.py:471-478` | a sequence of children threads the counter and the table from left to right |
| `TypedArchive.DecodeOfNodeIff` | `src/hey_robot/robot_media/store.py:505-523` | decoding a manifest node against a table holding its arrays returns the tree, NumPy scalars as plain ones, exactly when every array loads back and every scalar casts back |
| `TypedArchive.NamesDistinct` | `src/hey_robot/robot_media/store.py:480-482` | array names are distinct and never the manifest name |
| `TypedArchive.PutFacts` | `src/hey_robot/robot_media/store.py:479-483` | every array sits under its own name and nothing else in the table changes |
| `Text.DigitsInjective` | `src/hey_robot/robot_media/store.py:480-480` | decimal numerals of different counters differ |
| `Asr.PackFrame` | `src/hey_robot/audio/asr.py:430-449` | a frame is header, optional sequence, length and payload, or a failure when a number does not fit |
| `Asr.FromBytes` | `src/hey_robot/audio/asr.py:83-130` | the parser with its moving offset computes the specified parse |
| `Asr.FrameRoundTripIff` | `src/hey_robot/audio/asr.py:83-130` | a packed message parses back to itself exactly when it is no error message and carries a sequence exactly when its flag says so |
| `Asr.ErrorFrameReads` | `src/hey_robot/audio/asr.py:100-116` | an error frame reads as its code and its payload of the given size; anything behind is ignored |
| `Asr.ShortErrorFrame` | `src/hey_robot/audio/asr.py:100-102` | one that ends within its code or size is refused |
| `Asr.ChunksJoin` | `src/hey_robot/audio/asr.py:528-533` | the chunks join to the PCM data and each is nonempty and no longer than the size |
| `Asr.WaveIsCut` | `src/hey_robot/audio/asr.py:499-533` | a recording in the configured format is cut without loss into chunks of whole samples |
| `Asr.WaveAcceptedIff` | `src/hey_robot/audio/asr.py:499-533` | a recording is accepted exactly in the configured rate and channels with 16-bit samples, and every chunk but the last holds the samples of the configured time, at least one a channel |
| `Asr.SendStream` | `src/hey_robot/audio/asr.py:195-206` | the send loop produces the request and one frame per chunk with the specified sequence numbers |
| `Asr.StreamSurvives` | `src/hey_robot/audio/asr.py:195-206` | parsing the frames of any nonempty recording gives back its PCM data, absolute numbers count from 1, only the last frame is negative and flagged |
| `Asr.StreamParses` | `src/hey_robot/audio/asr.py:83-130` | every frame of a stream parses |
| `Tts.ToBytes` | `src/hey_robot/audio/tts_protocol.py:40-55` | the writer computes the specified bytes, or fails where a number does not fit |
| `Tts.FromBytes` | `src/hey_robot/audio/tts_protocol.py:57-89` | the parser with its moving offset computes the specified parse |
| `Tts.MessageRoundTripIff` | `src/hey_robot/audio/tts_protocol.py:40-89` | a written message reads back as itself exactly when it is faithful: no connection-started event, and no episode id, or event, where none is written |
| `Tts.StartedNeverReads` | `src/hey_robot/audio/tts_protocol.py:78-82` | a written connection-started message can never be read |
| `Wire.ReadPacked` | `src/hey_robot/audio/tts_protocol.py:44-54` | a packed 32-bit word reads back at its offset, signed or unsigned |
| `TrialService.EveryRun` | `src/hey_robot/robocasa_backend/runtime_server.py:93-190` | in every interleaving, whenever the service lock is free the backend is owned exactly when a trial is active, at most one handler is inside, and the ledger is sound |
| `TrialService.MoveKeeps` | `src/hey_robot/robocasa_backend/runtime_server.py:93-190` | every move of the handlers and of other backend users keeps the invariant |
| `TrialService.FailedBeginIff` | `src/hey_robot/robocasa_backend/runtime_server.py:93-123` | in every run a begin that reports failure after taking the backend leaves neither trial nor backend exactly when it failed before its response was built; otherwise it leaves both, with a valid first observation that cannot be shown |
| `TrialService.TakenUp` | `src/hey_robot/robocasa_backend/runtime_server.py:93-108` | a request that gets the service lock is refused exactly when it is a begin and a trial is active or the backend taken, answered at once exactly when it is an end without a trial, and goes on inside otherwise |
| `TrialService.AnsweringWasPrepared` | `src/hey_robot/robocasa_backend/runtime_server.py:115-123` | in every run a begin that only has its response left was prepared without failure |
| `TrialService.TrialCanEnd` | `src/hey_robot/robocasa_backend/runtime_server.py:177-185` | wherever the lock is free and a trial is running it can be ended, with success reported and neither trial nor backend left |
| `TrialService.UnshowableObservationLeavesBoth` | `src/hey_robot/robocasa_backend/runtime_server.py:123-123` | a run with three cameras, one without a usable picture: failure is reported while the trial is active and the backend held |
| `TrialService.FailedStepIff` | `src/hey_robot/robocasa_backend/runtime_server.py:140-164` | in every run a step that reports failure leaves frame and ledger as it found them exactly when it failed before its response was built; otherwise the request was admitted, its action recorded and the frame moved by one |
| `TrialService.UnshowableStepIsRecorded` | `src/hey_robot/robocasa_backend/runtime_server.py:149-161` | from every state with a free lock and a running trial, a step whose observation cannot be shown reports failure with its action recorded |
| `TrialService.LedgerKept` | `src/hey_robot/robocasa_backend/episode_manager.py:74-185` | begin and step keep the ledger: actions for exactly frames 1..frame_id, each accepted against the frame before, none after done |
| `TrialService.FrameAgreesIff` | `src/hey_robot/robocasa_backend/episode_manager.py:130-175` | in every run the frame counter is behind the environment by the admitted requests since the trial began whose step raised or gave a refused observation, and agrees with it exactly when there was none |
| `TrialService.FallsBehindIff` | `src/hey_robot/robocasa_backend/episode_manager.py:148-153` | one request lets the counter fall behind exactly when it is admitted and the environment raises or its observation is refused; the same request is then admitted again |
| `TrialService.EpisodeManager.Begin` | `src/hey_robot/robocasa_backend/episode_manager.py:74-111` | a trial begins only when none is active, the name is allowed and the environment delivers a valid observation |
| `TrialService.EpisodeManager.Step` | `src/hey_robot/robocasa_backend/episode_manager.py:122-185` | a step is accepted only against the current frame of a running trial, and records exactly one action |
| `TrialService.EpisodeManager.End` | `src/hey_robot/robocasa_backend/episode_manager.py:211-221` | ending clears the active trial and records its end; without a trial nothing changes |
| `TrialService.StepAnswersIff` | `src/hey_robot/robocasa_backend/episode_manager.py:122-185` | a request is taken exactly when a trial is running and waits for that frame, action and bounds are right and the environment gives a state and three pictures; every refusal tells the first thing that was wrong |
| `TrialService.BeginAnswersIff` | `src/hey_robot/robocasa_backend/episode_manager.py:74-111` | a trial begins exactly when none is active, the task is allowed and the environment gives a state and three pictures; it begins at frame 0 with only its beginning in the ledger |
| `TrialService.AnswerIff` | `src/hey_robot/robocasa_backend/runtime_server.py:206-219` | a response succeeds exactly when each of the three known cameras in the observation has a usable picture |
| `TrialService.ShowsLastReaction` | `src/hey_robot/robocasa_backend/episode_manager.py:148-175` | in every run the active trial shows observation, reward and success of the last reaction taken since it began, is done exactly when that reaction terminated or truncated the episode, and the ledger ends with its reward |

## Left out

- JSON, gzip, NumPy, UTF-8, SHA-256 and HMAC: abstract functions.  What is assumed of JSON is written out as a predicate: decoding inverts encoding, an encoding is one nonblank line, and neither a proper prefix of an encoding nor an encoding with the start of another behind it decodes.
- Line separators other than the newline, which `splitlines` also honours.
- Rounding: floats are reals, and half the square root of three is a real whose square is three quarters.
- RunLogProofs.DurableRun: assumes that no step writes onto a record without its newline; RunShrinksIff shows that otherwise something readable is lost.
- RunLogProofs.CrashFreeResult: holds for runs without crashes only; StaleResultIff, RunResultIff and StrandedIff say what crashes do.
- RunLogProofs.StrandedIff: assumes that no step writes onto a record without its newline; RunResultIff covers those runs step by step.
- RunStore.FileRunStore: `recent` over all run directories, the atomic rename inside a write, and whether an execution trace is stored as JSON or as an array archive.
- MessagesProofs.DecodeSound: a message object already inside a payload is handed through unchecked by the code, so its soundness is a hypothesis.
- MessageUniverse.ProtocolRoundTrip: covers the message classes with cross-field checks and every class they contain; the other classes follow from RoundTrip once their fields are listed.
- SyncRead.ScanIff: excludes the id 0xFF, which no servo has and with which headers can overlap.
- SyncRead.GroupSyncRead.SyncReadPos: the serial port supplies an arbitrary byte buffer or raises; timing and the argument adapter of `syncReadRx` are not modelled.
- ServoBus.Bus: the connection handshake, the positions of single servos and the status reads; a write is delivered and confirmed, delivered and not confirmed, or lost.
- MobileBase.LeKiwiBase.Initialize: the answers to the three pings are parameters.
- FollowRun.HumanFollowRunner.Run: works on a finite list of loop passes, `Running` meaning that they ran out; an exception in a pass ends the run as an internal error, cancellation is not modelled, and a duration of zero means no deadline, as in the code.
- Detection: the people seen in a frame are a parameter; default values of the follow arguments are not modelled.
- FollowSessions.EveryRun: the session protocol assumes fresh session ids and that no message is delivered twice; a raising handler or a lost connection is not modelled.
- ControlPlane.EveryRun: the safety supervisor's verdict is a Boolean of the step, the clock stands still within one stretch of code without a pause, and perception skills bypass the buffer and are not modelled.
- ControlPlane.ChunkInOrder: only action chunks are mapped; local goals and whole-body references are one or two fixed actions.
- TypedArchive.EncodeTypedNpz: dictionary keys are strings; other keys are turned into strings by the code and may collide.  Storing an array never raises; what loading it gives, a failure for arrays of objects included, is a function of the array.
- TrialService.EveryRun: cancellation and a raising `env.close` are excluded, the clean-up of a failed begin is one move, and of a response only the images can fail.
- Asr.SendStream: the server's answers, and the JSON body of the first request.
- The gateway, voice wake words, scene captions, media eviction and signing, the frontend, the command line and configuration loading.
