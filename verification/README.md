# Testudo runtime: a verified model

Testudo runs agent workflows in governed workers. A host admits signed assignments
durably and launches each at most once, talks to a guest over length-framed canonical
CBOR, runs a workflow of steps in dependency order, promotes the files a worker leaves
behind into a content-addressed store, and refuses to issue a receipt unless everything
it saw agrees. This project models those parts in Dafny and proves what they are for.

| files | what they model |
|---|---|
| `Options`, `Strings`, `Ordering`, `Utf8` | optional values, `split` and `strip`, lexicographic order, strict UTF-8 |
| `Cbor`, `CborDecoder`, `CborReader` | the canonical CBOR codec: encoder, decoder as a function, and the decoder object |
| `Streams`, `Transport` | length-framed frames over a socket that fragments reads and shortens writes |
| `Sessions`, `Conversation` | the host and guest session objects, and both of them over FIFO channels |
| `TopologicalSort`, `References`, `Execution` | the workflow executor |
| `EventLog`, `EventCodec`, `RunJournal`, `Journey` | one assignment: its append-only log, one codec for it, its lock-held regions, crashes and reloads |
| `Admission`, `AdmissionSafety`, `AdmissionRecovery`, `AssignmentService` | the assignment service: disk and memory over every run, and the object whose methods are steps of it |
| `Admissibility`, `AdmissionMemory`, `RunOutcomes` | what is admissible, what a running service never forgets, and how each status came about |
| `ServiceJourneys` | the service's runs seen at one assignment, which are that assignment's journeys |
| `Reconciliation`, `Ambiguity` | when an operator can clear the service, and what blocks it |
| `Artifacts`, `ArtifactRoundTrip`, `ArtifactStore` | export, the store invariant, materialising, and the store object |
| `Supervision`, `HostControl`, `HostEvidence` | the worker lifecycle with its supervisor, the host controller, and what its checks come to |
| `PolicyBoundary` | the policy enforcer |
| `Rendering`, `Replay`, `RateLimiting`, `Redaction` | shell quoting, the command replay verifier, the scan rate limiter, PII splicing |

Main results: no assignment and no envelope is ever launched twice, across crashes between
any two disk steps, restarts, unparsable evidence and truthful reconciliation; with crashes
alone every admitted assignment reloads, nothing starts after a cancellation, and a durable
receipt is final; an operator can clear an ambiguous service exactly when each of its ambiguous
names can still be reconciled; the codec's two directions are inverse and its image is exactly
what the decoder accepts; in a conversation of honest parties only a stop can be refused; a
workflow sorts exactly when it is sortable, and what it does does not depend on the order chosen;
a tree is exported exactly when the scanner accepts each of its regular files within the limits,
and materialising reproduces it exactly when its names are trimmed and leave room for the staging
suffix; a run that returns has issued one receipt that agrees with everything, and every launched
worker is revoked once, then wiped once.

Objects that the program updates in place are classes here, and each method equates the new
state with a specification function, or keeps the invariant named in the table. The assignment
service's methods carry a ghost history and show that every write they make is one step of the
state machine in `Admission`, so the theorems about all runs of the machine hold of them.

Assumptions, always as hypotheses of the members that need them: records print on one line,
parse back, and no strict prefix of one parses (`EventLog.Lawful`, which
`EventCodec.ALawfulCodecExists` shows can be met); the artifact hash separates the byte strings
involved in one round trip, those the scanner leaves included, and yields 64 lower-case hexadecimal digits
(`ArtifactRoundTrip.CollisionFree`); later session secrets have other provisioning digests
(`Replay.FreshSecrets`); an operator's reconciliation names the identity that was admitted
(`Admission.Truthful`); clocks where named never go back. Hashes, message authentication codes,
printing and parsing of records, tools, scanners, `str` and `getattr`, path resolution and host-name canonicalisation
are function parameters.

Places where the code and its description differ, and the code is followed:

- A policy decision reads the clock once to check and once more to stamp, so an allowed receipt
  can carry a time at or past expiry (`PolicyBoundary.AllowedReceiptCanBeStampedLate`). It does
  exactly when expiry falls between its check and its stamp
  (`PolicyBoundary.LateExactlyWhenExpiryFallsBetween`), and with a steady clock nothing is allowed
  after such a receipt, except that a launch whose last mount was late may itself be late
  (`PolicyBoundary.NothingAllowedAfterALateReceipt`).
- A guest receipt's containment is compared as Python compares, so `1`, `1.0` and `True` agree: a
  receipt can agree without being identical (`HostControl.ContainmentNeedNotBeIdentical`), and is
  identical exactly when its values have the expected kinds
  (`HostControl.ContainmentIsIdenticalWhenAlike`).
- A guest that learns its identity from the first frame does not look at that frame's own header.
  It agrees with a guest that knows its identity exactly when header and contract name the same
  (`Sessions.AcceptingIsBootstrapping`, `Sessions.ForeignHeaderIsAccepted`).
- Reconciling every ambiguous name is meant to clear the service. A crash after a name's tombstone is
  durable and before its marker is retired leaves the name ambiguous and tombstoned, and then it can
  never be reconciled again (`Reconciliation.AnyRequestCanBeBlocked`, `Reconciliation.BlockedForever`).
  The service can be cleared exactly when no admitted identity behind an ambiguous name is live or
  tombstoned (`Reconciliation.ClearsExactlyWhen`).
- A network request whose phase or purpose is not text is denied, but its receipt cannot be written:
  the call raises after it took a number, so the numbers of the receipts have a gap exactly there
  (`PolicyBoundary.ReceiptsAreNumbered`).
- A reference into a value that is not a dict reads an attribute, and an `AttributeError` leaves `run`
  where other faults are recorded (`Execution.EscapesWhenAnyDoes`).
- The scan limiter starts as if a scan had been admitted at the clock's origin: none is admitted in
  its first 30 seconds (`RateLimiting.AdmittedExactlyWhen`).
- A cancellation accepted after the contained work has returned changes nothing: the run ends with the
  status it had earned, after a `cancel_requested` event (`RunOutcomes.StatusIsTold`).
- Exporting accepts file names that materialising refuses: those with outer white space, and those
  so long that the name staged beside them does not fit the destination's file system
  (`ArtifactRoundTrip.ALongNameLeavesNoRoom`). The round trip holds exactly for trees without
  either (`ArtifactRoundTrip.RoundTrip`).
- The checks on a guest's receipt look at named fields only, while the host's receipt is hashed
  over all of it. A receipt that passes them and also holds a byte string cannot be written, so
  the run raises (`HostControl.BytesPassTheChecksAndStopTheReceipt`); a receipt can be issued exactly
  when the guest's holds none (`HostControl.IssuableWhenWritable`).

## Model

| member | source | states |
|---|---|---|
| `Cbor.UintInvertsHead` | guest/testudo_guest_smoke.py:43-56 | a head of any major type and any number below 2^64 is read back as that type and number |
| `Cbor.HeadIsShortest` | guest/testudo_guest_smoke.py:43-56 | no shorter bytes are read as a head of the same number |
| `Cbor.HeadMonotone` | guest/testudo_guest_smoke.py:43-56 | heads of one major type are ordered bytewise as the numbers they announce |
| `CborDecoder.HeadsAre` | guest/testudo_guest_smoke.py:43-56 | a head is the initial byte of section 3 of RFC 8949, with the number in it or in the bytes after it |
| `CborDecoder.BigEndianAt` | guest/testudo_guest_smoke.py:50-55 | those bytes are in network byte order: each digit counts the power of 256 it is worth |
| `CborDecoder.FirstBytes` | guest/testudo_guest_smoke.py:59-84 | each kind of value begins with the bytes the standard gives it |
| `CborDecoder.ParseInvertsEncode` | guest/testudo_guest_smoke.py:59-145 | reading an encoding followed by anything gives the value and leaves exactly the rest |
| `CborDecoder.RoundTrip` | guest/testudo_guest_smoke.py:59-156 | what the encoder writes decodes to the value it was given and no other body does; a value it refuses is decoded from no body |
| `CborDecoder.AcceptsExactlyEncodings` | guest/testudo_guest_smoke.py:148-156 | a body decodes to a value if and only if it is that value's encoding |
| `CborDecoder.ParsedIsEncodable` | guest/testudo_guest_smoke.py:113-145 | whatever the decoder returns is a value the encoder accepts |
| `CborDecoder.PrefixFree` | guest/testudo_guest_smoke.py:59-84 | no encoding is a prefix of another |
| `CborDecoder.KeyOrdersCoincide` | guest/testudo_guest_smoke.py:76-81 | for text keys the bytewise order of section 4.2.1 of RFC 8949 is the length-first order of section 3.9 of RFC 7049 |
| `CborReader.Decoder.TakeBytes` | guest/testudo_guest_smoke.py:92-98 | taking bytes advances the offset by exactly that many or fails |
| `CborReader.Decoder.UintValue` | guest/testudo_guest_smoke.py:100-111 | the decoder object reads a head as the specification does |
| `CborReader.Decoder.ReadValue` | guest/testudo_guest_smoke.py:113-145 | the decoder object agrees with the parsing function, always advances, and so terminates whatever length a head announces |
| `CborReader.Decode` | guest/testudo_guest_smoke.py:148-156 | decoding on the object is decoding as specified |
| `Utf8.DecodeInvertsEncode` | guest/testudo_guest_smoke.py:71-73 | text survives its UTF-8 encoding |
| `Utf8.EncodeInvertsDecode` | guest/testudo_guest_smoke.py:122-126 | only the one encoding of a text decodes to it |
| `Utf8.Examples` | guest/testudo_guest_smoke.py:71-73 | characters of the examples of RFC 3629 and the ends of each length have the bytes it gives them |
| `Streams.ReadAllOfCut` | src/testudo/runtime/transport.py:123-146 | reading a stream cut anywhere returns exactly the messages that arrived whole |
| `Streams.Reassembly` | src/testudo/runtime/transport.py:135-146 | reading the uncut stream returns every message |
| `Transport.FromMappingInverts` | src/testudo/runtime/transport.py:58-94 | a valid frame survives its mapping form |
| `Transport.ReadInvertsEncode` | src/testudo/runtime/transport.py:97-120 | a written frame followed by anything is read back, leaving exactly the rest |
| `Transport.CutFrameFails` | src/testudo/runtime/transport.py:123-146 | a frame cut short is never read as a frame |
| `Transport.FrameIsItsMapping` | src/testudo/runtime/transport.py:74-94 | a mapping is a frame exactly when it has the seven fields and no other, each of its kind and no text empty |
| `Transport.FrameIsSized` | src/testudo/runtime/transport.py:97-120 | a frame is its body's size in four bytes and its body |
| `Transport.ReadsExactlyFrames` | src/testudo/runtime/transport.py:123-146 | a frame is read exactly where the bytes of one that can be written stand, and what follows is left |
| `Transport.ReadExact` | src/testudo/runtime/transport.py:123-132 | however the socket fragments its reads, the loop returns exactly the next bytes, or fails when there are too few |
| `Transport.ReadOne` | src/testudo/runtime/transport.py:140-146 | one frame is read from the socket as from its byte stream |
| `Transport.ReadUntilError` | guest/testudo_guest_smoke.py:171-183 | repeated reads return what the stream holds |
| `Transport.SendAll` | guest/testudo_guest_smoke.py:196-202 | however short the writes, what is on the wire is a prefix, and all of it exactly when the call succeeds |
| `Transport.WritePackets` | src/testudo/runtime/transport.py:135-137 | after any failure the wire holds a cut of the frames' stream |
| `Transport.Exchange` | src/testudo/runtime/transport.py:123-146 | end to end the reader gets a prefix of the written frames, and all of them when no write failed |
| `Sessions.BrokerSession.SendFrame` | src/testudo/runtime/broker.py:80-107 | the host's send as a function of its state: refused, lost on a failed write, or sent with the next sequence number |
| `Sessions.BrokerSession.ReceiveFrame` | src/testudo/runtime/broker.py:109-134 | the host's receive as a function of its state and the incoming frame |
| `Sessions.BrokerSession.CloseSession` | src/testudo/runtime/broker.py:156-162 | closing is final |
| `Sessions.GuestSession.ReceiveCommand` | src/testudo/runtime/guest.py:99-124 | the guest's receive as a function of its state and the incoming frame |
| `Sessions.GuestSession.ReceiveRunCommand` | src/testudo/runtime/guest.py:143-152 | a command other than run is refused there |
| `Sessions.GuestSession.SendFrame` | src/testudo/runtime/guest.py:154-181 | the guest's send as a function of its state |
| `Sessions.GuestSession.BootstrapSession` | src/testudo/runtime/guest.py:126-141 | readiness is announced only after the contract is accepted |
| `Sessions.AcceptBootstrapSession` | src/testudo/runtime/guest.py:68-97 | a session is made from the first frame's contract exactly as specified, and only if readiness was sent |
| `Sessions.AcceptingIsBootstrapping` | src/testudo/runtime/guest.py:68-141 | an accepted first frame makes the session that a guest knowing the identity makes of it, exactly when header and contract agree; otherwise such a guest rejects it |
| `Sessions.ForeignHeaderIsAccepted` | src/testudo/runtime/guest.py:68-97 | a frame with a foreign header is accepted although a guest of any known identity rejects it |
| `Sessions.RankNeverDecreases` | src/testudo/runtime/broker.py:164-185 | against an arbitrary peer a session's phase only advances |
| `Sessions.AtMostOneRunAndStop` | src/testudo/runtime/broker.py:80-154 | against an arbitrary peer the host sends at most one run and one stop |
| `Sessions.AcceptedInOrder` | src/testudo/runtime/broker.py:109-134 | whatever the peer sends, the accepted frames carry the session's identity and consecutive numbers |
| `Sessions.SpeaksTheLanguage` | src/testudo/runtime/broker.py:80-185 | over any calls a new session sends and accepts exactly the frames that may come next: bootstraps, one ready, at most one run and one stop, then the guest's frames up to a result or an error |
| `Sessions.OneFrameBootstraps` | src/testudo/runtime/guest.py:126-141 | exactly one frame bootstraps a session that knows its identity |
| `Sessions.OneFrameRuns` | src/testudo/runtime/guest.py:143-152 | exactly one frame starts the work of a ready session |
| `Sessions.FirstContractIsTaken` | src/testudo/runtime/guest.py:68-97 | a complete contract that comes first makes the session, and nothing else does |
| `Conversation.StepKeeps` | src/testudo/runtime/guest.py:99-234 | every step of either party keeps the invariant of the conversation |
| `Conversation.RunKeeps` | src/testudo/runtime/broker.py:80-185 | the invariant holds at every point of every interleaving |
| `Conversation.ConversationIsSafe` | src/testudo/runtime/broker.py:80-185 | in every interleaving the host rejects nothing, the guest at most a stop, and each sender's counter exceeds the peer's by the frames in flight |
| `Conversation.RejectionHasCause` | src/testudo/runtime/guest.py:99-152 | a stop is rejected only when it crossed the guest's final frame or was met by `receive_run` |
| `TopologicalSort.Sort` | src/testudo/orchestrator/executor.py:193-223 | sorting succeeds exactly when ids are unique, needs known and the graph acyclic; the result is a permutation with every need earlier; each error names a real defect |
| `TopologicalSort.Sorter.Visit` | src/testudo/orchestrator/executor.py:207-219 | the depth-first visit terminates, keeps the finished prefix in order, and reports a cycle through the node it names |
| `TopologicalSort.OrderedIsAcyclic` | src/testudo/orchestrator/executor.py:193-223 | a graph that can be ordered has no cycle and no unknown need |
| `TopologicalSort.PathDescends` | src/testudo/orchestrator/executor.py:193-223 | along a path inside an order positions strictly decrease |
| `References.RefDependsOnlyOn` | src/testudo/orchestrator/executor.py:268-298 | a reference resolves alike, through dicts and attributes, under outputs that agree on the step it names |
| `References.TextDependsOnlyOn` | src/testudo/orchestrator/executor.py:226-266 | interpolation depends only on the steps its references name |
| `References.ValueDependsOnlyOn` | src/testudo/orchestrator/executor.py:226-266 | a whole value resolves alike, faults included |
| `References.RefMeans` | src/testudo/orchestrator/executor.py:268-298 | a reference resolves to a value exactly when following its dotted path, from the inputs or a step's output, leads there |
| `References.InterpolateMeans` | src/testudo/orchestrator/executor.py:226-266 | a text becomes exactly the one with each bracketed reference replaced by how its value is shown |
| `References.ResolveMeans` | src/testudo/orchestrator/executor.py:226-266 | a nested value becomes exactly the one with exact references replaced by their values and the rest kept |
| `References.WithoutReferences` | src/testudo/orchestrator/executor.py:226-266 | a value without references stays as it is |
| `References.OutputIsPassed` | src/testudo/orchestrator/executor.py:241-249 | a text that is just a reference to a step becomes that step's whole output |
| `References.ConditionMeans` | src/testudo/orchestrator/executor.py:300-308 | a condition holds exactly when its reference leads to a value that is not none, false, zero or empty |
| `Execution.StepDependsOnlyOn` | src/testudo/orchestrator/executor.py:95-183 | a step's result depends only on the outputs of the steps it names |
| `Execution.RunWorkflow` | src/testudo/orchestrator/executor.py:67-187 | the run is refused exactly when the workflow cannot be sorted; otherwise it gives the results of its steps in that order, or none when an error escapes |
| `Execution.ResultsMean` | src/testudo/orchestrator/executor.py:67-187 | in a finished run a step is skipped exactly when its condition has a false value; otherwise its result is what its tool returns or raises for its resolved arguments, or the fault that kept it from being called |
| `Execution.EscapesWhenAnyDoes` | src/testudo/orchestrator/executor.py:67-187 | a run ends without results exactly when, running on regardless, the error of some step would escape |
| `Execution.OrderIndependence` | src/testudo/orchestrator/executor.py:67-187 | any two orders that respect the needs give every step the same result, or in both an error escapes |
| `Execution.SortedRunIsEveryRun` | src/testudo/orchestrator/executor.py:67-223 | the sort's order does what every dependency-respecting order does |
| `EventLog.TornAppendRecovers` | src/testudo/runtime/assignment.py:748-793 | a log cut anywhere in its last append recovers to the earlier events, or those and the new one when its bytes are complete |
| `EventLog.CompleteLogRecovers` | src/testudo/runtime/assignment.py:748-793 | a complete log reads back as itself |
| `EventLog.ReadsExactly` | src/testudo/runtime/assignment.py:748-793 | any bytes are read as a log exactly when their complete lines are this assignment's records numbered from zero, and a tail is torn or one more |
| `EventCodec.ALawfulCodecExists` | src/testudo/runtime/assignment.py:524-544 | records can be written as the recovery results assume: on one line, parsing back, none a prefix of another |
| `EventLog.ParseCompleteLines` | src/testudo/runtime/assignment.py:759-778 | the loop over complete lines returns the records, or fails at a line that does not belong |
| `EventLog.ReadDurableEvents` | src/testudo/runtime/assignment.py:748-793 | the reading method is the specified reading |
| `RunJournal.ActionKeepsAgreement` | src/testudo/runtime/assignment.py:392-632 | every lock-held change and every write, down to single bytes of an append, keeps memory and files in agreement |
| `RunJournal.ThreadGoesOn` | src/testudo/runtime/assignment.py:546-632 | a worker thread that is alive can always take its next step, whatever comes of its work |
| `RunJournal.CrashedRunLoads` | src/testudo/runtime/assignment.py:678-746 | a directory in agreement loads to the same run, less an event whose append was cut and a receipt that was not durable |
| `RunJournal.CompactedTwice` | src/testudo/runtime/assignment.py:748-793 | compacting any directory a second time changes nothing, and does not change what it loads into |
| `RunJournal.RecoveryIsIdempotent` | src/testudo/runtime/assignment.py:678-793 | loading again changes nothing |
| `Journey.RegionsAreOrderly` | src/testudo/runtime/assignment.py:392-410 | in every interleaving with crashes: events are numbered without gaps, nothing starts after a cancellation, a cancellation answers with its event, a receipt's digest covers the log |
| `Journey.CrashIsSurvived` | src/testudo/runtime/assignment.py:678-793 | a crash at any point loses at most the event being appended, and recovery is idempotent there |
| `Journey.ReceiptIsFinalInProcess` | src/testudo/runtime/assignment.py:546-632 | between crashes a receipt once set and the log it covers never change |
| `Journey.DurableReceiptIsFinal` | src/testudo/runtime/assignment.py:448-509 | a durable receipt and the log it covers are final across every later step, crash and restart |
| `RunOutcomes.StatusIsTold` | src/testudo/runtime/assignment.py:566-632 | what ends a run's work settles the status that its event and its receipt say: cancelled if that was asked for by then, else by exit status or exception |
| `RunOutcomes.ReceiptHasCause` | src/testudo/runtime/assignment.py:448-632 | over every run, damage included, a receipt's status was settled by a step of its own assignment |
| `RunOutcomes.SuccessIsEarned` | src/testudo/runtime/assignment.py:586-600 | a run is reported to have succeeded only if its work returned zero and no cancellation had been asked for by then |
| `RunOutcomes.WorkIsAnnounced` | src/testudo/runtime/assignment.py:566-574 | contained work runs only after its start is among the run's events |
| `RunOutcomes.ReceiptsCoverTheirLogs` | src/testudo/runtime/assignment.py:678-746 | over every run, damage included, a live run's receipt is of its own request and its digest is that of the run's events |
| `ServiceJourneys.StepFollows` | src/testudo/runtime/assignment.py:317-1041 | every step of the service without damage takes each assignment along a path of its own |
| `ServiceJourneys.LiveRunsAreJourneys` | src/testudo/runtime/assignment.py:317-1041 | in every run of the service without damage each live assignment is where a journey ends |
| `ServiceJourneys.LiveRunsAreOrderly` | src/testudo/runtime/assignment.py:392-410 | so in the service a live run's events have no gaps, nothing starts after a cancellation, and a receipt's digest covers the log |
| `ServiceJourneys.DurableReceiptsAreFinal` | src/testudo/runtime/assignment.py:1028-1041 | in the service a durable receipt and its log stay as they are through every later step, crash and restart |
| `ServiceJourneys.WorkIsRemembered` | src/testudo/runtime/assignment.py:392-410 | work once begun is known to every later process, and after a restart it cannot be cancelled |
| `AdmissionSafety.StepKeeps` | src/testudo/runtime/assignment.py:317-1041 | every step, including crash, restart, damage to evidence and reconciliation, keeps the service invariant |
| `AdmissionSafety.RunKeeps` | src/testudo/runtime/assignment.py:317-1041 | the invariant holds along every run |
| `AdmissionSafety.AtMostOneLaunch` | src/testudo/runtime/assignment.py:317-385 | over every run no assignment id and no envelope id is launched twice and no work is run twice |
| `AdmissionSafety.LaunchedIsRefused` | src/testudo/runtime/assignment.py:352-385 | a launched identity is live, tombstoned under both ids, or admission is blocked; a later request for it is refused |
| `AdmissionSafety.AdmissibleIsUnused` | src/testudo/runtime/assignment.py:352-385 | the duplicate checks admit only identities never admitted before |
| `Admissibility.UnusedIsAdmissible` | src/testudo/runtime/assignment.py:317-385 | in every reachable state, a request whose ids were never admitted nor named in a reconciliation is admissible when nothing is ambiguous and no directory has its name |
| `AdmissionSafety.ReachableIsSafe` | src/testudo/runtime/assignment.py:317-1041 | every reachable state satisfies the invariant |
| `AdmissionRecovery.StepFine` | src/testudo/runtime/assignment.py:678-746 | without damage every step keeps all admitted runs loadable |
| `AdmissionRecovery.AdmittedStaysLive` | src/testudo/runtime/assignment.py:678-746 | with crashes alone every admitted assignment is live after loading, in agreement with its files, and nothing is quarantined that held a request |
| `AdmissionMemory.StepRemembers` | src/testudo/runtime/assignment.py:317-1041 | no step but a crash, damage to files included, makes the process forget a live run, a receipt, a tombstone or an ambiguous name, except the one being reconciled |
| `AdmissionMemory.ReceiptsAreFinalInProcess` | src/testudo/runtime/assignment.py:448-632 | until the process ends a receipt once set, durable or not, never changes, nor does the log it covers |
| `Reconciliation.ReconcilableExactlyWhen` | src/testudo/runtime/assignment.py:865-919 | an ambiguous name can be reconciled truthfully exactly when what was admitted under it is neither live nor tombstoned |
| `Reconciliation.BlockedUntilRestart` | src/testudo/runtime/assignment.py:865-919 | an ambiguous name that cannot be reconciled blocks every admission until the process ends |
| `Reconciliation.ClearsExactlyWhen` | src/testudo/runtime/assignment.py:865-919 | an operator can clear an idle service exactly when each ambiguous name can be reconciled |
| `Ambiguity.AmbiguousExactly` | src/testudo/runtime/assignment.py:678-699 | without damage a name is ambiguous to an idle service exactly when it has a marker, or quarantined files beside the two harmless ones and no tombstone |
| `Reconciliation.BlockedForever` | src/testudo/runtime/assignment.py:678-699 | from a crash that left a marker beside a tombstone of the same admitted name, no service without further damage ever admits anything or accepts a truthful reconciliation of that name |
| `Reconciliation.AnyRequestCanBeBlocked` | src/testudo/runtime/assignment.py:901-919 | such a crash can befall any request, between the tombstone and the marker of a truthful reconciliation |
| `AssignmentService.Service.constructor` | src/testudo/runtime/assignment.py:278-311 | a new service over any reachable disk is valid, and every identity ever launched is live, tombstoned or blocks admission |
| `AssignmentService.Service.LoadDurableState` | src/testudo/runtime/assignment.py:678-746 | loading reads tombstones, markers and run directories, every write on the way being a step of the machine |
| `AssignmentService.Service.ReadRunDirectory` | src/testudo/runtime/assignment.py:700-746 | a directory's log is compacted, and then it goes live as what it loads into, or is settled in quarantine, or makes its name ambiguous where that name is taken |
| `AssignmentService.Service.QuarantineDirectory` | src/testudo/runtime/assignment.py:921-973 | the directory moves aside; if it was admitted, it is tombstoned as it was admitted, in memory and on disk, when its request or receipt can be read, and else its name is ambiguous in memory and on disk |
| `AssignmentService.Service.Start` | src/testudo/runtime/assignment.py:317-350 | admission happens exactly when the duplicate checks pass: never for ids admitted before, always for ids never used when nothing is ambiguous; then one launch, and the disk holds exactly the request and the admitted event besides what it held |
| `AssignmentService.Service.CancelRun` | src/testudo/runtime/assignment.py:392-410 | a cancellation is accepted exactly until the run has a receipt, unless it was recovered after its work had begun; it returns the cancel_requested event, which is then the last, and the first one appends it to the log on disk |
| `AssignmentService.Service.TerminalizeRun` | src/testudo/runtime/assignment.py:448-509 | a recovered run without receipt is closed by a durable receipt whose digest covers its log |
| `AssignmentService.Service.Persist` | src/testudo/runtime/assignment.py:1028-1041 | the receipt is durable afterwards and nothing else of the run changed |
| `AssignmentService.Service.LiveRunsAreOrderly` | src/testudo/runtime/assignment.py:392-410 | what holds of live runs holds of those in the service object when no evidence was damaged |
| `AssignmentService.Service.AppendLine` | src/testudo/runtime/assignment.py:524-544 | the pending record is appended to the log on disk, and nothing else of the disk changes |
| `AssignmentService.Service.Region` | src/testudo/runtime/assignment.py:546-632 | one lock-held region changes memory and disk as specified |
| `AssignmentService.Service.ReconcileQuarantine` | src/testudo/runtime/assignment.py:865-919 | a truthful reconciliation tombstones both ids durably before the ambiguity is lifted |
| `AssignmentService.Service.AmbiguityCanBeLifted` | src/testudo/runtime/assignment.py:865-919 | in the service object an ambiguous name can be reconciled exactly when what was admitted under it is neither live nor tombstoned |
| `Artifacts.ExportKeeps` | src/testudo/artifacts.py:91-146 | an export, completed or rejected midway, keeps the store invariant and changes nothing already stored |
| `Artifacts.ExportOneKeeps` | src/testudo/artifacts.py:210-254 | an object is committed under its own digest only after its scanner accepted it |
| `Artifacts.ManifestKeeps` | src/testudo/artifacts.py:131-146 | recording the manifest of files that were all accepted keeps the store invariant |
| `Artifacts.EveryExportSequenceIsSafe` | src/testudo/artifacts.py:63-146 | over every sequence of exports the store invariant holds and nothing disappears |
| `Artifacts.AcceptableMeans` | src/testudo/artifacts.py:108-118 | an export is begun exactly for a well-formed request with a run id that is not taken |
| `Artifacts.IdsTaken` | src/testudo/artifacts.py:108-118 | over any exports the ids taken are those of the well-formed requests, whatever became of them |
| `ArtifactRoundTrip.WalkIsPlaceable` | src/testudo/artifacts.py:257-281 | in walk order no path lies above another, and no staging name meets an earlier file |
| `ArtifactRoundTrip.WalkLists` | src/testudo/artifacts.py:257-281 | the walk lists each file of the tree and nothing else |
| `ArtifactRoundTrip.JoinedName` | src/testudo/artifacts.py:180-190 | a path survives joining and splitting, and is a safe name exactly when its parts are trimmed |
| `ArtifactRoundTrip.PutNext` | src/testudo/artifacts.py:202-207 | with the earlier files in place the next one can be written, if its name leaves room for the staging suffix |
| `ArtifactRoundTrip.RoomForStaging` | src/testudo/artifacts.py:367-373 | the staging name fits exactly when the file's own name leaves four bytes |
| `ArtifactRoundTrip.ALongNameLeavesNoRoom` | src/testudo/artifacts.py:367-373 | a legal, trimmed name as long as the limit allows leaves no room |
| `ArtifactRoundTrip.CleanExport` | src/testudo/artifacts.py:91-146 | an acceptable request is exported exactly when its files are regular, within the limits and each accepted unchanged by the scanner; manifest and objects are then exactly its files |
| `ArtifactRoundTrip.OneRefusesAll` | src/testudo/artifacts.py:180-207 | one name that is unsafe, or too long to be staged, refuses the whole list |
| `ArtifactRoundTrip.MaterializedMeans` | src/testudo/artifacts.py:154-208 | whatever the artifacts are called: when all are written, each is below the destination with its own digest where nothing was before, no two at one place, and nothing else changed |
| `ArtifactRoundTrip.RoundTrip` | src/testudo/artifacts.py:91-208 | a tree is exported exactly when it is clean; materialising in manifest order then succeeds exactly when no component has outer white space and every file name leaves room for the staging suffix, and reproduces exactly the tree's files |
| `ArtifactStore.ArtifactStore.ExportOne` | src/testudo/artifacts.py:210-254 | one file is scanned, rehashed and committed as specified |
| `ArtifactStore.ArtifactStore.ExportTree` | src/testudo/artifacts.py:91-146 | the loop over files is the specified export |
| `ArtifactStore.ArtifactStore.Materialize` | src/testudo/artifacts.py:154-208 | the loop over artifacts is the specified materialising; a refusal leaves exactly the files of the artifacts before it |
| `ArtifactStore.Destination.CopyExact` | src/testudo/artifacts.py:367-393 | a file is staged exclusively and renamed, or no file changes |
| `Supervision.WorkerLifecycle.Trip` | src/testudo/runtime/capability.py:330-339 | the first trip notifies, revokes, kills and wipes in that order; later ones do nothing |
| `Supervision.WorkerLifecycle.Check` | src/testudo/runtime/worker.py:91-97 | a token out of force ends the worker |
| `Supervision.WorkerLifecycle.Request` | src/testudo/runtime/capability.py:317-328 | exactly when a capability request is granted, refused or ends the worker |
| `Supervision.WorkerLifecycle.Wait` | src/testudo/runtime/worker.py:105-126 | the supervision loop ends as specified and leaves the worker closed unless it was interrupted |
| `Supervision.WorkerLifecycle.Finish` | src/testudo/runtime/worker.py:152-169 | a finished worker is closed, revoked once and wiped once |
| `Supervision.WorkerLifecycle.WipeVm` | src/testudo/runtime/worker.py:135-143 | wiping happens once |
| `Supervision.WorkerLifecycle.RevokeOnce` | src/testudo/runtime/worker.py:145-150 | revocation happens once |
| `Supervision.ExitIsObserved` | src/testudo/runtime/worker.py:105-126 | a returned exit status was observed while the token was in force |
| `Supervision.EndingMeans` | src/testudo/runtime/worker.py:105-126 | the first pass that is not quiet decides: an exit if the token is in force and the process has a status, and else the worker's end |
| `HostControl.ReceivedIsCarried` | src/testudo/runtime/controller.py:266-300 | what the receive loop kept is the concatenation of the chunks before the result, within bounds, and at most one receipt |
| `HostControl.AgreedOn` | src/testudo/runtime/controller.py:302-322 | a hash and exit status are agreed on only when result and guest receipt both carry them |
| `HostControl.AgreementIsFound` | src/testudo/runtime/controller.py:302-322 | and whenever they do |
| `HostEvidence.ReceivedExactly` | src/testudo/runtime/controller.py:266-300 | the loop ends with a result exactly when one comes in time after frames that carry text, at most 4 MiB on each stream, and at most one receipt |
| `HostEvidence.GuestReceiptMeans` | src/testudo/runtime/controller.py:460-494 | a guest's receipt agrees exactly when it names the schema, this run and this result, gives back the containment asked for, and has an artifact digest |
| `HostEvidence.ResultMeans` | src/testudo/runtime/controller.py:302-322 | a result agrees exactly when it carries its status and the hash of everything else in it |
| `HostEvidence.AdmissibleMeans` | src/testudo/runtime/controller.py:445-457 | a contract is admitted exactly when it names this run |
| `HostEvidence.NumbersCompareByValue` | src/testudo/runtime/controller.py:479-486 | numbers compare by value whatever their kind, and NaN equals nothing |
| `HostEvidence.SoundExactly` | src/testudo/runtime/controller.py:212-386 | a worker is sound exactly when it does each thing a run needs and its result, receipt and exit agree |
| `HostControl.EqualIsIdentity` | src/testudo/runtime/controller.py:479-486 | values equal to Python are identical exactly when their kinds agree at every place |
| `HostControl.ContainmentNeedNotBeIdentical` | src/testudo/runtime/controller.py:479-486 | a receipt with 1 for True agrees with the containment asked for |
| `HostControl.ContainmentIsIdenticalWhenAlike` | src/testudo/runtime/controller.py:479-486 | an agreeing containment is the expected one exactly when it is alike |
| `HostControl.IssuableWhenWritable` | src/testudo/runtime/controller.py:130-159 | a host receipt can be issued exactly when its hash is one and the guest's receipt holds no byte string |
| `HostControl.BytesPassTheChecksAndStopTheReceipt` | src/testudo/runtime/controller.py:460-494 | a guest receipt that agrees still does with a byte string beside its fields, and then no host receipt can be issued |
| `HostControl.HostController.Receive` | src/testudo/runtime/controller.py:266-300 | the loop keeps what is specified and reports every chunk it kept |
| `HostControl.HostController.Emit` | src/testudo/runtime/controller.py:434-443 | events are numbered without gaps, even when the sink stops the run |
| `HostControl.HostController.Stop` | src/testudo/runtime/controller.py:388-409 | a stop closes the lifecycle once per run |
| `HostControl.HostController.StopAfterFailure` | src/testudo/runtime/controller.py:411-432 | after a failure the lifecycle is closed |
| `HostControl.HostController.Run` | src/testudo/runtime/controller.py:212-386 | a returned run issued exactly one receipt that agrees with result, guest receipt and observed exit; every launched worker is closed, revoked once and then wiped once; left alone, a run returns exactly when its worker is sound, and reports its opening, its chunks and its receipt in order, or its failure last |
| `PolicyBoundary.LawfulMeans` | src/testudo/runtime/policy_enforcer.py:647-684 | decisions take the numbers from zero without gaps, and none is allowed after a wipe |
| `PolicyBoundary.ReceiptsAreNumbered` | src/testudo/runtime/policy_enforcer.py:647-684 | the receipts' numbers increase, and one is missing exactly where the decision that took it could not be issued |
| `PolicyBoundary.NothingAllowedAfterExpiry` | src/testudo/runtime/policy_enforcer.py:686-703 | once a call began at or past expiry, it and every later call allow nothing |
| `PolicyBoundary.AllowedReceiptCanBeStampedLate` | src/testudo/runtime/policy_enforcer.py:652-703 | an allowed receipt can be stamped at expiry |
| `PolicyBoundary.LateExactlyWhenExpiryFallsBetween` | src/testudo/runtime/policy_enforcer.py:652-703 | an allowed receipt is stamped late exactly when expiry falls after its check and no later than its stamp |
| `PolicyBoundary.NothingAllowedAfterALateReceipt` | src/testudo/runtime/policy_enforcer.py:652-703 | after a late receipt nothing is allowed, but for the launch that its mount belongs to, which is then late too |
| `PolicyBoundary.LaterIsStampedLater` | src/testudo/runtime/policy_enforcer.py:652-684 | decisions are stamped in order, and calls do not overlap |
| `PolicyBoundary.DurationIsKept` | src/testudo/runtime/policy_enforcer.py:705-711 | an allowed request, launch or publication read the clock less than the limit after the run's start, and one refused as over read it no earlier than that |
| `PolicyBoundary.NothingAllowedAfterTheDuration` | src/testudo/runtime/policy_enforcer.py:705-711 | with a clock that never goes back, once the duration was over none of them is allowed |
| `PolicyBoundary.SafeGuestMeans` | src/testudo/runtime/policy_enforcer.py:105-114 | a safe guest path is the root, or names that are neither empty nor dots, each after one slash |
| `PolicyBoundary.UnderIsPrefix` | src/testudo/runtime/policy_enforcer.py:101-102 | one such path is under another exactly when it begins with all its names |
| `PolicyBoundary.SafeHostMeans` | src/testudo/runtime/policy_enforcer.py:117-132 | a host path is safe when it is absolute, holds no NUL, backslash or parent step, and resolves to the run root or below |
| `PolicyBoundary.StorageAllowedExactly` | src/testudo/runtime/policy_enforcer.py:795-869 | a path may be read exactly in a declared tree, written exactly in a writable one, mounted exactly at a tree's root, and from exactly the host path it is mounted from |
| `PolicyBoundary.LoggingBalances` | src/testudo/runtime/policy_enforcer.py:652-684 | logging a decision settles its bytes and its publication in the books |
| `PolicyBoundary.AllowedMountsAreDeclared` | src/testudo/runtime/policy_enforcer.py:740-790 | a mount is allowable exactly when it is a declared one, up to the host's path resolution |
| `PolicyBoundary.WritesStayWritable` | src/testudo/runtime/policy_enforcer.py:795-869 | an allowed write is below a writable tree, never below the inputs, and on the host below the run root |
| `PolicyBoundary.PlanStaysBelowRoot` | src/testudo/runtime/policy_enforcer.py:1095-1126 | every mount of an allowed plan resolves below the run root |
| `PolicyBoundary.DeclaredPlanIsAllowed` | src/testudo/runtime/policy_enforcer.py:1095-1126 | with validated declarations a plan's paths pass exactly when each host path is a safe one below the run root |
| `PolicyBoundary.PlanPassesMeans` | src/testudo/runtime/policy_enforcer.py:1105-1115 | a plan passes exactly when every mount is allowed and in force at its own reading |
| `PolicyBoundary.PolicyEnforcer.Decide` | src/testudo/runtime/policy_enforcer.py:652-684 | each decision takes the next number and is logged |
| `PolicyBoundary.PolicyEnforcer.CommonDenial` | src/testudo/runtime/policy_enforcer.py:686-703 | the common checks in order, reading the clock only when the others pass |
| `PolicyBoundary.PolicyEnforcer.CheckNetwork` | src/testudo/runtime/policy_enforcer.py:904-1083 | a request is allowed exactly when it is on the allow-list and within bytes and time, and only then charged; it raises, with a number gone, exactly when its phase or purpose is not text; the bytes of allowed decisions sum to the total, which never exceeds the limit |
| `PolicyBoundary.PolicyEnforcer.CheckMount` | src/testudo/runtime/policy_enforcer.py:740-790 | a mount is allowed exactly when the common checks and its own pass |
| `PolicyBoundary.PolicyEnforcer.CheckStorage` | src/testudo/runtime/policy_enforcer.py:795-869 | a storage use is decided by the common checks and then its own; a mount that passes goes on to the mount check at a second reading |
| `PolicyBoundary.PolicyEnforcer.BeforeLaunch` | src/testudo/runtime/policy_enforcer.py:1095-1126 | a launch is allowed exactly when the common checks, the run root, the duration and each mount at its own reading pass; its mounts are logged first |
| `PolicyBoundary.PolicyEnforcer.BeforePublication` | src/testudo/runtime/policy_enforcer.py:1148-1192 | exactly when a publication is allowed, at most once, with an allowed launch receipt |
| `PolicyBoundary.PolicyEnforcer.CheckPolicyDigest` | src/testudo/runtime/policy_enforcer.py:1199-1208 | the digest decision is the common checks with the digest required |
| `PolicyBoundary.PolicyEnforcer.WipeOnce` | src/testudo/runtime/policy_enforcer.py:1210-1216 | the first wipe calls the adapter, every later one returns the first receipt |
| `Rendering.ShellReadsWords` | src/testudo/seats/render.py:27-34 | the shell reads a rendered command as exactly the given words, for exactly the lists without NUL |
| `Rendering.LexQuote` | src/testudo/seats/render.py:27-29 | a quoted word is read as that word |
| `Rendering.RemoteCommandRunsScript` | src/testudo/seats/render.py:37-39 | the remote shell always runs the script with exactly these arguments |
| `Rendering.RenderIsInjective` | src/testudo/seats/render.py:32-34 | different commands never render alike |
| `Replay.CanonicalIsUnique` | src/testudo/runtime/assignment_protocol.py:207-215 | one number has one canonical nonce |
| `Replay.AcceptsAsSimple` | src/testudo/runtime/assignment_protocol.py:188-228 | the verifier with its full history accepts exactly what one with a high-water mark and a count accepts |
| `Replay.SessionRun` | src/testudo/runtime/assignment_protocol.py:188-228 | over every run accepted numbers strictly increase and at most 1024 are accepted |
| `Replay.AcceptedExactlyWhen` | src/testudo/runtime/assignment_protocol.py:188-228 | over any events a new verifier accepts exactly the commands that carry the credential of their own nonce, request and session under the active secret, numbered above all accepted before, fewer than 1024 of them |
| `Replay.OpensExactlyWhen` | src/testudo/runtime/assignment_protocol.py:137-158 | a verifier can be opened exactly for a secret long enough, bound to its session, whose generation is the one registered |
| `Replay.CredentialsAreUnique` | src/testudo/runtime/assignment_protocol.py:100-120 | with an injective code, a credential accepted anywhere is accepted for no other nonce, request, session or secret |
| `Replay.SessionIdsAre` | src/testudo/runtime/assignment_protocol.py:40 | a session id is 1 to 128 letters, digits, dots, underscores and hyphens, and starts with a letter or digit |
| `Replay.NothingAfterReplacement` | src/testudo/runtime/assignment_protocol.py:59-97 | after its secret is replaced or withdrawn a verifier accepts nothing |
| `Replay.SecretRegistry.Provision` | src/testudo/runtime/assignment_protocol.py:59-78 | minting replaces the session's active generation |
| `Replay.SecretRegistry.Revoke` | src/testudo/runtime/assignment_protocol.py:87-97 | revoking removes it |
| `Replay.OpenSession` | src/testudo/runtime/assignment_protocol.py:137-158 | a verifier is built exactly for an active generation with a matching digest |
| `Replay.CommandSessionVerifier.VerifyCommand` | src/testudo/runtime/assignment_protocol.py:188-228 | verification as specified; a rejected command changes nothing |
| `Replay.CommandSessionVerifier.CommandsRemaining` | src/testudo/runtime/assignment_protocol.py:182-186 | something is left exactly when a well-formed command with a number above all earlier ones would still be accepted |
| `RateLimiting.ScanRateLimiter.Admit` | src/testudo/seats/discovery.py:75-92 | one admission as specified, remembering at most 256 sets |
| `RateLimiting.EvictionIsUnobservable` | src/testudo/seats/discovery.py:75-92 | for times that never go back the evicting limiter answers as one that never forgets |
| `RateLimiting.AdmittedScansAreSpaced` | src/testudo/seats/discovery.py:75-92 | admitted scans are at least 10 s apart, and 30 s for the same set |
| `RateLimiting.AdmittedExactlyWhen` | src/testudo/seats/discovery.py:75-92 | for times that never go back a scan is admitted exactly when it comes 30 s after the clock's origin, 10 s after every admitted one and 30 s after those of the same candidates |
| `RateLimiting.FewRecent` | src/testudo/seats/discovery.py:86-91 | spaced stamps within the window are at most four, so eviction always makes room |
| `RateLimiting.RefusalNamesFirstInstant` | src/testudo/seats/discovery.py:75-84 | a refusal names the first instant at which the same request would be admitted |
| `Redaction.RedactPii` | src/testudo/sanitisers/pii.py:78-109 | the markers stand in place of the selected spans, and the same gaps with the matched texts are the original |
| `Redaction.SelectionIsLeftmostLongest` | src/testudo/sanitisers/pii.py:93-100 | selected spans are disjoint matches in order; every dropped one starts inside a selected one that is at least as long when both start together |
| `Redaction.SortIsSorted` | src/testudo/sanitisers/pii.py:89-93 | sorting permutes the matches into order |
| `Redaction.SortIsStable` | src/testudo/sanitisers/pii.py:89-93 | matches of one stretch of text keep the order of their patterns |
| `Redaction.SpansRebuild` | src/testudo/sanitisers/pii.py:101-109 | putting the matched texts back rebuilds the original |

## Left out

- Real I/O, sockets, subprocesses, virtual machines, git, SSH and web layers; regions under one lock are single steps, and threads interleave between them.
- `OSError` faults in the assignment store: faults are crashes between any two writes and evidence that turns unparsable. A quarantine record that cannot be written is not modelled.
- fsync, file modes, symlink resolution and concurrent writers to an export source; limits on whole paths, file systems that fold case or normalise names, and names that are not UTF-8.
- File names of the assignment state root: run directories, quarantined directories and markers are three tables, since ids contain no dots; recovery visits directories in any order.
- Envelope verification, signatures, expiry and artifact promotion of assignments: `AssignmentService.Service.Start` begins once an envelope is verified.
- The shapes and lengths of ids, which requests and tombstones check when they are made: in `Reconciliation` an unused id always exists.
- Timestamps and details of events, which are one note per event.
- CborDecoder.AcceptsExactlyEncodings: map keys are text and bodies with other keys are rejected here, where the program decodes them; Python's merging of the keys 1, True and 1.0 does not arise.
- Floats in CBOR are their eight bytes; what a float's bytes compare as is a parameter of the host controller. The `cbor2` package is not part of this model: the in-repository codec stands for both ends.
- Workflow policies, event emission, tool timeouts and permissions of steps.
- Failed sends in the conversation of two honest parties, whose channels lose nothing; failed writes are in `Sessions` and `Transport`. The host bootstraps through `bootstrap()` only.
- The walk of an export tree is computed before the loop that consumes it; files are hashed and copied whole, not in chunks; the JSON form of a manifest.
- Callbacks that raise while a worker is being stopped. The supervisor and the lifecycle, which call each other, are one object. A wait or a receive loop whose observations run out stands for an interrupt.
- Checks of `run` on the types of workflow and inputs and on the timeout, which raise before a launch, and Python's recursion limit.
- Waiting deadlines are observations, and the broker's own protocol state is in `Sessions`; runtime in milliseconds and truncation flags of the output event.
- HostControl.HostController.Run: a stop by the operator is possible at every event, before every frame and before the wait, not between two statements that emit nothing.
- Validation of policy declarations, the hash inside a policy receipt, and `mark_wiped`.
- PolicyBoundary.PolicyEnforcer.Decide: clock readings are finite; on one that is not, the program raises, and at a stamp a number is then gone and what an allowed decision entered stays entered.
- RateLimiting.AdmittedScansAreSpaced: stamps are real numbers, where the program adds floats, so that admitted scans can be closer than stated by a rounding error.
- Reasons as texts: denials and errors are enumerated, and a few are one, such as the two of a policy digest that is malformed or differs.
- The character loss of a dropped overlapping match in redaction: the tail of such a match can remain, and regular expressions are functions from text to spans.
- Discovery, seats and dispatcher code around the rate limiter, the quoting and the replay verifier; `int` and `isdecimal` on canonical nonces are modelled on ASCII digits.
