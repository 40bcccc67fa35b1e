# Chaos Lab in Dafny

Chaos Lab is a fault-injection laboratory: it plans faults from a seed, injects them into a
coordinator/worker runtime and its framed TCP connections, records evidence, and replays it. This
project models its deterministic core and proves what every run of it keeps.

| modules | what they hold |
|---|---|
| `Words`, `Text`, `Bytes` | splitting, trimming, hexadecimal and decimal numerals, integers as bytes |
| `Fips180`, `FipsConstants`, `KnownVector`, `Sha256`, `Digest` | the SHA-256 of FIPS 180-4 with its constants derived and the digest of "abc" worked out, the streaming hasher proved equal to it, digest values |
| `SplitMix`, `Scheduler`, `Triggers` | the 64-bit stream, the event-driven fault scheduler, and when each fault fires by category and parameters |
| `Campaign`, `Fuzz`, `Generation`, `DefaultSeed` | campaign validity, the greedy reducer, the generator, what it generates entry by entry, and the default call worked out |
| `Escape`, `Evidence`, `EvidenceRoundTrip`, `Recorder`, `Json`, `JsonUnique`, `Replay`, `PlanReplay`, `TerminalState` | evidence as text and as JSON, its digest, and the three replays |
| `Frames`, `Wire`, `Proxy`, `FaultEffects`, `Forwarder` | the frame codec, receiving under any split of the reads, the proxy on frame lists, what single faults do, and the byte loop |
| `Layouts`, `Acceptance` | the bytes and texts other programs see spelled out, and which texts are accepted |
| `Payloads`, `Coordinator` | the runtime's text messages and the coordinator's handlers |
| `Incarnations`, `FieldReads`, `Protocol`, `Deployment`, `Descriptors` | whole runs: a chain of coordinators with hostile completions, concurrent submissions, the end-to-end protocol on messages and on the texts that carry them, connections |

State that the source updates in place is a class (`Sha256.Hasher`, `SplitMix.Stream`,
`Scheduler.FaultScheduler`, `Fuzz.CampaignFuzzer`, `Recorder.EvidenceRecorder`, `Wire.Socket`,
`Coordinator.Coordinator`); its methods are tied to functions on values, and the theorems over runs are
about those functions. Loops stay loops. A byte string is a `string` where the source treats it as text
and a sequence of `Byte` where it hashes or frames it. Concurrency is modelled as interleavings of the
atomic steps the source's mutex leaves: a run is any sequence of events.

## Findings

Where the code does less than it, its comments or its tests suggest, the code is modelled as it is, the
failing inputs are shown, and the exact condition is proved.

- The header calls the text round trip exact (`include/chaoslab/evidence.h:71-73`). It is exact, up to the
  timestamp, for precisely the records of `Evidence.Survives` (`EvidenceRoundTrip.RoundTrip`).
- `serialize_json` writes field keys unescaped. As long as no key holds a quote, different streams have
  different JSON (`Json.JsonInjective`); among all streams, the JSON of a quote-free stream is its own exactly
  when the stream has at most one field altogether (`JsonUnique.ToldExactly`).
- `handle_submit` reads the authority again after releasing the lock. With two controllers at once a
  result can be committed for the wrong work, and an honest answer then counts as a conflicting duplicate
  (`FieldReads.OverlapCommitsWrongWork`). In every run an accepted honest answer is the result of the work
  submitted as its attempt exactly when nobody took the lock between the submission's own lock and its last
  read, or the two works have the same result (`FieldReads.CommitsRightWorkExactly`); two answers conflict exactly
  when their works' results differ (`FieldReads.QuotesConflictExactly`).
- No check compares the quoted worker with the current one, so an attempt is unique per signature only: one
  accepted twice was accepted under two worker ids and otherwise the same numbers
  (`Incarnations.AnotherWorkerAccepted`, `Incarnations.TwiceOnlyByTwoWorkers`); with honest workers it is unique
  (`Protocol.CommittedOnceAndRight`).
- A worker that reconnects before its old connection ends is marked dead although it is connected
  (`Descriptors.ReconnectedButDead`). The end of a connection leaves everybody who is mapped alive exactly when its
  worker is not mapped from a second one (`Descriptors.EraseLiving`). Two ids registered on one connection outlive
  it (`Descriptors.TwoIdsOutlive`, exact condition in `Descriptors.RegisterBacked`). Without either, alive and mapped
  are the same (`Descriptors.AliveExactlyWhenMapped`).
- Equal records do not settle the terminal state that `compare_runs` reports (`Replay.TerminalNotSettled`). Among
  legible runs they do exactly when the terminal phase holds no newline, no carriage return and no backslash
  before n or r (`TerminalState.SettledExactly`).
- A generated campaign can fail its own validation, and the default call with the default seed does: it draws
  one worker and six faults (`DefaultSeed.DefaultCampaignInvalid`; exact condition in `Fuzz.GeneratedValid`).
- A frame held for reordering is never flushed (`Proxy.ReorderPermutes`), corruption spares frames of 2^31
  bytes or more, and a negative truncation offset does not truncate (`Proxy.CorruptsWhen`, `Proxy.FrameShape`).
- `Digest256::parse` also accepts upper-case digits (`Digest.HexRoundTrip`).

## Model

| member | source | states |
|---|---|---|
| Text.SplitPieces | src/text.cpp:33-44 | the pieces hold no delimiter and join back to the text |
| Text.SplitJoin | src/text.cpp:33-53 | delimiter-free pieces that are joined split into the same pieces |
| Text.SplitScan | src/text.cpp:33-44 | the scanning loop yields exactly those pieces |
| Text.JoinScan | src/text.cpp:46-53 | the loop that puts the delimiter before all pieces but the first is the recursive join |
| Text.TrimScan | src/text.cpp:65-71 | walking in from both ends removes exactly the leading and trailing white space |
| Text.TrimAfter | src/text.cpp:65-71 | trimming a text with a solid head removes only the white space after the rest |
| Text.HexRoundTrip | src/text.cpp:8-31 | sixteen digits of any 64-bit value read back as that value |
| Text.ToHexScan | src/text.cpp:8-16 | filling the places from the last to the first gives the sixteen-digit numeral |
| Text.FromHexScan | src/text.cpp:18-31 | shifting in digits is the 64-bit fold; fails on no digits or any non-digit |
| Fips180.PadIsStandard | src/digest.cpp:130-140 | the padding is that of section 5.1.1 of FIPS 180-4: a one bit, zero bits, the 64-bit length |
| Fips180.LeastZeros | src/digest.cpp:134-135 | the zero bits are the least number that reaches 448 modulo 512 |
| Fips180.PadWhole | src/digest.cpp:130-140 | a padded message is a whole number of 64-byte blocks |
| FipsConstants.PrimesAreFirst | src/digest.cpp:13-22 | the list the constants come from is that of the first 64 primes |
| FipsConstants.RoundConstants | src/digest.cpp:13-22 | every round constant is the first 32 bits of the fractional part of the cube root of its prime |
| FipsConstants.InitialValue | src/digest.cpp:76-80 | the initial value holds the first 32 bits of the fractional parts of the square roots of the first eight primes |
| KnownVector.DigestOfAbc | tests/test_digest.cpp:5-9 | the digest of "abc" is ba7816bf 8f01cfea 414140de 5dae2223 b00361a3 96177a9c b410ff61 f20015ad |
| Sha256.Hasher.constructor | include/chaoslab/digest.h:53 | a new hasher has consumed nothing |
| Sha256.Hasher.Reset | src/digest.cpp:76-83 | back to the initial value of section 5.3.3, nothing consumed |
| Sha256.Hasher.ExpandSchedule | src/digest.cpp:85-97 | the array of 64 words is the message schedule of section 6.2.2 |
| Sha256.Hasher.RunRounds | src/digest.cpp:98-109 | the 64 rounds compute the working variables of section 6.2.2 |
| Sha256.Hasher.ProcessBlock | src/digest.cpp:85-112 | the state becomes the standard's compression of the old state and the buffered block |
| Sha256.Hasher.Update | src/digest.cpp:114-128 | the consumed message grows by exactly the data, whatever was buffered |
| Sha256.Hasher.PadToLength | src/digest.cpp:132-135 | the padding loop ends and has consumed 0x80 and the required zero bytes |
| Sha256.Hasher.Finish | src/digest.cpp:130-149 | returns the FIPS 180-4 SHA-256 of everything consumed |
| Digest.HashPieces | src/digest.cpp:114-149 | however a text is cut into updates the digest is that of the whole text |
| Digest.HexRoundTrip | src/digest.cpp:32-60 | a digest prints and parses back; parsing accepts exactly 64 hexadecimal digits and prints them in lower case |
| Digest.HexScan | src/digest.cpp:51-60 | the printing loop is the digit-pair function |
| Digest.ParseScan | src/digest.cpp:32-49 | the parsing loop is the digit-pair reader, rejecting other lengths and digits |
| Digest.ToU64Scan | src/digest.cpp:62-68 | folding eight bytes is their big-endian value |
| Digest.SameWordsIsEquality | include/chaoslab/digest.h:35-38 | comparing four words is comparing the digests |
| Digest.DoWork | apps/target_worker.cpp:27-34 | the worker's result is the hexadecimal SHA-256 of work and boot suffix |
| Digest.HashedText | apps/target_worker.cpp:27-34 | what is hashed: the work, a bar, `boot=` and the boot in decimal |
| Digest.HashedTextsDiffer | apps/target_worker.cpp:28-32 | for bar-free work the hashed texts are equal only for equal work and boot |
| SplitMix.MixInjective | include/chaoslab/random.h:16-21 | the output function is injective on 64-bit words |
| SplitMix.StatesMeet | include/chaoslab/random.h:16-17 | two states of the walk agree exactly when their positions agree modulo 2^64 |
| SplitMix.DrawsMeet | include/chaoslab/random.h:16-21 | two outputs of a stream agree exactly when their positions agree modulo 2^64, for every seed |
| SplitMix.Stream.Next | include/chaoslab/random.h:16-21 | one step of the walk and its output |
| SplitMix.Stream.Peek | include/chaoslab/random.h:23-28 | the next output, without the step |
| SplitMix.Stream.Below | src/random.cpp:13-16 | the next output modulo n; for zero no step is taken |
| Scheduler.PlanIdsDistinct | src/scheduler.cpp:84-118 | all injection ids of a plan are pairwise distinct for every seed |
| Scheduler.FiredWhenDue | src/scheduler.cpp:138-177 | after any run an injection has fired exactly when the closed form of the history says so, and nothing else of it changed |
| Scheduler.OrderIrrelevant | src/scheduler.cpp:138-177 | the final schedule depends only on the multiset of observations |
| Scheduler.RunConserves | src/scheduler.cpp:138-189 | the ids returned over a run are exactly those of the injections that fired |
| Scheduler.NoIdTwice | src/scheduler.cpp:138-168 | no id is returned twice over a whole run |
| Triggers.DeathsFire | src/scheduler.cpp:30-35 | by default process, worker and coordinator deaths and failed recoveries fire exactly on the event "completion_boundary", or the trigger name they choose |
| Triggers.TrafficFire | src/scheduler.cpp:36-55 | faults of sockets, frames and messages fire exactly on the event or message "protocol_message" |
| Triggers.StaleAuthorityFire | src/scheduler.cpp:47-52 | stale authorities fire exactly on "explicit_barrier" |
| Triggers.PersistenceFire | src/scheduler.cpp:56-62 | faults of files fire exactly on "persistence_phase" |
| Triggers.ResourcesFire | src/scheduler.cpp:63-69 | faults of resources fire exactly on "resource_threshold" |
| Triggers.RacesFire | src/scheduler.cpp:73-77 | races, clock skew and invalid states fire exactly on the event or state "state_transition" |
| Triggers.CountedFire | src/scheduler.cpp:78-80 | all other faults fire exactly on "event_count" |
| Triggers.CountedFromAtCount | src/scheduler.cpp:98-114 | a fault told to count events fires exactly from the at_count-th of its name, at_count being hexadecimal and one by default |
| Triggers.DispatchOverrides | src/scheduler.cpp:98-108 | the trigger parameter "dispatch", in any case, overrides the category |
| Triggers.StateTransitionOverrides | src/scheduler.cpp:98-108 | the same for "state_transition", which states also set off |
| Triggers.ProtocolMessageOverrides | src/scheduler.cpp:98-108 | the same for "protocol_message", which messages also set off |
| Triggers.CompletionBoundaryOverrides | src/scheduler.cpp:98-108 | the same for "completion_boundary" |
| Triggers.PersistencePhaseOverrides | src/scheduler.cpp:98-108 | the same for "persistence_phase" |
| Triggers.ExplicitBarrierOverrides | src/scheduler.cpp:98-108 | the same for "explicit_barrier" |
| Triggers.ResourceThresholdOverrides | src/scheduler.cpp:98-108 | the same for "resource_threshold" |
| Triggers.ProcessRegistrationOverrides | src/scheduler.cpp:98-108 | the same for "process_registration" |
| Triggers.OthersIgnored | src/scheduler.cpp:98-109 | any other trigger parameter is ignored |
| Triggers.AnyNameFires | src/scheduler.cpp:138-149 | a death with an empty trigger name fires on the first event of whatever name |
| Triggers.PlanFollows | src/scheduler.cpp:89-117 | the plan takes over fault, category, target and timing in order, with the draws as ids |
| Scheduler.FaultScheduler.PlanCampaign | src/scheduler.cpp:84-118 | the schedule becomes the plan of the seed: one draw a fault, trigger and count overrides applied |
| Scheduler.FaultScheduler.TryFire | src/scheduler.cpp:138-149 | marks exactly the matching waiting injections and returns their ids in schedule order |
| Scheduler.FaultScheduler.ObserveEvent | src/scheduler.cpp:151-168 | counts the event and fires under every trigger kind; the run is extended by it |
| Scheduler.FaultScheduler.ObserveState | src/scheduler.cpp:170-173 | the run is extended by a state observation |
| Scheduler.FaultScheduler.ObserveMessage | src/scheduler.cpp:175-177 | the run is extended by a message observation |
| Scheduler.FaultScheduler.EventCount | src/scheduler.cpp:120-125 | how often the event was observed since the plan |
| Scheduler.FaultScheduler.FiredCount | src/scheduler.cpp:185-189 | the number of fired injections is the number of ids returned since the plan |
| Scheduler.FaultScheduler.AllFired | src/scheduler.cpp:179-183 | true exactly when the history makes every planned injection due |
| Campaign.Validate | src/campaign.cpp:64-106 | accepts exactly the valid campaigns; a rejection carries the message of the first violation in the order of the checks |
| Campaign.ValidMeans | src/campaign.cpp:64-106 | validity over plain fields: limits, seed, as many ids as targets, executables, references |
| Fuzz.ReduceFaults | src/fuzz.cpp:143-156 | for every predicate a fault is kept exactly when the failure is lost on the faults kept before it and all after it; under a monotone predicate each one kept is needed |
| Fuzz.ReduceTargets | src/fuzz.cpp:157-172 | a target is kept exactly when it is a coordinator, a fault refers to it, or the failure is lost without it, from the first to the last |
| Fuzz.ReduceCampaign | src/fuzz.cpp:141-175 | which faults and targets stay, for every predicate; the result is the original or still fails, stays valid, and for a monotone predicate no proper part of its faults still fails |
| Fuzz.GreedySettled | src/fuzz.cpp:145-155 | the greedy rule leaves no choice: campaign and predicate settle which faults stay |
| Fuzz.NoProperPartFails | src/fuzz.cpp:145-156 | needing every single fault excludes every proper sub-sequence, even with fewer targets |
| Fuzz.GeneratedValid | src/fuzz.cpp:88-139 | a generated campaign passes validation exactly when the seed is not zero, the workers leave the coordinator's id free, and the first three or fewer workers its faults cycle through exist |
| Fuzz.CountRange | src/fuzz.cpp:95-107 | for a positive bound the count drawn lies between one and the bound |
| Fuzz.OneFaultAlwaysValid | src/fuzz.cpp:88-139 | with at most one fault and 0x8000 workers every non-zero seed gives a valid campaign |
| Generation.CountsDrawn | src/fuzz.cpp:95-107 | the first draw settles the workers and the second the faults |
| Generation.PoolByDraw | src/fuzz.cpp:11-32 | which draws of twenty give which category |
| Generation.TargetsAre | src/fuzz.cpp:57-105 | every worker with its id and name in order, and the coordinator last |
| Generation.FaultsAre | src/fuzz.cpp:34-86 | every fault with its id, target, category by draw, scope and parameters |
| Generation.CleanupIs | src/fuzz.cpp:118-126 | every target is killed exactly once, in target order |
| Generation.RestIs | src/fuzz.cpp:90-137 | seed, mixed id, purpose, precondition and limits |
| DefaultSeed.DefaultCampaignInvalid | include/chaoslab/fuzz.h:24 | the default call with the default seed draws one worker and six faults and fails validation |
| Fuzz.CampaignFuzzer.Generate | src/fuzz.cpp:53-139 | generation is the stated function of seed and generator state, with the same validity condition |
| Escape.EscScan | src/evidence.cpp:33-39 | the loop is the character-wise escape |
| Escape.UnescScan | src/evidence.cpp:41-53 | the loop with its skip is the recursive unescape |
| Escape.EscUndone | src/evidence.cpp:33-53 | unescaping undoes escaping exactly when no backslash stands before n or r |
| Escape.UnescUndone | src/evidence.cpp:33-53 | escaping undoes unescaping for every text without a raw newline, carriage return or bar |
| Escape.UnescClean | src/evidence.cpp:41-53 | whatever is unescaped holds no backslash before n or r |
| Evidence.KindReads | src/evidence.cpp:10-14 | every kind is found again by its name, which holds no separator |
| Evidence.NamesStandFor | src/evidence.cpp:205-206 | which name stands for which kind, and that any other stands for misc |
| Evidence.PutSorted | src/evidence.cpp:212 | assigning a field keeps the keys strictly increasing |
| EvidenceRoundTrip.RoundTrip | src/evidence.cpp:115-219 | parsing what was serialised gives the stream back, up to timestamps, exactly when every record survives |
| EvidenceRoundTrip.StreamReads | src/evidence.cpp:115-219 | on the larger domain where values and payloads hold any backslash, which stream comes back |
| EvidenceRoundTrip.TextReadable | src/evidence.cpp:185-219 | every record of every text that parses is free of separators and ambiguous backslashes |
| EvidenceRoundTrip.NewlineBreaks | src/evidence.cpp:67-84 | a newline in a phase makes the first parsed phase shorter, or parsing fail |
| EvidenceRoundTrip.TextKept | src/evidence.cpp:67-84 | reading back a legible record does not change its text |
| EvidenceRoundTrip.LegibleNotSurviving | src/evidence.cpp:33-53 | the second domain is strictly larger |
| Recorder.ToTextScan | src/evidence.cpp:67-84 | the appending code prints the five joined parts |
| Recorder.ParseLineScan | src/evidence.cpp:193-216 | one line is parsed as specified, failing where the source returns false |
| Recorder.ParseTextScan | src/evidence.cpp:185-219 | the loop over lines is the recursive parser and fails at the first malformed line |
| Recorder.EvidenceRecorder.Record | src/evidence.cpp:94-107 | appends a record with the next number; every earlier number is smaller |
| Recorder.EvidenceRecorder.RecordRaw | src/evidence.cpp:109-113 | appends the record and moves the next number past it, never back |
| Recorder.EvidenceRecorder.SerializeText | src/evidence.cpp:115-125 | one line a record: id, colon, text |
| Recorder.EvidenceRecorder.Digest | src/evidence.cpp:175-183 | the SHA-256 of all records' texts, each with a newline |
| Json.JsonEscapeScan | src/evidence.cpp:16-30 | the loop is the character-wise JSON escape |
| Json.EscapeReads | src/evidence.cpp:16-30 | an escaped string closed by a quote reads back by section 7 of RFC 8259, for every string and whatever follows |
| Json.JsonInjective | src/evidence.cpp:127-173 | a stream with the JSON of a stream without quotes in keys is that stream, timestamps included, exactly when its keys hold no quote either |
| Json.JsonCollides | src/evidence.cpp:128-132 | every stream with a record of two or more fields has the JSON of a different stream |
| JsonUnique.FewFieldsTold | src/evidence.cpp:140-173 | a quote-free stream with at most one field is recovered from its JSON against every other stream |
| JsonUnique.ManyFieldsCollide | src/evidence.cpp:128-173 | every stream with two or more fields, in one record or in several, has the JSON of a different stream |
| JsonUnique.ToldExactly | src/evidence.cpp:128-173 | a quote-free stream is the only one with its JSON exactly when it has at most one field |
| Json.SerializeJsonScan | src/evidence.cpp:140-173 | the appending loops print the stated text |
| Replay.CompareRuns | src/replay.cpp:27-77 | what each flag means, every difference listed in order, and that none is listed exactly when all agree |
| Replay.NotedExactly | src/replay.cpp:39-46 | a record is noted for every differing pair and for nothing else |
| Replay.CountsPlaces | src/replay.cpp:49-53 | a count is the number of places that hold the kind |
| Replay.TerminalIs | src/replay.cpp:59-62 | the terminal phase is the phase field of the last final result, or nothing |
| Replay.SamePlanSettles | src/replay.cpp:39-75 | record-by-record agreement settles the counts of every kind and the digest |
| Replay.AgreeExactly | src/replay.cpp:27-77 | runs of surviving records agree exactly when they are equal up to timestamps |
| Replay.FieldsBlur | src/evidence.cpp:75-80 | one field holding a comma and an equal sign prints like two fields |
| Replay.TerminalNotSettled | src/replay.cpp:59-66 | a family of records of equal text that end in different phases |
| TerminalState.SettledExactly | src/replay.cpp:59-66 | among legible runs, agreement on every record settles the terminal phase exactly when that phase is written as it is and reads in one way |
| Replay.ReplayEvidence | src/replay.cpp:79-92 | accepts exactly when the recomputed digest is the expected one |
| Replay.ReplayAccepts | src/replay.cpp:79-92 | legible evidence that was written and parsed has its original digest |
| Replay.StoreAndReplay | src/replay.cpp:79-92 | writing, parsing and replaying legible evidence reports no difference |
| Replay.ReplayPlan | src/replay.cpp:94-126 | agrees exactly when the expected ids are those the plan injects under the events, in order |
| PlanReplay.ReplayedExactly | src/replay.cpp:103-111 | the expected ids: all draws in order without events; with events those of the injections as they become due, event by event and kind by kind |
| Frames.DecodesExactly | src/transport.cpp:12-58 | an encoded frame decodes to itself exactly when type and length fit 32 bits, whatever follows |
| Frames.EncodeDecoded | src/transport.cpp:12-58 | whatever decodes encodes back to exactly the bytes consumed |
| Frames.HeaderReads | src/transport.cpp:28-40 | a written header reads back |
| Frames.PrefixFree | src/transport.cpp:12-26 | no encoded frame is a prefix of another |
| Frames.ParseEncoded | src/transport.cpp:42-58 | a stream of encoded frames parses into those frames |
| Frames.ParsedFits | src/transport.cpp:42-58 | whatever a stream parses into encodes to a prefix of it |
| Wire.Socket.RecvSome | src/transport.cpp:110-114 | any positive number of the next bytes, none only at the end |
| Wire.ReadExact | src/transport.cpp:107-117 | fills the buffer with the next bytes however they arrive; closed only if too few are left |
| Wire.RecvFrame | src/runtime_protocol.cpp:19-50 | the outcome is a function of the bytes, not of how the reads are split |
| Wire.MessagesOfFrames | src/runtime_protocol.cpp:19-50 | exactly the frames before the first one over 64 MiB are received |
| Wire.PutU64 | src/runtime_protocol.cpp:62-64 | appends the eight big-endian bytes |
| Wire.GetU64 | src/runtime_protocol.cpp:66-72 | fails exactly when fewer than eight bytes are left at the offset, else their big-endian value |
| Wire.CounterReads | src/runtime_protocol.cpp:62-72 | a counter written anywhere reads back at its offset |
| Layouts.FrameOnTheWire | src/transport.cpp:12-26 | the bytes of a frame: OAHC, type and length least significant byte first, payload |
| Layouts.ReceiveCut | src/runtime_protocol.cpp:23-46 | a frame cut short is closed in the header or in the body; over 64 MiB it is too large |
| Layouts.ReceiveBad | src/runtime_protocol.cpp:31-32 | a header is bad exactly when it does not begin with the magic number |
| Layouts.PayloadsAre | apps/target_coordinator.cpp:85-190 | the order of the parts of every payload |
| Layouts.StoullReadsExactly | apps/target_coordinator.cpp:88-89 | a decimal number reads back exactly when it is below 2^64 |
| Layouts.StoullForms | apps/target_coordinator.cpp:88-89 | white space, signs and trailing text around a number, and texts without one |
| Layouts.LineIs | src/evidence.cpp:67-84 | one line of the text form and of the digested text, spelled out |
| Layouts.JsonIs | src/evidence.cpp:140-173 | one record of the JSON form, spelled out |
| Layouts.FirstDifference | include/chaoslab/evidence.h:34 | the order of field keys is decided at their first difference |
| Layouts.MarksAre | src/evidence.cpp:33-53 | the marks of newline, carriage return and bar |
| Layouts.HexDigitsAre | src/text.cpp:8-16 | the sixteen digits in order |
| Acceptance.HexAccepted | src/text.cpp:18-31 | digits in either case and nothing else, modulo 2^64 |
| Acceptance.TrimMiddle | src/text.cpp:65-71 | trimming leaves the middle between the outermost white space |
| Acceptance.BarsDecide | apps/target_coordinator.cpp:86-158 | payloads are malformed exactly by their number of bars |
| Acceptance.LineAccepted | src/evidence.cpp:193-216 | a line is accepted exactly when it has the form id, colon, five parts, with legible numbers and fields |
| Acceptance.TextAccepted | src/evidence.cpp:185-219 | a text is accepted exactly when every line that is not blank is, one record for each in order |
| Proxy.OutputIs | src/transport.cpp:128-217 | the output of every run in closed form: frame by frame up to the first closing fault, a reordered frame when the next one is read |
| Proxy.FrameShape | src/transport.cpp:172-193 | faults never change a type; truncation leaves a payload prefix of the length the offset asks for, clamped, corruption changes exactly the byte at the offset or nothing |
| Proxy.CorruptsWhen | src/transport.cpp:186-193 | when corruption changes a byte, with the size converted to int |
| Proxy.OutputReparses | src/transport.cpp:119-218 | the bytes sent parse again into exactly the output frames |
| Proxy.RunConserves | src/transport.cpp:156-216 | forwarded + dropped + one if anything was reordered + one if closed = read + duplicated; faults applied is the sum of the counters plus the close |
| Proxy.CountersCount | src/transport.cpp:164-209 | each counter is the number of frames hit by that kind of fault |
| Proxy.UnmatchedPass | src/transport.cpp:147-216 | frames no fault matches go out unchanged and in order, whatever happens to the others |
| Proxy.ReorderKeepsOrder | src/transport.cpp:194-204 | reorder faults alone keep the order of the matched frames, holding the last |
| Proxy.ReorderPermutes | src/transport.cpp:194-204 | reorder faults alone permute: output and held frame are the input |
| FaultEffects.UntouchedExactly | src/transport.cpp:147-154 | a frame passes untouched exactly when every fault asks for another direction, type or place |
| FaultEffects.FirstThatAsks | src/transport.cpp:147-154 | of the faults that ask for a frame the first in the list strikes it |
| FaultEffects.OneFault | src/transport.cpp:164-216 | the output of one fault of each kind at frame n, spelled out |
| FaultEffects.OneFaultCounts | src/transport.cpp:164-216 | its counters |
| FaultEffects.DropsExactly | src/transport.cpp:147-167 | a drop fault removes exactly the frames it asks for |
| FaultEffects.FlippedBits | src/transport.cpp:190 | corruption turns over bits 0, 2, 5 and 7 of the byte |
| Forwarder.ReadFrame | src/transport.cpp:130-144 | yields the next frame's bytes, or nothing exactly where decoding fails on reliable input |
| Forwarder.Choose | src/transport.cpp:147-154 | the first matching fault of the list |
| Forwarder.TruncateBytes | src/transport.cpp:172-182 | the rewritten bytes are the encoding of the frame with the cut payload |
| Forwarder.CorruptBytes | src/transport.cpp:186-190 | the changed bytes are the encoding of the frame with one flipped payload byte |
| Forwarder.ForwardFrames | src/transport.cpp:119-218 | the byte loop refines the frame-list machine: bytes sent, counters and result, for every fault list and every split of the reads |
| Payloads.StoullReads | apps/target_coordinator.cpp:88-89 | a decimal 64-bit number reads back |
| Payloads.RegisterReads | apps/target_worker.cpp:123 | a registration reads back at the coordinator |
| Payloads.SubmitReads | apps/target_coordinator.cpp:156-160 | a submission reads back |
| Payloads.SubmittedWorkWhole | apps/target_coordinator.cpp:156-160 | work that was accepted for submission cannot break a dispatch apart |
| Payloads.HandleDispatch | apps/target_worker.cpp:59-78 | the reply quotes the four numbers as received, the worker's own id and boot, and the result of the work |
| Payloads.DispatchAnswered | apps/target_coordinator.cpp:183-186 | a dispatch text over the wire and back is the text of the completion of the same numbers and the work's result, and reads as it |
| Payloads.CompleteReads | apps/target_coordinator.cpp:104-117 | a completion reads back |
| Payloads.SignatureInjective | apps/target_coordinator.cpp:129-131 | the joined signatures are equal exactly for equal six-tuples |
| Coordinator.AcceptedQuotesCurrent | apps/target_coordinator.cpp:79-144 | accepted exactly if all three numbers are the number of submissions, epoch and boot are current, and the signature is new |
| Coordinator.ResultsStay | apps/target_coordinator.cpp:132-144 | a completion changes no stored result and commits at most its own signature |
| Coordinator.SubmitKeeps | apps/target_coordinator.cpp:165-182 | the three counters stay equal and grow by one |
| Coordinator.CompleteKeeps | apps/target_coordinator.cpp:121-144 | the keys of the results stay exactly the committed signatures |
| Coordinator.Coordinator.HandleRegister | apps/target_coordinator.cpp:85-102 | the new state, the epoch sent back, and when a boot is reported |
| Coordinator.Coordinator.SubmitLocked | apps/target_coordinator.cpp:165-182 | refuses a worker that is not alive, else assigns the next authority under its boot |
| Coordinator.Coordinator.HandleSubmit | apps/target_coordinator.cpp:156-192 | undisturbed, dispatch and response quote the authority just assigned; all refusals |
| Coordinator.Coordinator.HandleComplete | apps/target_coordinator.cpp:104-154 | which text each refusal sends, over the fields, and the new state |
| Coordinator.Coordinator.DisconnectTail | apps/target_coordinator.cpp:225-236 | marks dead the worker mapped from the descriptor and erases the entry |
| Incarnations.RunKeeps | apps/target_coordinator.cpp:85-203 | in every reachable state the result keys are the committed signatures, acknowledgements are as many, and the accepted completions have distinct signatures |
| Incarnations.NoSignatureTwice | apps/target_coordinator.cpp:129-144 | over a chain of coordinators of increasing epochs no six-tuple commits twice |
| Incarnations.RunLater | apps/target_coordinator.cpp:143-152 | no stored result ever changes and no acknowledgement is taken back |
| Incarnations.StaleForever | apps/target_coordinator.cpp:122-127 | a completion quoting an overtaken submission or epoch is rejected as stale in every later state |
| Incarnations.AnotherWorkerAccepted | apps/target_coordinator.cpp:129-144 | an accepted completion under another worker id is accepted too, exactly if that id is other and was not committed before |
| Incarnations.TwiceOnlyByTwoWorkers | apps/target_coordinator.cpp:122-144 | over whole chains, two accepted completions of one epoch and attempt agree in everything but the worker, and differ in that |
| FieldReads.RunKeeps | apps/target_coordinator.cpp:156-192 | the invariant of all interleavings of locked parts and single field reads |
| FieldReads.QuotesAtLeastAssigned | apps/target_coordinator.cpp:183-189 | every field quoted is at least the one assigned, and all are the assigned ones exactly when no lock step comes between the submission's own lock and its last read |
| FieldReads.OwnUnlessOvertaken | apps/target_coordinator.cpp:183-189 | the same of a submission about to quote, over the events so far |
| FieldReads.RunWorks | apps/target_coordinator.cpp:156-184 | attempts are numbered without gaps, and every submission and quote carries the work of its own attempt |
| FieldReads.CommitsRightWorkExactly | apps/target_coordinator.cpp:104-192 | in every run an accepted honest answer is the result of the work submitted as its attempt exactly when the submission was not overtaken or the results coincide |
| FieldReads.QuotesConflictExactly | apps/target_coordinator.cpp:132-137 | of two quotes of one number answered by one worker, the second is a conflicting duplicate exactly when the works' results differ |
| FieldReads.TornRejected | apps/target_coordinator.cpp:122-127 | a tuple mixing two submissions is rejected in every reachable state |
| FieldReads.OverlapCommitsWrongWork | apps/target_coordinator.cpp:183-189 | for any two works of different results, an interleaving that commits the first as the second and calls the second a conflict |
| Protocol.RunKeeps | apps/target_coordinator.cpp:104-192 | the end-to-end invariant over every run |
| Protocol.CommittedOnceAndRight | apps/target_coordinator.cpp:104-192 | every attempt commits at most once, and what it commits is the result of the submitted work under the dispatched boot |
| Protocol.NeverConflicting | apps/target_coordinator.cpp:133-136 | no answer that can arrive is reported as a conflicting duplicate |
| Protocol.UndisturbedCommits | apps/target_coordinator.cpp:104-192 | from every reachable state an undisturbed submission to a live worker commits the result of its work |
| Protocol.RegisteredCommits | apps/target_coordinator.cpp:85-192 | a worker that registers and is given work commits its result under the boot it registered |
| Deployment.Deployment.OnSubmit | apps/target_coordinator.cpp:156-192 | the handler on any payload text takes exactly the protocol's submit and dispatch steps, or none |
| Deployment.Deployment.OnDispatch | apps/target_worker.cpp:59-78 | the worker's handler on any dispatch text written takes exactly an answer step |
| Deployment.Deployment.OnComplete | apps/target_coordinator.cpp:104-154 | the handler on any answer text takes exactly a delivery step; the reply is never a conflict, and an acknowledgement exactly when something is committed |
| Deployment.Deployment.OnRegister | apps/target_coordinator.cpp:85-102 | the handler on any payload text takes a registration step, or none |
| Deployment.Deployment.OnDisconnect | apps/target_coordinator.cpp:225-236 | the connection tail takes a disconnect step |
| Deployment.Deployment.OnRestart | apps/target_coordinator.cpp:248 | a coordinator of a later epoch takes a restart step |
| Descriptors.ReusedStartsUnmapped | apps/target_coordinator.cpp:225-237 | a descriptor number that is not open has no table entry to inherit |
| Descriptors.AliveIsBacked | apps/target_coordinator.cpp:85-102 | if every connection registers one id, every live worker's descriptor is open and maps back to it |
| Descriptors.RegisterBacked | apps/target_coordinator.cpp:93-99 | a registration keeps this exactly when no other worker is alive on the descriptor |
| Descriptors.EraseLiving | apps/target_coordinator.cpp:225-236 | the end of a connection keeps every mapped worker alive exactly when its worker is not mapped from another descriptor |
| Descriptors.MappedIsAlive | apps/target_coordinator.cpp:85-102 | if workers register again only after their old connection erased its entry, every mapped worker is alive |
| Descriptors.AliveExactlyWhenMapped | apps/target_coordinator.cpp:85-102 | with single ids as well, a worker is alive exactly when an open descriptor maps to it |
| Descriptors.ReconnectedButDead | apps/target_coordinator.cpp:225-236 | the converse fails: connected and mapped, but marked dead |
| Descriptors.TwoIdsOutlive | apps/target_coordinator.cpp:85-102 | two ids on one connection: the first stays alive on a closed, then reused, descriptor |

## Left out

- Processes, sockets and the Windows calls (`src/process.cpp`, `src/tcp.cpp`, `src/windows_error.cpp`): a socket is a byte sequence delivered in pieces of any size, with failures at any point; sends succeed.
- CUDA (`src/cuda.cpp`, `src/cuda_kernels.cu`) and the `:gpu` suffix of the worker's result.
- The command line and benchmark programs (`apps/chaos_cli.cpp`, `apps/chaos_bench.cpp`); from them only that a replacement coordinator gets a later epoch.
- `src/persistence.cpp` and the coordinator's `save_state`, which nothing calls and nothing reads back.
- `src/assertions.cpp`, `src/fault.cpp`, `src/identity.cpp`, `src/result.cpp`, `src/safety.cpp`, `src/scenario.cpp`, `src/authority.cpp`, `src/resource.cpp`: name tables, single-branch evaluators and short field parsers that would add only easy members.
- The campaign phase graph (`src/campaign.cpp:23-38`), which nothing drives, and `register_events` of the scheduler, which nothing calls.
- The counters that the proxy's two threads share without a lock: one direction is modelled, with its own counters; the 40 ms of a delay fault take no time.
- 64-bit wrap of the coordinator's counters and of evidence sequence numbers; the worker count's `+ 2` in the generated envelope does not overflow. Where wrapping is the point (SplitMix64, SHA-256, hexadecimal input, frame lengths) it is modelled.
- What `parse_text` leaves in its output when it returns false, and what `recv_frame` leaves in its parameters.
- The coordinator's replies to `GET_STATE`, `PING` and `SHUTDOWN`, its printed reports, and its limit of 64 connections.
- The reducer's predicate is a function of the campaign: a callback that answers differently on the same campaign is not modelled.
- The order in which concurrent frames of different threads reach one descriptor; the per-worker send mutex.
- Coordinator.Coordinator.HandleSubmit: is one atomic step; its reads after the lock are interleaved with other submissions in `FieldReads`.
- TerminalState.SettledExactly: compares legible runs with legible runs; `Replay.TerminalNotSettled` shows runs outside them.
- Deployment.Deployment.OnSubmit: assumes attempt numbers, ids, boots and epochs below 2^64, as the source's types do.
- Protocol.CommittedOnceAndRight: assumes one controller that waits for each submission's dispatch; `FieldReads` shows what happens otherwise. That an answer ever arrives is not claimed.
- JsonUnique.ToldExactly: streams that hold quotes in their own keys are not classified; that some of them share a JSON with a quote-free stream is part of the statement.
