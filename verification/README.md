# A verified model of the redacting streaming proxy

The proxy sits between an upstream model server and a client. Each response runs through one
pipeline: upstream bytes, the streaming redactor, for event streams the done detector with its signed
receipt, a byte-budgeted queue, the client, and finally the script that verifies the receipt offline.
This project models that pipeline in Dafny and proves what it promises over every input, every
chunking and every interleaving.

`dafny verify dfyconfig.toml` checks everything.

| file | part of the system |
|---|---|
| `Bytes`, `Utf8`, `Scalars`, `Matching` | byte strings, UTF-8 as the grammar and as the arithmetic of RFC 3629, multi-pattern search by its documented match order |
| `Redactor`, `RedactorRuns` | the engine and `StreamRedactor` as objects; what any sequence of calls accepts, keeps and accounts for |
| `Fragmentation`, `Dictionaries`, `ExactCuts`, `DefaultDictionary` | when streaming equals one-shot redaction, exactly |
| `ReleaseRule` | what a push holds back, as a rule about texts and patterns only |
| `Detector`, `DetectorRuns`, `DetectorLedger` | `DoneDetector` as an object; where the receipt lands and what it certifies |
| `Receipt`, `Verifier`, `ScriptGrammar`, `AuditLineFormat`, `RoundTrip` | canonical encoding, the verification script as a machine and as a grammar, proxy and script together |
| `Budget`, `Conservation`, `BudgetQueue`, `QueuePrefix`, `Tenancy` | permits, counter, queues and tenants as atomic steps of any number of tasks |
| `BudgetHost` | `enqueue` and `poll_frame` running on that shared state while other tasks interfere |
| `StreamPlan`, `ClientQueue`, `StreamTask`, `StreamResults`, `StreamStops` | the select loop over all of the above on the shared queue, and what is sent when the upstream ends, fails or the proxy shuts down |
| `EndToEnd` | from upstream to the client's last read |
| `ConnectHead`, `PiiConfig` | the CONNECT head reader and the redaction config |

How things are represented. A hash is the sequence of bytes fed to it. The receipt JSON and signature
are arbitrary newline-free bytes computed from those; whether a receipt line is acceptable is an
arbitrary test. The search automaton is a declarative "next match": earliest end at or after the
previous match, then longest pattern, then lowest index, ASCII case ignored. Timeouts, disconnects,
shutdown, hot swaps, refusals by the queue and the steps of other tasks are inputs of a run, so a
statement about all inputs is a statement about all schedules.

## Where the code and its promises part

- Streaming redaction is meant to equal one-shot redaction for any chunking. A single run agrees if and
  only if no one-shot match straddles one of its release cuts (`AgreesIffCutsClear`); all runs over a
  text agree if and only if no match crosses the release cut of a prefix (`AgreesOnIff`). For
  dictionaries in which no proper suffix of a pattern is a prefix of one, and no capitals, that means:
  no push can end inside a match behind a capital letter of that match (`LowercaseIff`). For one pattern
  the condition on the pattern alone is exact (`SinglePatternLowercase`, `SinglePatternAnyCase`), and
  `CrossOverlapLeaks` shows a two-pattern dictionary that fails on lowercase text.
- The default dictionary is overlap-free and lowercase, so lowercase text is safe
  (`DefaultDictionaryIff`, `LowercaseTextIsClear`), but `xxxxxxxxxPASS` followed by `WORD` reaches the client in clear
  (`DefaultDictionaryLeaks`).
- A non-completing chunk of eleven bytes or more emits the held carry without hashing it, so the receipt
  certifies the bytes sent before it if and only if no such chunk follows earlier bytes
  (`HashFaithfulIff`). `LostCarryExample` is such a stream.
- With a marker across the carry and another inside the chunk, the receipt goes in front of the second
  one, and exactly then (`ReceiptAtFirstMarkerIff`, over whole runs `ReceiptFirstIff`);
  `SecondMarkerExample` is such a stream. The script rejects those (`ReceiptVerifiesIff`).
- The script hashes the payload if and only if it is empty or ends in a newline
  (`WriterReaderRoundTrip`, with `UnterminatedPayloadIsLost`). A shutdown transcript never verifies: the
  script hashes the shutdown line too (`ShutdownNeverVerifies`, for whole streams
  `ShutdownTranscriptNeverVerifies`). A recording cut off before any done marker can still be accepted: its last
  plain line is then left out of the hash (`OnlyGrammarIsAccepted`).
- What a client reads is a prefix of what was passed to `enqueue` for every content if and only if
  nothing is accepted after a call that was cut short (`PrefixIffGapFree`); the system reaches a state
  where it is not (`GapIsReachable`). The terminal error frame after a refused write is such a case;
  `ServeStream` says what is sent then.
- The 16 MiB bound is per semaphore. Two streams of a tenant share one if and only if the tenant map
  was not cleared between them (`OneAllowanceBetweenClears`), and with one clear a tenant can hold
  32 MiB (`ClearRenewsAllowance`).
- A hash is logged for an event stream without a marker; it covers the stream if and only if no carry was
  lost (`EventStreamLogIff`).
- Printed rules parse back if and only if no pattern holds a colon (`RuleRoundTripIff`,
  `ConfigRoundTripIff`); `a:b` is a pattern that does not (`ColonInPatternExample`).

## Model

| member | source | states |
|---|---|---|
| Utf8.ValidIffWellFormed | src/engine.rs:149-158 | the incremental checker accepts exactly the sequences of characters of the RFC 3629 grammar |
| Utf8.MalformedIffHopeless | src/engine.rs:149-158 | input is rejected early exactly when no continuation makes it well-formed; a cut-off character is waited for |
| Utf8.BoundarySplits | src/engine.rs:312-320 | cutting well-formed text at a character boundary leaves two well-formed halves |
| Scalars.CharIffScalar | src/engine.rs:149-158 | the grammar's characters are exactly the arithmetic encodings of the Unicode scalar values, so no surrogates and no overlong forms |
| Scalars.EncodeInjective | src/engine.rs:204-257 | different texts have different encodings |
| Matching.NextSpec | src/engine.rs:17-32 | the scan reports the earliest-ending occurrence, ties to the longest then first pattern, or none exists |
| Matching.LowerAlikeIff | src/engine.rs:17-32 | two bytes match if and only if they are equal or one ASCII letter in both cases |
| Matching.LongestWins | src/engine.rs:17-32 | `b` and `ab` in `ab`: of two occurrences with one end the longer is reported |
| Matching.FirstListedWins | src/engine.rs:17-32 | `a` and `A` in `a`: of two equally long ones the first listed is reported |
| Matching.EarliestEndWins | src/engine.rs:17-32 | `abcd` and `bc` in `abcd`: the one that ends first is reported, although it begins later |
| Matching.NextInPrefix | src/engine.rs:180-196 | earliest-end matching never looks ahead: a truncated text gives the same next match |
| Matching.MatchesAcrossCut | src/engine.rs:180-196 | without a straddling match, scanning both sides of a cut separately finds the matches of the whole |
| Redactor.RedactSource | src/engine.rs:180-196 | the loop over matches emits the kept stretches and replacements of the safe prefix, nothing else |
| Redactor.RedactText | src/engine.rs:260-277 | the one-shot loop computes the reference redaction of the whole text |
| Redactor.LongestRetain | src/engine.rs:297-306 | the nested loops find the longest proper pattern prefix the text ends in |
| Redactor.DetermineSafeBoundary | src/engine.rs:283-321 | the text is split in two without loss at the safe length, which `ReleaseRule.PushKeeps` pins down |
| Redactor.Held | src/engine.rs:166-173 | what stays behind is the withheld text followed by the cut-off character |
| Redactor.StreamRedactor.Push | src/engine.rs:120-134 | new carry and result of a push, error cases included, from the old carry and the chunk |
| Redactor.StreamRedactor.Finish | src/engine.rs:136-142 | finishing flushes all of the carry or rejects it |
| Redactor.StreamRedactor.Process | src/engine.rs:144-178 | malformed input, unfinished input at the end and an oversized carry each give their error |
| ReleaseRule.PushKeeps | src/engine.rs:144-178 | every push on input that is not malformed: of the complete characters, everything is kept while some pattern is as long, nothing if any pattern ends them, else the longest ending that begins a pattern; what is in front of the cut is redacted, what is behind it kept |
| ReleaseRule.KeepsIsUnique | src/engine.rs:283-321 | that rule leaves exactly one choice for every text |
| ReleaseRule.WholePatternIsReleased | src/engine.rs:291-295 | a text longer than all patterns that ends in any one of them leaves no carry and comes out as its one-shot redaction |
| RedactorRuns.Drive | src/engine.rs:120-142 | pushing every chunk into one redactor object and finishing gives the collected segments or the first error |
| RedactorRuns.BoundarySearchNeverMoves | src/engine.rs:312-320 | a hold-back starts on a character boundary, so the backward loop never moves |
| RedactorRuns.CarryBounded | src/engine.rs:159-176 | whatever the source, at most the longest pattern plus three bytes stay behind |
| RedactorRuns.CarryBoundedOverRun | src/engine.rs:159-176 | after any successful calls the carry is within that bound, if it was before |
| RedactorRuns.CapacityExact | src/engine.rs:174-176 | no run exceeds the buffer limit if and only if the limit is at least the longest pattern plus three |
| RedactorRuns.AcceptsExactlyWellFormed | src/engine.rs:144-178 | pushes and finish succeed if and only if the concatenated chunks are well-formed; the only error is invalid UTF-8 |
| RedactorRuns.EmittedInputsWellFormed | src/engine.rs:180-196 | every kept segment any run emits is well-formed by itself |
| RedactorRuns.MatchRespectsChars | src/engine.rs:180-196 | a match in well-formed text never splits a character |
| RedactorRuns.Accounting | src/engine.rs:120-196 | any dictionary, any calls: matched ranges put back plus carry are the input, each range matches the pattern whose replacement was used, no kept segment contains a pattern |
| Fragmentation.AgreesIffCutsClear | src/engine.rs:120-196 | any dictionary: stream and one-shot scan replace the same ranges if and only if no one-shot match straddles a release cut |
| Fragmentation.FlattenedIsOneShot | src/engine.rs:180-196 | the segments of a text, flattened, are what the one-shot loop returns |
| Fragmentation.ClearRunsEqualOneShot | src/engine.rs:120-196 | with clear cuts a run emits exactly the bytes of the one-shot redaction |
| Dictionaries.CutNeverStraddled | src/engine.rs:283-321 | overlap-free dictionary, case-exact text: whatever follows, no match straddles the release cut |
| Dictionaries.FragmentationEquivalence | src/engine.rs:120-321 | for such dictionaries, every well-formed input and every chunking, the output is the one-shot redaction of the concatenation |
| ExactCuts.AgreesOnIff | src/engine.rs:120-321 | any dictionary, any well-formed text: all chunkings agree with the one-shot scan if and only if no match crosses the release cut of a prefix |
| ExactCuts.OverlapFreeIff | src/engine.rs:283-321 | overlap-free dictionary: if and only if, wherever a push can end inside a match, the match so far is a pattern prefix in the same letter case |
| ExactCuts.LowercaseIff | src/engine.rs:302-312 | lowercase overlap-free dictionary: if and only if no push can end inside a match behind one of its capitals |
| Dictionaries.SinglePatternLowercase | src/engine.rs:297-312 | one lowercase pattern, lowercase input: streaming always agrees if and only if the pattern has no border |
| Dictionaries.SinglePatternAnyCase | src/engine.rs:302-312 | one pattern, any input: always agrees if and only if it has no border and no letter except possibly its last byte |
| DefaultDictionary.DefaultDictionaryStreams | src/engine.rs:10-15 | if no push can end inside a match behind one of its capitals, every chunking comes out as the one-shot redaction |
| DefaultDictionary.DefaultDictionaryIff | src/engine.rs:302-312 | `password, secret, ssn`: all chunkings of a text agree with the one-shot scan if and only if no push can end inside a match behind one of its capitals |
| DefaultDictionary.DefaultDictionaryLeaks | src/engine.rs:302-312 | `xxxxxxxxxPASS` then `WORD`: one-shot redaction replaces the password, the stream sends it in clear |
| Dictionaries.CrossOverlapLeaks | src/engine.rs:297-312 | a dictionary of two overlapping patterns does not always agree |
| Detector.DoneDetector.Inspect | src/lib.rs:1009-1108 | events, carry, completion and bytes hashed for one chunk, in the source's branch order |
| Detector.DoneDetector.ProbeForMarker | src/lib.rs:1038-1047 | all writes to the 24-byte probe are in range and the search finds the first straddling marker |
| Detector.DoneDetector.InspectLong | src/lib.rs:1067-1090 | the long-chunk branch emits the held carry and does not hash it |
| Detector.DoneDetector.Finish | src/lib.rs:1157-1164 | the remaining carry is hashed and emitted; `DetectorLedger.LastHashIff` says what the hash then covers |
| Detector.DoneDetector.ShutdownEvents | src/lib.rs:1166-1186 | before completion: carry, receipt, shutdown text; after it: nothing |
| DetectorRuns.CompletesExactlyOnMarker | src/lib.rs:1009-1108 | from any consistent state, the detector completes if and only if the input contains the marker, and otherwise carries its last eleven bytes |
| DetectorRuns.DetectorCompleteness | src/lib.rs:1009-1108 | the same for whole runs from the start |
| DetectorRuns.BytesPassThrough | src/lib.rs:1019-1107 | any chunking: the bytes pass unchanged with at most one receipt, in front of a marker |
| DetectorRuns.ChunkIndependence | src/lib.rs:1019-1064 | one marker at p: data before the receipt is input[..p], the done event starts with the marker, done and later data are input[p..] |
| DetectorLedger.ReceiptAtFirstMarkerIff | src/lib.rs:1019-1064 | the receipt is in front of the first marker unless one straddles the carry while another lies inside the chunk |
| DetectorLedger.ReceiptFirstIff | src/lib.rs:1019-1064 | whole runs: the receipt is in front of the first marker if and only if the chunk completing that marker does not begin inside it and hold another one |
| DetectorLedger.SecondMarkerExample | src/lib.rs:1019-1064 | two chunks for which the receipt goes in front of the second marker |
| DetectorLedger.HashAccounting | src/lib.rs:1023-1107 | hashed bytes are the bytes sent before the receipt minus exactly the carries the long-chunk branch released |
| DetectorLedger.HashFaithfulIff | src/lib.rs:1067-1090 | hashed equals sent if and only if no non-completing chunk of eleven or more bytes follows earlier bytes |
| DetectorLedger.OpAccounting | src/lib.rs:1009-1186 | any inspections, finishes and shutdowns: the hash is all data sent before the receipt minus exactly the carries long chunks released |
| DetectorLedger.LastHashIff | src/lib.rs:1157-1186 | a marker-free stream finished or shut down: the hash is the whole stream if and only if no chunk of eleven or more bytes follows earlier bytes |
| DetectorLedger.LostCarryExample | src/lib.rs:1067-1090 | one byte, then eleven: hashed and sent bytes differ |
| DetectorLedger.SealedAfterReceipt | src/lib.rs:1015-1017 | after the receipt every event is data and the hash never changes |
| DetectorLedger.ReceiptExactlyOnce | src/lib.rs:1110-1186 | any inspections, finishes and shutdowns: at most one receipt, directly followed by the only done marker; carried bytes plus carry are the input |
| Receipt.ProxyCanonical | src/lib.rs:903-928 | the proxy's loop appends length-prefixed fields in the canonical order |
| Receipt.ScriptCanonical | scripts/verify_receipt.py:26-43 | the script's loop produces the same bytes |
| Receipt.CanonicalRoundTrip | src/lib.rs:903-928 | decoding the canonical string gives the fields back, for fields shorter than 2^64 bytes |
| Receipt.DecodeRoundTrip | src/lib.rs:903-928 | whatever decodes is the encoding of what it decodes to |
| Receipt.CanonicalInjective | src/lib.rs:903-928 | equal canonical strings, one from each side, mean equal receipts |
| Verifier.HashTranscript | scripts/verify_receipt.py:123-215 | the line loop with its flags and delayed line computes the verdict of the line machine, which `ScriptGrammar` pins down |
| Verifier.ReadOrdinary | scripts/verify_receipt.py:191-209 | ordinary lines all reach the hash, the last one with a delay of one line |
| Verifier.LinesAreLines | scripts/verify_receipt.py:133-134 | each line is nonempty and has a newline at its end and nowhere else, except that the last may have none |
| ScriptGrammar.GrammarIsRead | scripts/verify_receipt.py:133-215 | any file of plain lines and complete audit frames: rejected if it has no frame, else hashed to its plain lines but the one in front of each frame, with the last frame's receipt |
| ScriptGrammar.OnlyGrammarIsAccepted | scripts/verify_receipt.py:133-215 | whatever the script accepts is such a file: each audit event is followed by a `data:` line that passes and a blank line, and the hash is exactly those plain lines |
| ScriptGrammar.BrokenFrameIsRejected | scripts/verify_receipt.py:135-189 | an audit event without its data line or blank line, or cut off by the end of the file, is rejected |
| AuditLineFormat.AuditLineReadsBack | scripts/verify_receipt.py:138-180 | from the line the proxy writes the script takes back the same JSON bytes and the same signature |
| RoundTrip.ScriptReadsTranscript | scripts/verify_receipt.py:133-215 | the script accepts payload, audit frame and done text, and hashes the complete lines of the payload |
| RoundTrip.WriterReaderRoundTrip | src/lib.rs:881-888 | it hashes exactly the payload if and only if the payload is empty or newline-terminated |
| RoundTrip.UnterminatedPayloadIsLost | scripts/verify_receipt.py:191-209 | a one-byte payload without a newline: the script accepts and hashes nothing |
| RoundTrip.ShutdownNeverVerifies | src/lib.rs:1166-1186 | every chunking of a marker-free stream, whatever follows the shutdown: if the script accepts the transcript, the bytes it hashed are not the certified ones |
| RoundTrip.ShutdownLineIsHashed | src/lib.rs:1166-1186 | for a shutdown transcript the script hashes at least the complete payload lines and the shutdown line |
| RoundTrip.ReceiptVerifiesIff | src/lib.rs:1110-1155 | any stream with a marker and no audit event before the first: the script accepts if and only if the receipt is at the first marker; it hashes the complete lines before it; if these are the whole payload, the receipt certifies it if and only if no carry was lost |
| RoundTrip.RejectsMarkerFirst | scripts/verify_receipt.py:201-214 | a marker met before any audit event ends in rejection |
| Conservation.StepConserves | src/budget_queue.rs:156-187 | every atomic step keeps every semaphore's sum and the exact counter |
| Conservation.PermitConservation | src/budget_queue.rs:89-187 | over every interleaving, available plus held permits stay 16 MiB per tenant semaphore and the global budget next to the stream holds |
| Conservation.OrderedReleaseChain | src/budget_queue.rs:139-187 | at every step counter ≤ globally charged ≤ locally charged bytes, and the counter covers every release |
| Conservation.CounterNeverUnderflows | src/budget_queue.rs:145-154 | in every reachable world the counter covers every release that can come next |
| Conservation.HoldsBounded | src/lib.rs:545-562 | no stream ever holds more than 64 KiB of global permits for itself |
| BudgetQueue.StepOrdered | src/budget_queue.rs:197-269 | every step of any task keeps every queue's ownership, charging and byte order |
| BudgetQueue.QueueFidelity | src/budget_queue.rs:197-269 | delivered plus queued bytes are exactly the accepted bytes in order; a call that ended well had all its bytes accepted; segments have 1..capacity bytes; everything queued or in flight is charged |
| BudgetQueue.InFlightStaysCharged | src/budget_queue.rs:249-269 | over every run up to the next poll or drop of its body, the last delivered frame stays charged and in place |
| BudgetQueue.MemoryBound | src/lib.rs:545-562 | queued plus in-flight bytes stay within 16 MiB per tenant semaphore and, with the holds, within the global budget |
| BudgetQueue.NoLeak | src/budget_queue.rs:182-187 | once all streams are quiet every permit is back and the counter is zero |
| QueuePrefix.PrefixIffGapFree | src/budget_queue.rs:197-214 | accepted bytes are a prefix of offered bytes for all contents if and only if nothing is accepted after a call cut short |
| QueuePrefix.GapIsReachable | src/budget_queue.rs:197-214 | a reachable world, after a refused and an accepted call, where the accepted bytes are no prefix of the offered ones |
| QueuePrefix.ClientReadsPrefix | src/budget_queue.rs:197-269 | without such a gap, what a client has read or can read is a prefix of all bytes passed to enqueue |
| QueuePrefix.StoppingLeavesNoGap | src/budget_queue.rs:197-214 | a caller that stops at its first failed call leaves no gap |
| Tenancy.OneAllowanceBetweenClears | src/budget_queue.rs:89-105 | two streams of one tenant, anything in between: they share one semaphore if and only if the tenant map was not cleared between their openings |
| Tenancy.ClearRenewsAllowance | src/main.rs:469 | with one clear, a single tenant can have 32 MiB queued |
| BudgetHost.Host.WithTenant | src/budget_queue.rs:89-105 | a new stream on the semaphore the tenant maps to, made with 16 MiB if there is none |
| BudgetHost.Host.TenantPermit | src/budget_queue.rs:115-124 | the local permits are taken, or the reason is reported and nothing is charged |
| BudgetHost.Host.Reserve | src/budget_queue.rs:156-175 | under interference: the sender holds the slice charged at every level, or the call has failed; tenant limit exactly when the slice exceeds the local permits at the first step, global limit exactly when it exceeds the global ones at the second |
| BudgetHost.Host.RecordReleased | src/budget_queue.rs:145-154 | the counter loses exactly the segment's bytes, without underflow |
| BudgetHost.Host.DropSegment | src/budget_queue.rs:182-187 | while others run, the segment first leaves the counter, then returns its global permits, then its local ones, each time exactly its size |
| BudgetHost.Host.Enqueue | src/budget_queue.rs:197-214 | under interference: the call is recorded with the bytes that reached the queue, ends well if and only if all did, and otherwise after a whole number of slices |
| BudgetHost.Host.PollFrame | src/budget_queue.rs:249-269 | the old frame is dropped first; a queued segment is always delivered, oldest first; the end is reported only when the queue is empty and the sender gone |
| ClientQueue.Downstream.Enqueue | src/lib.rs:930-945 | on the shared queue, under interference: a prefix of the bytes is accepted, all or an error, and nothing of a call within one segment that is refused |
| ClientQueue.SealedStreamIsRead | src/budget_queue.rs:249-269 | once the sender is gone, whatever happens later, the client reads a prefix of what was accepted, and all of it if it polls to the end |
| StreamTask.Task.Forward | src/lib.rs:958-974 | events go out in order up to the first refusal |
| StreamTask.Task.Relay | src/lib.rs:744-782 | the outputs of one redactor call are relayed or a prefix of them is |
| StreamTask.Task.TerminalError | src/lib.rs:947-956 | the error frame is queued whole or not at all |
| StreamTask.Task.Close | src/lib.rs:800-854 | after the loop: redactor rest, detector rest, or the terminal frame if the rest is rejected |
| StreamTask.Task.Serve | src/lib.rs:712-854 | from any state, every label sequence and every refusal: a prefix of the plan, then at most one terminal frame; the task ends as planned if and only if all of the plan was taken, and otherwise as the first refusal and its place call for |
| StreamTask.ServeStream | src/lib.rs:672-861 | next to any other streams: what the shared queue accepted is a prefix of the transcript of the engine found at the start plus at most one error frame, all of it if no call failed, else ended as the first refusal calls for; the hash is logged as planned or not at all; what the client can read is a prefix of what was accepted |
| StreamResults.EofTranscript | src/lib.rs:712-860 | a stream that reaches its end is one redactor run over all chunks, relayed, flushed, and its hash logged |
| StreamResults.PlainBodyIsOneShot | src/lib.rs:741-860 | plain response whose cuts split no match: the transcript, and the bytes whose hash is logged, are the one-shot redaction of the body |
| StreamResults.OverlapFreeStreams | src/engine.rs:283-321 | overlap-free dictionary and case-exact body meet the cut condition the end-to-end results need |
| StreamResults.EventStreamIsOneShotWithReceipt | src/lib.rs:741-854 | event stream: the one-shot redaction, with the receipt directly in front of a done marker, the first one unless the piece completing it begins inside it and holds another |
| StreamResults.EventStreamLogIff | src/lib.rs:855-860 | event stream without a marker: the hash logged at its end covers the redacted body if and only if no carry was lost |
| StreamResults.TranscriptVerifiesIff | src/lib.rs:741-854 | the script accepts that transcript if and only if the receipt is at the first marker, and then hashes the redacted payload, certified if and only if no carry was lost |
| StreamStops.ShutdownTranscript | src/lib.rs:719-728 | a stream shut down: the pieces redacted so far, the shutdown events, then what the redactor held |
| StreamStops.ShutdownTranscriptNeverVerifies | src/lib.rs:719-728 | an event stream shut down before its marker: the script never hashes what the receipt certifies |
| StreamStops.PlainShutdown | src/lib.rs:719-843 | plain response shut down: what was redacted so far, a receipt that certifies exactly that, the shutdown text, then the redactor's rest |
| StreamStops.EventShutdown | src/lib.rs:719-854 | event stream shut down before its marker: the same, and the receipt certifies what is in front of it if and only if no carry was lost |
| StreamStops.RunningTranscript | src/lib.rs:712-796 | while no label stops the loop: the pieces redacted so far are out and the stream is open |
| StreamStops.FailureTranscript | src/lib.rs:713-799 | a failed read, an idle timeout, a disconnect: exactly the pieces redacted so far, neither rest flushed, no hash logged, and the end that failure has |
| StreamStops.RejectedChunkTranscript | src/lib.rs:784-788 | a chunk the redactor rejects: the pieces before it and the end `redaction_failed` |
| StreamStops.RejectedEndTranscript | src/lib.rs:838-842 | an end inside a character: the pieces so far, no detector rest, and the end `redaction_finish_failed` |
| StreamStops.RelaysInBytes | src/lib.rs:741-760 | those pieces in bytes: all that was redacted for a plain response, all but the last eleven bytes for an event stream without a marker |
| StreamResults.CompletesIffWellFormed | src/lib.rs:784-843 | a stream that reaches its end completes if and only if the body is well-formed UTF-8 |
| EndToEnd.ClientReadsTranscript | src/budget_queue.rs:249-269 | a stream served to its end with every call taken: a client that polls to the end has read the transcript |
| EndToEnd.ClientReadsOneShot | src/lib.rs:685-861 | plain response: it has read the one-shot redaction of the body |
| EndToEnd.ClientReadsReceipt | src/lib.rs:685-861 | event stream: the same with the receipt in front of a done marker |
| EndToEnd.FailedStreamAccepted | src/lib.rs:790-793 | all calls taken: the queue accepted the pieces redacted so far and the frame with `upstream_read_failed` or `upstream_idle_timeout`, and nothing more on a disconnect |
| EndToEnd.RejectedStreamAccepted | src/lib.rs:784-842 | all calls taken: the planned text and, if the redactor rejected the stream, the frame with `redaction_failed` or `redaction_finish_failed` |
| EndToEnd.RefusedStreamAccepted | src/lib.rs:760-781 | a stream the queue refused: a proper prefix of the transcript, no hash logged, and for a plain response inside the loop at most the frame with `tenant_limit_exceeded`, `global_limit_exceeded` or `downstream_enqueue_failed`, as the first refusal was; otherwise no frame |
| ConnectHead.ReadConnectHead | src/vsock_host_bridge.rs:72-97 | stops at the end of the first CRLFCRLF, reports over-length or end of input, each in its exact case |
| ConnectHead.AdvanceFollows | src/vsock_host_bridge.rs:88-96 | the four states are the longest terminator prefix seen, and acceptance is exactly a terminator's end |
| ConnectHead.ResultIsDetermined | src/vsock_host_bridge.rs:72-97 | no two results fit the same input, so each condition is an if-and-only-if |
| PiiConfig.ParsePiiConfig | src/main.rs:479-501 | the loop fills both lists in step with the rules of the text, which the next five rows pin down |
| PiiConfig.BarePattern | src/main.rs:494-497 | an entry without a colon, before a newline or a comma, whitespace around it dropped, becomes a rule with `[REDACTED]`; the rest parses on its own |
| PiiConfig.PatternWithReplacement | src/main.rs:487-493 | an entry with a pattern and a replacement around its first colon becomes that rule, whitespace around both dropped |
| PiiConfig.HalfEmptyEntry | src/main.rs:487-497 | an entry blank before or behind its first colon becomes a rule for the whole entry |
| PiiConfig.BlankEntry | src/main.rs:483-486 | a blank entry adds no rule |
| PiiConfig.RuleCount | src/main.rs:479-501 | there are as many rules as stretches between separators that are not all whitespace |
| PiiConfig.RuleRoundTripIff | src/main.rs:487-498 | a printed rule parses back to itself if and only if its pattern has no colon |
| PiiConfig.ColonInPatternExample | src/main.rs:487-498 | the rule for `a:b` with replacement `c` comes back as the rule for `a` with replacement `b:c` |
| PiiConfig.ConfigRoundTripIff | src/main.rs:479-501 | printed rules parse back to the same rules if and only if no pattern among them has a colon |
| PiiConfig.ConfigIsSound | src/engine.rs:204-257 | every config text yields equally long lists without empty patterns, so every reported match has a replacement |
| PiiConfig.ConfigRedacts | src/engine.rs:260-277 | the engine of a one-rule config redacts its pattern to its replacement |

## Left out

- The Aho-Corasick automaton, BLAKE3, Ed25519, base64, JSON and CBOR: library code, replaced by a match order, fed bytes and opaque values.
- Wall-clock durations: timeouts are steps that may happen at any point where the code waits.
- HTTP routing, authentication, CORS, metrics and tracing: single-branch checks and I/O.
- Request-line parsing and host validation after the CONNECT head: one-branch checks.
- The script's certificate, attestation and signature checks: whether a receipt line is accepted is an arbitrary test. The JSON decoder of `AuditLineFormat` is any function that finds the end of the value in front of it.
- Attestation, bootloader, TLS, KMS and vsock relay code: device and socket wrappers.
- File watchers and startup: only the config parser and the map clear are modelled.
- Any link between the receipt's policy digest and the active engine across a hot swap: the two are loaded separately.
- In `ServeStream` the stream's own steps come from its label sequence, so a disconnect label is not tied to the moment the body is dropped: more interleavings than the code has.
- Memory ordering of the relaxed atomic counter: each update is one atomic step.
- Dictionaries.FragmentationEquivalence: its condition is sufficient; the exact one is per text in `AgreesOnIff` and, as a condition on the patterns alone, only proved for one pattern.
- BudgetHost.Host.Enqueue: releases of segments dropped by a failed send are left to later steps, as the error value may outlive the call.
