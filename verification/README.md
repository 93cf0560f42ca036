# Veetee verification model

A Dafny model of the parts of Veetee whose correctness rests on whole runs or on exact arithmetic, with proofs.
Check it with `dafny verify dfyconfig.toml`.

## What is modelled

| component | modules | main results |
|---|---|---|
| AEC reference path | `AecResampler`, `AecReference`, `AecPlayback` | resampling does not depend on chunking; the ring refines a sequence and conserves samples |
| MCP | `McpRegistry`, `McpDigest`, `McpWire`, `McpTools`, `McpClient`, `McpDispatch`, with the specification reader `JsonReader` and printer `JsonPrinter` | at most one invocation per id, exact replay window, injective digest input, every written message reads back, a client that follows the cursors sees each tool once |
| Graceful TTS drain | `DeviceState`, `TtsDrain` | no stop is lost in any interleaving of three tasks |
| Promise-chain locks | `SecretLock`, `SecretFile` | mutual exclusion, FIFO entry, exact map, sequential file, every caller finishes |
| Wake re-chunker | `WakeFeed` | the detector sees the blocks of the unbroken stream |
| Process supervisor | `ServiceOrder`, `RestartLimiter` | topological order or a real cycle; sliding-window restart limit for each of many services |
| Manager store and throttle | `Ingestion`, `Retention`, `ProviderSafety`, `LoginThrottle` | order-independent ingestion, tombstones, referential safety, exact buckets and locks |
| Shared | `Arithmetic`, `Wrappers` | truncating and ceiling division, optional values |
| Packet codecs and session | `Bits`, `UdpWire`, `UdpSession`, `WsCodec` | round trips both ways, decryption inverts encryption, unrepeated sequence numbers, exact counter-block ranges |

Objects that the program updates in place are classes whose methods are proved against pure functions; the
properties of whole runs are lemmas about folds of those functions. Tasks that run concurrently are state machines
over small steps, and the results hold for every schedule.

What the program receives from outside is a parameter: detector verdicts, tool replies, the block cipher, cipher
failures, clock readings, random ids, entity tags, schema verdicts and the trim-and-lower-case of names.
`size_t` is 32 bits wide as on the device; characters of C strings are bytes.

## What the proofs found

- A push that advances the resampled stream by no sample is reported as an audio error although nothing was lost
  (`AecPlayback.ShortChunkReportsError`; exactly when it happens is `AecPlayback.ReportsOkIffOutputDue`).
- Chunking a resampled stream is heard at an output exactly when one of two cuts falls right behind its left
  neighbour, the other does not, and the right neighbour has weight (`AecResampler.CutsDifferExactly`).
- The buffer sizing of `vt_aec_init` covers every frame exactly when `AecResampler.SizesFit` holds of the
  configuration (`AecResampler.SizingIsExact`).
- The comment at `veetee-firmware/main/main.c:327-330` says that a stop completes only after decoder work and the
  packet queue are idle. It can overtake a packet in hand (`TtsDrain.StopCanOvertakeLastPacket`) and a packet that
  was queued before the stop (`TtsDrain.StopCanOvertakeQueuedPacket`). Exactly when, for each task that can complete
  the stop and after any history, is `TtsDrain.CompletionOvertakes`. The model follows the code.
- The payload check of the MCP writer looks at the two outermost characters. It refuses no JSON object, but lets
  through texts that are not JSON (`McpWire.CheckIsNotAParser`), even one that adds a member beside the result
  (`McpWire.AcceptedPayloadAddsMember`). A result message reads back exactly when its payload is JSON on its own
  (`McpWire.ResultReadsBackExactly`). For tool schemas that holds of pages of one tool, but two malformed schemas on
  a page can complete each other (`McpTools.SchemasCanConspire`); what does hold of all schemas is
  `McpTools.SchemasReadExactly`.
- A conversation that is ingested again can be deleted on request exactly as long as no earlier job of its owner for
  the same id has completed or has used up its three attempts (`Retention.RequestWorksUnlessBlocked`). Once one has,
  only expiry ever removes it (`Retention.BlockedForEver`).
- A deleted provider config that was enabled can still be selected (`ProviderSafety.DeletedConfigCanBeSelected`), and
  nobody can change it any more (`ProviderSafety.DeletedIsFrozen`). Drafts keep to configs that were not deleted
  exactly as long as no call selects a deleted one (`ProviderSafety.LiveUnlessDeletedIsChosen`).
- A store started from a snapshot that selects configs by id is sound exactly when each is one that the snapshot
  itself seeds, of the same kind (`ProviderSafety.SeedIsSound`).

## Model

| member | source | states |
|---|---|---|
| AecResampler.Resampler.Run | veetee-firmware/main/veetee_aec_reference.c:102-133 | One call produces exactly the samples of the step-by-step specification and carries its phase; the rest of the buffer is untouched |
| AecResampler.Resampler.Resample | veetee-firmware/main/veetee_aec_reference.c:114-132 | The loop proper: at most `capacity` outputs, each interpolated at the advancing phase, and the overshoot carried over |
| AecResampler.Resampler.Reset | veetee-firmware/main/veetee_aec_reference.c:135-139 | Phase and previous sample are cleared and nothing else changes |
| AecResampler.SizedCallIsComplete | veetee-firmware/main/veetee_aec.c:88-90 | With the buffer of vt_aec_init no call on a frame up to the maximum is truncated, whatever the carried phase |
| AecResampler.UnfitCallIsTruncated | veetee-firmware/main/veetee_aec.c:88-90 | When the sizes wrap, a full first frame loses samples |
| AecResampler.SizingIsExact | veetee-firmware/main/veetee_aec.c:88-90 | The sizing serves every frame if and only if a condition on the configuration holds |
| AecResampler.StreamLength | veetee-firmware/main/veetee_aec_reference.c:102-133 | After N inputs in any chunks exactly ceil(N*T/S) samples are out and the carried phase is the overshoot, below S |
| AecResampler.StreamSamples | veetee-firmware/main/veetee_aec_reference.c:115-131 | Output k sits at left index floor(k*S/T) with weight k*S mod T of the concatenated stream, its right neighbour held only at a chunk's last sample |
| AecResampler.IdealBetween | veetee-firmware/main/veetee_aec_reference.c:120-126 | Every output lies between its two neighbours, so the 16-bit clamps never act |
| AecResampler.OutputIsCutMean | veetee-firmware/main/veetee_aec_reference.c:115-131 | Every output of a chunked run is the weighted mean of two samples of the concatenated stream, cut toward zero as C divides |
| AecResampler.CutsAgree | veetee-firmware/main/veetee_aec_reference.c:102-133 | Two ways to cut a stream give the same count, phase and every output not weighed across a cut |
| AecResampler.CutsDifferExactly | veetee-firmware/main/veetee_aec_reference.c:115-131 | Two cuts give one output alike for every stream if and only if both or neither fall behind its left neighbour, or the right one has no weight |
| AecReference.Reference.constructor | veetee-firmware/main/veetee_aec_reference.c:15-27 | A new ring is empty with all statistics zero |
| AecReference.Reference.Init | veetee-firmware/main/veetee_aec_reference.c:15-27 | Refused exactly for an empty buffer, a delay not below the capacity, or a capacity over 32 bits |
| AecReference.Reference.Push | veetee-firmware/main/veetee_aec_reference.c:29-49 | Refines appending to a sequence and dropping the oldest beyond capacity, with saturating statistics |
| AecReference.Reference.Pop | veetee-firmware/main/veetee_aec_reference.c:51-71 | Takes the oldest samples beyond the delay in order, pads with zeros, leaves the rest of the destination alone |
| AecReference.Reference.Reset | veetee-firmware/main/veetee_aec_reference.c:73-80 | Refines emptying the sequence, counting one more reset |
| AecReference.RunIsExact | veetee-firmware/main/veetee_aec_reference.c:6-80 | Over any run: pushed = popped + overrun + discarded + held, popped samples are pushed ones in order, each statistic is the true count capped at 2^32-1 |
| AecReference.LosslessRun | veetee-firmware/main/veetee_aec_reference.c:29-71 | Without overrun or reset, popped followed by held is exactly what was pushed |
| AecReference.MovesAsMuchAsItCan | veetee-firmware/main/veetee_aec_reference.c:29-80 | After any run a pop takes all that is held beyond the delay up to what it asks for, a push pushes out just what does not fit, and a reset discards all |
| AecReference.DelayHeldBack | veetee-firmware/main/veetee_aec_reference.c:51-71 | No pop reaches into the newest `delay` samples of the stream |
| AecPlayback.RingHoldsRequest | veetee-firmware/main/veetee_aec.c:22-28 | Without wrap the ring holds, beyond the delay, the requested milliseconds and four detector frames; it is refused exactly when that overflows |
| AecPlayback.TimesWraps | veetee-firmware/main/veetee_aec.c:22-28 | A 32-bit product is exact up to 2^32 - 1, and beyond that short by a multiple of 2^32 |
| AecPlayback.InitReference | veetee-firmware/main/veetee_aec.c:80-87 | Past the guard of vt_aec_init the ring is never refused, and it has the computed capacity and delay |
| AecPlayback.Aec.PushPlayback | veetee-firmware/main/veetee_aec.c:157-166 | Each error status exactly for its cause, with nothing changed when not ready, empty or not locked; otherwise resampling followed by a ring push |
| AecPlayback.ReportsOkIffOutputDue | veetee-firmware/main/veetee_aec.c:157-166 | A push has samples for the ring exactly when the stream reaches a new output position |
| AecPlayback.ShortChunkReportsError | veetee-firmware/main/veetee_aec.c:157-166 | At 24 kHz the third one-sample chunk gives no output, so it reports an error though nothing was lost |
| McpRegistry.CheckTools | veetee-firmware/main/veetee_mcp.c:45-69 | A tool table is accepted exactly when it has at most 16 callable tools with distinct names of 1 to 63 bytes |
| McpRegistry.Registry.constructor | veetee-firmware/main/veetee_mcp.c:45-54 | A registry over a checked table starts with an empty history |
| McpRegistry.Registry.ResetSession | veetee-firmware/main/veetee_mcp.c:71-76 | A session reset forgets the whole history |
| McpRegistry.Registry.FindTool | veetee-firmware/main/veetee_mcp.c:14-22 | The search tells whether a tool of that name is registered |
| McpRegistry.Registry.FindCache | veetee-firmware/main/veetee_mcp.c:24-32 | The slot search finds an id exactly when it is among the last 16 accepted calls |
| McpRegistry.Registry.AcceptCall | veetee-firmware/main/veetee_mcp.c:112-144 | A new id runs its tool once and its outcome takes the next cache slot |
| McpRegistry.Registry.Invoke | veetee-firmware/main/veetee_mcp.c:85-144 | The slots and the high-water mark refine a plain history of accepted calls; the outcome is that history's answer |
| McpRegistry.IdsStrictlyIncrease | veetee-firmware/main/veetee_mcp.c:85-144 | In any run accepted and invoked ids strictly increase, so no id reaches a tool twice |
| McpRegistry.InvokedExactly | veetee-firmware/main/veetee_mcp.c:85-144 | In any run exactly the calls with a positive id above all earlier ones are run for the first time, and those of them that name a registered tool reach it, in order |
| McpRegistry.FirstAnswer | veetee-firmware/main/veetee_mcp.c:112-144 | Such a call gets tool-not-found exactly when no tool has its name, result-too-large with length zero beyond 768 bytes, and else just what its tool said |
| McpRegistry.BadIdIsRefused | veetee-firmware/main/veetee_mcp.c:85-95 | An id that is not positive is refused and leaves no trace |
| McpRegistry.RepeatAnswer | veetee-firmware/main/veetee_mcp.c:96-111 | A repeated id gets its stored outcome, a conflict for another digest, or expiry after 16 further calls, and changes nothing |
| McpRegistry.SkippedIdExpires | veetee-firmware/main/veetee_mcp.c:96-111 | An id at or below the high-water mark that was never accepted is answered as expired |
| McpDigest.MixIsBijective | veetee-firmware/main/veetee_mcp.c:146-152 | One FNV-1a step is undone by the inverse prime 0x359c449b modulo 2^32 |
| McpDigest.MixIsFnv | veetee-firmware/main/veetee_mcp.c:146-152 | A step is the bitwise exclusive or with the byte, then the product with 16777619 modulo 2^32 |
| McpDigest.DigestBytes | veetee-firmware/main/veetee_mcp.c:146-152 | The loop computes FNV-1a of the bytes from the running value |
| McpDigest.DigestString | veetee-firmware/main/veetee_mcp.c:154-165 | A string contributes its four length bytes and then itself |
| McpDigest.DigestCall | veetee-firmware/main/veetee_mcp.c:167-175 | The digest is FNV-1a of the serialised method, tool and arguments |
| McpDigest.SerialiseInjective | veetee-firmware/main/veetee_mcp.c:154-175 | Two calls serialise alike only if method, tool and arguments are equal |
| McpDigest.OneByteChangeIsSeen | veetee-firmware/main/veetee_mcp.c:146-175 | Serialisations that differ in exactly one byte never share a digest |
| McpDigest.ChangedArgumentIsSeen | veetee-firmware/main/veetee_mcp.c:167-175 | Changing one byte of the arguments changes the digest |
| JsonPrinter.ReadEscaped | veetee-firmware/main/veetee_mcp_wire.c:55-97 | Reading an escaped string gives the original characters back (RFC 8259 section 7) |
| JsonPrinter.DecimalRoundTrip | veetee-firmware/main/veetee_mcp_wire.c:34-53 | A printed id reads back as the same number |
| JsonPrinter.DocReadsBack | veetee-firmware/main/veetee_mcp_wire.c:21-97 | Any printed document, followed by what may follow a value, reads back to its meaning and leaves the rest |
| JsonReader.ReadValueExtends | veetee-firmware/main/veetee_mcp_wire.c:169-187 | A complete JSON text stays the same value when it is embedded in a longer message |
| McpWire.Writer.AppendBytes | veetee-firmware/main/veetee_mcp_wire.c:21-32 | Appends exactly when the text and a terminator still fit; a failure sticks; bytes beyond the limit are untouched |
| McpWire.Writer.AppendFormat | veetee-firmware/main/veetee_mcp_wire.c:34-53 | The formatted append has the same bound |
| McpWire.Writer.AppendEscapedString | veetee-firmware/main/veetee_mcp_wire.c:55-97 | Appends the quoted, escaped string, or fails exactly when it does not fit |
| McpWire.ValidJsonObject | veetee-firmware/main/veetee_mcp_wire.c:105-119 | True exactly for texts whose first character is a brace and whose last after trailing blanks closes it |
| McpWire.LooksExactly | veetee-firmware/main/veetee_mcp_wire.c:103-119 | The payload check lets through exactly the texts in braces with blanks around them, whatever is inside |
| McpWire.Begin | veetee-firmware/main/veetee_mcp_wire.c:130-155 | Each error exactly for its cause; on success the envelope's head is in the buffer |
| McpWire.FitsExactly | veetee-firmware/main/veetee_mcp_wire.c:130-155 | A text has room exactly when it is shorter than the buffer and at most 8000 bytes long |
| McpWire.WriteResult | veetee-firmware/main/veetee_mcp_wire.c:169-187 | Succeeds exactly when the payload passes the check, the id is positive and the whole text fits; then it is terminated and at most 8000 bytes |
| McpWire.WriteError | veetee-firmware/main/veetee_mcp_wire.c:288-306 | Succeeds exactly when the id is positive and the whole text with its escaped message fits; then it is terminated and at most 8000 bytes |
| McpWire.ResultReadsBack | veetee-firmware/main/veetee_mcp_wire.c:130-187 | A JSON reader recovers the session, the id and the payload from every result message |
| McpWire.ResultReadsBackExactly | veetee-firmware/main/veetee_mcp_wire.c:169-187 | For any payload text, the message reads back to the session, the id and a value if and only if the payload is a JSON text of that value on its own |
| McpWire.AcceptedPayloadAddsMember | veetee-firmware/main/veetee_mcp_wire.c:105-187 | A payload that passes the check, is no JSON text, and is read as a result with an error member beside it |
| McpWire.ErrorReadsBack | veetee-firmware/main/veetee_mcp_wire.c:288-306 | A JSON reader recovers the session, the id and the message text from every error message |
| McpWire.ObjectsPassTheCheck | veetee-firmware/main/veetee_mcp_wire.c:105-119 | No text that reads as a JSON object is refused |
| McpWire.CheckIsNotAParser | veetee-firmware/main/veetee_mcp_wire.c:105-119 | A text that is not JSON passes; what becomes of a message with such a payload is stated by ResultReadsBackExactly |
| McpTools.AppendTools | veetee-firmware/main/veetee_mcp_wire.c:233-256 | The loop writes the tools of one page, comma separated, and stops at the page size or the last tool |
| McpTools.EverySchemaIsChecked | veetee-firmware/main/veetee_mcp_wire.c:233-256 | Every schema of a page is looked at |
| McpTools.WriteToolsList | veetee-firmware/main/veetee_mcp_wire.c:217-274 | With the default page size of 4: succeeds exactly when the page's schemas pass and its text fits; then the buffer holds that text and the next index is right |
| McpTools.PageReadsBack | veetee-firmware/main/veetee_mcp_wire.c:217-274 | A JSON reader recovers the page's tools with their schemas, and the next cursor |
| McpTools.SchemasReadExactly | veetee-firmware/main/veetee_mcp_wire.c:236-252 | All schemas of a registry are JSON texts if and only if all pages of all registries made of its first tools read back |
| McpTools.LastToolReadOnlyIf | veetee-firmware/main/veetee_mcp_wire.c:236-252 | The page of the last tool alone reads back only if its schema is a JSON text |
| McpTools.SchemasCanConspire | veetee-firmware/main/veetee_mcp_wire.c:236-252 | For any two tools there are schemas that pass the check, neither of them JSON, with which their page reads back to just these tools |
| McpDispatch.CursorIndex | veetee-firmware/main/veetee_mcp_dispatch.c:32-48 | A cursor is valid exactly when absent or a registered name, and stands for the first tool of that name |
| McpDispatch.CursorsAre | veetee-firmware/main/veetee_mcp_dispatch.c:32-48 | The good cursors are none at all and the names of the registered tools |
| McpDispatch.ListTools | veetee-firmware/main/veetee_mcp_dispatch.c:111-122 | A bad cursor is answered with its error message, any other with the page it stands for |
| McpClient.PageTellsTheClient | veetee-firmware/main/veetee_mcp_wire.c:230-270 | Looking up the members of a read page yields exactly its tool names in order and its next cursor |
| McpDispatch.PagingListsEveryTool | veetee-firmware/main/veetee_mcp_dispatch.c:32-48 | Following the cursors from none lists each tool once in registry order, in max(1, ceil(n/4)) pages |
| McpClient.ClientListsEveryTool | veetee-firmware/main/veetee_mcp_dispatch.c:111-122 | A client that reads the written bytes and sends back the cursor it finds there sees every tool once, in order, over max(1, ceil(n/4)) answers |
| McpDispatch.DuplicateNameLoops | veetee-firmware/main/veetee_mcp.c:55-67 | Without the distinctness that registration enforces, the first page can hand out its own cursor |
| McpDispatch.CallTool | veetee-firmware/main/veetee_mcp_dispatch.c:136-143 | A call goes to the registry under the digest of its method, tool and arguments |
| McpDispatch.AnswerCall | veetee-firmware/main/veetee_mcp_dispatch.c:123-150 | The buffer holds the result or the error message the registry's outcome stands for, or the call reports that it does not fit |
| McpDispatch.ResultIsTheTools | veetee-firmware/main/veetee_mcp_dispatch.c:136-150 | The client is told a result exactly when the tool itself succeeded within the size, and then the tool's own bytes |
| McpDispatch.FailureIsNamed | veetee-firmware/main/veetee_mcp_dispatch.c:21-60 | Otherwise it gets the error message of the first thing that went wrong: no tool, too large, or what the tool reported |
| McpDispatch.MessagesTell | veetee-firmware/main/veetee_mcp_dispatch.c:21-30 | Each refusal of the registry has a text of its own |
| McpDispatch.AlteredRetryConflicts | veetee-firmware/main/veetee_mcp_dispatch.c:136-143 | A retry with one argument byte changed conflicts or expires, and reaches no tool |
| McpDispatch.ExactRetryIsReplayed | veetee-firmware/main/veetee_mcp_dispatch.c:136-150 | An exact retry within the window is answered with the same bytes, and reaches no tool |
| DeviceState.DeviceStateMachine.constructor | veetee-firmware/main/main.c:1531 | The device starts idle, in generation zero |
| DeviceState.DeviceStateMachine.Apply | veetee-firmware/main/veetee_state.c:56-78 | An event moves the state only along the transition table; exactly an effective abort or disconnect starts a new generation |
| DeviceState.SpeakingBoundary | veetee-firmware/main/veetee_state.c:6-50 | Only tts/start enters speaking, and every event that speaking allows leaves it |
| DeviceState.MovesAre | veetee-firmware/main/veetee_state.c:56-78 | For each state, exactly which events lead into it from where |
| DeviceState.AllowedExactly | veetee-firmware/main/veetee_state.c:6-29 | An event is allowed exactly when it moves the device or is one of three that confirm where it is; abort is allowed in the interruptible states |
| DeviceState.TableIsExact | veetee-firmware/main/veetee_state.c:31-54 | The transition table lets through exactly the moves that some event makes, so it never refuses one |
| TtsDrain.StepKeepsInv | veetee-firmware/main/main.c:311-426 | Each small step of any task keeps the drain invariant |
| TtsDrain.RunKeepsInv | veetee-firmware/main/main.c:739-762 | No stop is lost: whenever the device speaks with a stop pending, an empty queue and an idle decoder, some task is on its way to complete or abort |
| TtsDrain.CommittedTaskFinishes | veetee-firmware/main/main.c:365-426 | That task needs nobody else: alone it ends speaking within five steps |
| TtsDrain.InternalRunsEnd | veetee-firmware/main/main.c:739-762 | No schedule keeps the tasks busy for ever without new input |
| TtsDrain.EveryStopIsResolved | veetee-firmware/main/main.c:644-682 | After any history, once the tasks come to rest no stop is left waiting |
| TtsDrain.StopIsDroppedOnlyFor | veetee-firmware/main/main.c:331-343 | While speaking goes on, a waiting stop is dropped only for a new turn, an abort under way or a torn-down transport |
| TtsDrain.StopCanOvertakeLastPacket | veetee-firmware/main/main.c:746-747 | A stop can complete with a packet dequeued and not yet playing |
| TtsDrain.StopCanOvertakeQueuedPacket | veetee-firmware/main/main.c:311-414 | A stop can complete with a packet still queued that arrived before it |
| TtsDrain.CompletionOvertakes | veetee-firmware/main/main.c:311-426 | After any history, a stop completed by the websocket thread overtakes audio exactly when a packet is in hand that its look at the busy flag did not show; by the playback task, exactly when one was queued since its look at the queue; by the button task, exactly when either |
| SecretLock.MutationLocks.Arrive | veetee-manager-api/src/app.ts:503-508 | A new caller may enter at once exactly when every earlier caller on its key has finished |
| SecretLock.MutationLocks.Enter | veetee-manager-api/src/app.ts:508-510 | Whoever enters is the first unfinished caller on the key and the only one inside |
| SecretLock.MutationLocks.Exit | veetee-manager-api/src/app.ts:511-514 | The next caller in line may then enter, and the key stays in the map exactly while there is one |
| SecretLock.RunKeepsInv | veetee-manager-api/src/app.ts:501-515 | Turn order, predecessor links, the map and the entry order stay right over every run |
| SecretLock.MutualExclusion | veetee-manager-api/src/app.ts:501-515 | At most one caller of a key is inside, for any number of callers and any schedule |
| SecretLock.FifoAndExactMap | veetee-manager-api/src/app.ts:501-515 | Entry is in arrival order per key; the map holds a key exactly while it has an unfinished caller, and then the last arrival; it is empty exactly when all are done |
| SecretLock.NoDeadlock | veetee-manager-api/src/app.ts:501-515 | The first unfinished caller of a key can always move |
| SecretLock.EveryCallerFinishes | veetee-manager-api/src/app.ts:501-515 | After any history a schedule without new arrivals has at most two steps a caller, and where it ends every caller has finished and the map is empty |
| SecretFile.FileIsSequential | veetee-manager-api/src/secret-store.ts:87-97 | In every interleaving the file is the successful puts and deletes applied one by one in call order |
| SecretFile.EveryCallFinishes | veetee-manager-api/src/secret-store.ts:87-97 | After any history a schedule without new requests has at most two steps a call, and where it ends every call has finished and the file is the successful ones applied in call order |
| SecretFile.AnyStepMayFail | veetee-manager-api/src/secret-store.ts:87-97 | A call can fail exactly where it could load or save |
| SecretFile.VersionsCountPuts | veetee-manager-api/src/secret-store.ts:31-54 | A version is the number of puts since the last delete, and a reference exists exactly while that is positive |
| SecretFile.EncryptedFileStore.Put | veetee-manager-api/src/secret-store.ts:31-45 | The returned version is one more than the puts since the last delete, and no other reference changes |
| SecretFile.EncryptedFileStore.Delete | veetee-manager-api/src/secret-store.ts:47-54 | Load, change and save amount to one delete, and nothing is saved when there is nothing to delete |
| WakeFeed.WakeWord.constructor | veetee-firmware/main/veetee_wake.c:120-123 | A fresh component is armed, and its buffer holds the requested samples, but at least one detector block and 512 more |
| WakeFeed.WakeWord.FeedSamples | veetee-firmware/main/veetee_wake.c:165-202 | The copying loops refine feeding a scan of the stream, with every error case |
| WakeFeed.WakeWord.Drain | veetee-firmware/main/veetee_wake.c:182-197 | The inner loop shows full blocks until one hits or less than a block is left, and always progresses |
| WakeFeed.WakeWord.Arm | veetee-firmware/main/veetee_wake.c:204-251 | Arming starts a fresh detector history, or disables the component when the new detector does not fit |
| WakeFeed.ScanSplits | veetee-firmware/main/veetee_wake.c:165-202 | Scanning in two parts is scanning at once, unless the first part already hit |
| WakeFeed.ScanShowsBlocks | veetee-firmware/main/veetee_wake.c:182-197 | The detector is shown exactly the stream's consecutive blocks up to the first hit |
| WakeFeed.StopsAtFirstWord | veetee-firmware/main/veetee_wake.c:176-205 | The scan stops at the first block on which the detector names one of its words, numbered from one |
| WakeFeed.FeedsScanTheStream | veetee-firmware/main/veetee_wake.c:165-202 | However the stream is cut, a run from arming equals one scan of the concatenation |
| WakeFeed.SplitsAgree | veetee-firmware/main/veetee_wake.c:165-202 | Two cuts of one stream show the same blocks, report the same first hit and keep a tail shorter than a block |
| ServiceOrder.CheckManifest | tools/runtime/veetee_runtime.py:112-117 | Of the manifest checks, those on names (lines 76-77) and on dependencies: they pass exactly when names are non-empty and unique and every dependency is a service |
| ServiceOrder.Visitor.Visit | tools/runtime/veetee_runtime.py:235-247 | A visit terminates and either appends what it reaches after its dependencies or has found a real cycle |
| ServiceOrder.StartOrder | tools/runtime/veetee_runtime.py:231-251 | It raises exactly when the dependency graph has a cycle, and otherwise returns an order of all services |
| ServiceOrder.OrderExcludesCycles | tools/runtime/veetee_runtime.py:231-251 | A graph that has such an order has no cycle |
| ServiceOrder.OrderIsComplete | tools/runtime/veetee_runtime.py:231-251 | An order lists each service of the manifest once with its dependencies strictly earlier |
| RestartLimiter.Supervisor.PollService | tools/runtime/veetee_runtime.py:130-160 | One service's turn refines the pruning, counting and back-off rules |
| RestartLimiter.Supervisor.MonitorOnce | tools/runtime/veetee_runtime.py:130-160 | One poll treats each exited service by those rules and leaves the others alone |
| RestartLimiter.RestartsAreLimited | tools/runtime/veetee_runtime.py:136-157 | Any closed interval as long as the window holds at most maxAttempts restarts, despite pruning |
| RestartLimiter.RestartsAreBackedOff | tools/runtime/veetee_runtime.py:141-157 | Each restart comes at least the back-off after the poll that first scheduled it |
| RestartLimiter.RestartsExactly | tools/runtime/veetee_runtime.py:141-157 | A poll of an exited service restarts it if and only if fewer than maxAttempts restarts lie in the window and the back-off has passed since an earlier poll that found room, with no restart in between |
| RestartLimiter.EveryServiceIsLimited | tools/runtime/veetee_runtime.py:130-160 | Over any rounds over many services, with exits and failing starts, no service is restarted more than its maxAttempts times in a closed interval as long as its window |
| RestartLimiter.EveryServiceBacksOff | tools/runtime/veetee_runtime.py:130-160 | Each restart of each service comes its back-off or more after a round that considered it, no earlier than its restart before |
| RestartLimiter.EveryServiceRestarts | tools/runtime/veetee_runtime.py:130-160 | Among many services, a round restarts one if and only if it comes to it, finds it exited, and its restart is due |
| LoginThrottle.RetryAfter | veetee-manager-api/src/auth-throttle.ts:75-78 | The least whole number of seconds that outlasts the lock, zero exactly without one |
| LoginThrottle.Gate.CheckLogin | veetee-manager-api/src/auth-throttle.ts:33-41 | Touches the three buckets and decides by the longest lock |
| LoginThrottle.Gate.RecordLoginFailure | veetee-manager-api/src/auth-throttle.ts:43-56 | Counts one failure in each of the three buckets, then prunes |
| LoginThrottle.Gate.RecordLoginSuccess | veetee-manager-api/src/auth-throttle.ts:58-62 | The three keys have no bucket afterwards, every other key has the one it had, and all counts stay exact |
| LoginThrottle.Gate.BucketFor | veetee-manager-api/src/auth-throttle.ts:66-73 | Keeps a locked or current bucket, and otherwise replaces it by a fresh one and prunes |
| LoginThrottle.Gate.PruneNow | veetee-manager-api/src/auth-throttle.ts:80-89 | Drops stale buckets, then the least recently touched ones down to the capacity |
| LoginThrottle.BucketsAreExact | veetee-manager-api/src/auth-throttle.ts:43-89 | After any calls there are at most maxBuckets, and every bucket counts exactly the failures of its key since its window began |
| LoginThrottle.LockHolds | veetee-manager-api/src/auth-throttle.ts:33-89 | Before a lock ends, only a success for the key or a capacity eviction lifts it |
| LoginThrottle.CheckRefuses | veetee-manager-api/src/auth-throttle.ts:33-41 | A check that names a locked key is refused for at least the rest of the lock, unless the check itself evicts the key |
| LoginThrottle.EnoughFailuresLock | veetee-manager-api/src/auth-throttle.ts:43-56 | maxAttempts failures since the window began leave the key locked for lockoutMs after the last |
| LoginThrottle.LocksAreExact | veetee-manager-api/src/auth-throttle.ts:43-73 | On a clock that does not go back a bucket is locked until lockoutMs after its latest failure if it has counted maxAttempts of them, and otherwise not at all |
| LoginThrottle.AllowedExactly | veetee-manager-api/src/auth-throttle.ts:33-41 | After any calls a check is allowed if none of its keys is so locked, and only if, unless the check itself evicts one of them |
| LoginThrottle.WaitIsExact | veetee-manager-api/src/auth-throttle.ts:33-41 | A refused check is told the least whole number of seconds that outlasts the longest of these locks |
| LoginThrottle.TouchStartsWindow | veetee-manager-api/src/auth-throttle.ts:66-73 | A touched key keeps its window exactly while that is not over or the key is locked, and else starts a new one with no failures |
| LoginThrottle.EveryFailureCounts | veetee-manager-api/src/auth-throttle.ts:43-56 | In any run each reported failure is counted once for each of its three keys, and nothing else is |
| LoginThrottle.FailureTells | veetee-manager-api/src/auth-throttle.ts:43-56 | A report is answered with a refusal exactly when one of the three counts has now reached maxAttempts |
| LoginThrottle.PruneIsExact | veetee-manager-api/src/auth-throttle.ts:80-89 | Kept are just the buckets touched within the window or locked, less the least recently touched ones beyond the capacity |
| LoginThrottle.ExpiredIsNotMissed | veetee-manager-api/src/auth-throttle.ts:66-89 | A bucket that expires would have started a new window at its next touch anyway |
| LoginThrottle.Gate.SameSpelling | veetee-manager-api/src/auth-throttle.ts:91 | Two sign-ins share a key exactly when the address, the identity or both agree after trimming and lower-casing |
| Ingestion.IngestReflects | veetee-manager-api/src/store.ts:1260-1328 | A new turn is stored, a redelivery changes nothing |
| Ingestion.RefusedExactly | veetee-manager-api/src/store.ts:1260-1282 | A delivery is refused exactly when it is malformed, too large, of another owner or assistant, or agrees with a stored turn in only one of id and sequence number; the first of these is the error |
| Ingestion.NewTurnSetsStatus | veetee-manager-api/src/store.ts:1296-1321 | A stored turn gives the conversation the status it names, or else the one of how it ended |
| Ingestion.DeliveriesReflect | veetee-manager-api/src/store.ts:1260-1328 | After any deliveries the record holds each distinct turn once, their number, and the maxima of the three times |
| Ingestion.OrderDoesNotMatter | veetee-manager-api/src/store.ts:1260-1328 | Any two delivery orders of one set of turns, with any redeliveries, end with the same sorted turns, count and maxima |
| Ingestion.SortTurnsSorts | veetee-manager-api/src/store.ts:1350-1352 | The detail view lists the stored turns, each once, in increasing sequence |
| Ingestion.ViewShowsTurns | veetee-manager-api/src/store.ts:1277-1352 | After any deliveries the detail view shows each distinct turn once, in order, with its transcript exactly when the policy captures transcripts |
| Retention.StepKeepsJobs | veetee-manager-api/src/store.ts:1204-1252 | Every call keeps at most one job per owner and conversation and at most three attempts each |
| Retention.RunKeepsJobs | veetee-manager-api/src/store.ts:1204-1252 | After any run there is at most one job per owner and conversation, with at most three attempts |
| Retention.JobsOnlyAdvance | veetee-manager-api/src/store.ts:1204-1252 | A job keeps its subject and its attempts never fall |
| Retention.CompletedIsAbsorbing | veetee-manager-api/src/store.ts:1225-1252 | A completed job stays as it is for ever |
| Retention.RemovalLeavesTombstone | veetee-manager-api/src/store.ts:1181-1252 | Whatever removes a conversation leaves its owner's tombstone lasting exactly the lifetime |
| Retention.ReadAfterRemoval | veetee-manager-api/src/store.ts:1339-1348 | Until the id is ingested again the owner reads expired exactly while the tombstone lasts, then missing; others always read missing |
| Retention.PurgeKeepsExactly | veetee-manager-api/src/store.ts:1181-1195 | A purge keeps exactly the conversations whose retention has no end or a later one |
| Retention.ReadOverTime | veetee-manager-api/src/store.ts:1181-1348 | Over any run that leaves it alone a conversation is found until its retention ends, then expired for the lifetime of a tombstone from the first sweep on, then missing |
| Retention.ReadUntilRetention | veetee-manager-api/src/store.ts:1260-1348 | From the turns to the reads: found until so many days of 86400000 ms after the latest end that a closing turn gives, expired and missing from then on as above |
| Retention.KeptWithoutRetention | veetee-manager-api/src/store.ts:1260-1348 | Without capture, without a number of days, or while no turn has closed it, a conversation is found for ever |
| Retention.RequestWorksUnlessBlocked | veetee-manager-api/src/store.ts:1204-1252 | After a request some job removes the owner's conversation if and only if no job of the owner for it has completed or used up its attempts |
| Retention.RequestQueues | veetee-manager-api/src/store.ts:1204-1223 | After a request the owner's job is queued exactly when it is not spent, a new one with no attempts; no other job and no conversation changes |
| Retention.RunEnds | veetee-manager-api/src/store.ts:1225-1252 | A run uses up an attempt unless the job is spent, and completes it exactly when the owner's conversation is there or is gone with the owner's tombstone left |
| Retention.BlockedForEver | veetee-manager-api/src/store.ts:1204-1252 | Once one has, then after any run only expiry removes the owner's conversation, whatever is called |
| Retention.CompletedJobBlocksSecondDelete | veetee-manager-api/src/store.ts:1204-1252 | One cause: with a completed job, neither request nor run changes anything |
| Retention.ThreeFailuresBlock | veetee-manager-api/src/store.ts:1225-1252 | The other cause: three runs while conversation and tombstone are gone use up the attempts |
| Retention.ConversationStore.constructor | veetee-manager-api/src/store.ts:506-510 | The tombstone lifetime is at least a minute |
| Retention.ConversationStore.PurgeExpired | veetee-manager-api/src/store.ts:1181-1202 | The two loops bury exactly the expired conversations, drop exactly the outlived tombstones and report how many were buried |
| Retention.ConversationStore.GetConversation | veetee-manager-api/src/store.ts:1339-1348 | A read purges, then finds, reports expired or reports missing |
| Retention.ConversationStore.RequestDelete | veetee-manager-api/src/store.ts:1204-1223 | A request returns the owner's one job, requeued if it may be retried, or the right error |
| Retention.ConversationStore.RunDeleteJob | veetee-manager-api/src/store.ts:1225-1252 | A run removes its owner's conversation exactly when the job is not spent, and no other; a removal completes the job and leaves a tombstone of exactly the lifetime |
| Retention.ConversationStore.IngestTurn | veetee-manager-api/src/store.ts:1260-1328 | If the conversation holds just the turns delivered so far, a consistent turn is accepted and it then holds just those and this one; no other conversation changes |
| ProviderSafety.SeedIsSound | veetee-manager-api/src/store.ts:506-536 | A fresh store's selections by config are sound if and only if each names a config the snapshot itself seeds, of its kind; its secrets are sound and no draft has a deleted config |
| ProviderSafety.StepKeepsUsedConfigs | veetee-manager-api/src/store.ts:749-791 | No call removes, reassigns or disables a config its owner's assistants use |
| ProviderSafety.StepKeepsDrafts | veetee-manager-api/src/store.ts:733-979 | Every call keeps each draft selection by config on an existing, enabled config of the same owner and kind |
| ProviderSafety.RunKeepsDrafts | veetee-manager-api/src/store.ts:733-985 | After any run every draft selection by config names an existing, enabled config of the same owner and kind |
| ProviderSafety.RunKeepsPublished | veetee-manager-api/src/store.ts:928-979 | Unless a snapshot is installed from outside, every published selection by config keeps naming an existing, enabled config of the owner and kind |
| ProviderSafety.RunKeepsNames | veetee-manager-api/src/store.ts:1371-1376 | One owner's live configs keep different names |
| ProviderSafety.BoundSecretSurvives | veetee-manager-api/src/store.ts:1044-1050 | With fresh reference ids, every reference a config is or was bound to still exists for its owner after any run |
| ProviderSafety.EveryRunIsSafe | veetee-manager-api/src/store.ts:506-1050 | From a seed that names no configs but its own, after any calls, draft selections are served and every reference ever bound exists |
| ProviderSafety.ResolveAllSpec | veetee-manager-api/src/store.ts:935-957 | Publishing resolves every selection in its place, or reports the first that does not resolve |
| ProviderSafety.PublishNeverDangles | veetee-manager-api/src/store.ts:928-979 | A sound draft of config selections publishes exactly when each selected config is bound to all its secrets |
| ProviderSafety.DeletedConfigCanBeSelected | veetee-manager-api/src/store.ts:896-914 | A deleted, enabled config can be selected, after which every change of it is refused as not found |
| ProviderSafety.LiveUnlessDeletedIsChosen | veetee-manager-api/src/store.ts:783-914 | No state of a run has a deleted config in a draft if and only if no call of it selects a deleted config |
| ProviderSafety.DeletedIsFrozen | veetee-manager-api/src/store.ts:749-791 | A deleted config stays exactly as it is over any run |
| ProviderSafety.StepKeepsSecrets | veetee-manager-api/src/store.ts:1010-1050 | No call, whether on configs or on references, leaves a config bound, now or ever, to a missing or foreign reference |
| ProviderSafety.PutSelects | veetee-manager-api/src/store.ts:908 | Choosing for one kind sets that kind and leaves every other selection as it was |
| ProviderSafety.SettingsExactly | veetee-manager-api/src/store.ts:733-769 | Settings are refused for the schema or an empty name, then for a name of another live config of the owner, then for references that are too many, repeated, foreign, missing or without a secret |
| ProviderSafety.CreatesExactly | veetee-manager-api/src/store.ts:733-747 | Exactly when a config is created, and that it is then just the requested one, enabled, in revision 1 |
| ProviderSafety.UpdatesExactly | veetee-manager-api/src/store.ts:749-769 | A config is updated exactly when its owner has seen its current version, it is not deleted, and the new settings pass for it |
| ProviderSafety.UpdateChanges | veetee-manager-api/src/store.ts:749-769 | An update changes name and references if given, the revision by one and the etag; the history gains the references and loses none |
| ProviderSafety.InUseExactly | veetee-manager-api/src/store.ts:1361-1369 | In use means that a draft of the owner's, or the last published snapshot while its assistant is published, names the id as config or provider |
| ProviderSafety.WithdrawsExactly | veetee-manager-api/src/store.ts:771-791 | A config is disabled or deleted exactly when its owner has seen it and does not use it, and nothing else changes; enabling asks for no more than having seen it |
| ProviderSafety.SelectsExactly | veetee-manager-api/src/store.ts:896-914 | A kind can be set to nothing or to an enabled config of the owner whose installation is of that kind, and to nothing else |
| ProviderSafety.DraftRevisionsCount | veetee-manager-api/src/store.ts:873-914 | A draft starts at revision 1 and goes up by one with every edit that succeeds, and with nothing else |
| ProviderSafety.ResolvesExactly | veetee-manager-api/src/store.ts:935-957 | When a selection can be published, and what it becomes |
| ProviderSafety.PublishesExactly | veetee-manager-api/src/store.ts:928-979 | Exactly when an assistant is published, and that only its published revision and the snapshot change |
| ProviderSafety.DropsExactly | veetee-manager-api/src/store.ts:1044-1050 | A reference is deleted exactly when its owner has seen it and no config of the owner, deleted or not, was ever bound to it |
| ProviderSafety.ProviderStore.constructor | veetee-manager-api/src/store.ts:506-536 | The constructor's loop builds the seed state |
| ProviderSafety.ProviderStore.CreateProviderConfig | veetee-manager-api/src/store.ts:733-747 | Creates an enabled config and its reference history, or changes nothing and reports the first failed check |
| ProviderSafety.ProviderStore.UpdateProviderConfig | veetee-manager-api/src/store.ts:749-769 | Replaces settings and adds to the reference history, or changes nothing |
| ProviderSafety.ProviderStore.SetProviderConfigEnabled | veetee-manager-api/src/store.ts:771-781 | Refuses to disable a config in use |
| ProviderSafety.ProviderStore.DeleteProviderConfig | veetee-manager-api/src/store.ts:783-791 | Archives a config that is not in use |
| ProviderSafety.ProviderStore.ProviderConfigInUse | veetee-manager-api/src/store.ts:1361-1369 | True exactly when a draft, or the published snapshot of a published assistant, of this owner mentions the id |
| ProviderSafety.ProviderStore.UpdateProviderSelection | veetee-manager-api/src/store.ts:896-914 | On success only this kind's selection changed and a chosen config is served; the invariants are kept |
| ProviderSafety.ProviderStore.PublishAssistant | veetee-manager-api/src/store.ts:928-979 | Publishes the resolved draft, or changes nothing |
| ProviderSafety.ProviderStore.DeleteSecretReference | veetee-manager-api/src/store.ts:1044-1050 | On success no config of anybody is or was bound to the reference; no other reference goes and the invariants are kept |
| Bits.WordReadsBack | veetee-firmware/main/veetee_mqtt_udp_wire.c:10-26 | Reading four bytes undoes writing a 32-bit word big-endian |
| Bits.WordWritesBack | veetee-firmware/main/veetee_mqtt_udp_wire.c:10-26 | Writing the word that four bytes read as gives the same four bytes |
| Bits.HalfReadsBack | veetee-firmware/main/veetee_mqtt_udp_wire.c:5-19 | Reading two bytes undoes writing a 16-bit word |
| Bits.HalfWritesBack | veetee-firmware/main/veetee_protocol.c:5-19 | Writing the word that two bytes read as gives the same two bytes |
| UdpWire.Encode | veetee-firmware/main/veetee_mqtt_udp_wire.c:28-50 | Writes exactly the frame's packet to the front of the buffer, or reports the first violated condition and leaves the buffer alone |
| UdpWire.DecodeReadsPacket | veetee-firmware/main/veetee_mqtt_udp_wire.c:28-72 | Decoding a valid frame's packet gives the frame |
| UdpWire.AcceptedIsPacket | veetee-firmware/main/veetee_mqtt_udp_wire.c:28-72 | An accepted packet is the packet of the frame it decodes to |
| UdpWire.AcceptsExactlyPackets | veetee-firmware/main/veetee_mqtt_udp_wire.c:52-72 | Exactly the packets of valid frames are accepted, and no two frames share one |
| UdpWire.OtherLengthsAreRejected | veetee-firmware/main/veetee_mqtt_udp_wire.c:52-72 | A packet cut short or with anything after it is refused as short or for its length |
| UdpWire.PacketLayout | veetee-firmware/main/veetee_mqtt_udp_wire.c:28-50 | The packet byte by byte, most significant bytes first |
| UdpWire.EncodesExactly | veetee-firmware/main/veetee_mqtt_udp_wire.c:28-50 | Encoding succeeds exactly for frames that a peer accepts and that fit; a zero sequence number has its own error |
| UdpWire.SpoiltFieldIsRefused | veetee-firmware/main/veetee_mqtt_udp_wire.c:52-72 | A packet with its type, length or sequence number spoilt is refused for that field |
| UdpSession.CryptUndoes | veetee-firmware/main/veetee_mqtt_udp_crypto.c:17-68 | Counter mode applied twice is the identity (NIST SP 800-38A section 6.5) |
| UdpSession.SealIsCounterMode | veetee-firmware/main/veetee_mqtt_udp_crypto.c:17-68 | Behind the header the bits of packet and audio differ exactly where the block cipher of the counter block has a one, the counter being the header as a number plus one for every 16 bytes, modulo 2^128 |
| UdpSession.ZerosGiveTheKeyStream | veetee-firmware/main/veetee_mqtt_udp_crypto.c:17-68 | A payload of zeros leaves as the block cipher's own bytes |
| UdpSession.OpenInvertsSeal | veetee-firmware/main/veetee_mqtt_udp_crypto.c:109-172 | A peer with the same key and flag gets back the frame that was sealed |
| UdpSession.SealInvertsOpen | veetee-firmware/main/veetee_mqtt_udp_crypto.c:109-172 | Whatever opens is the seal of the frame it opens to |
| UdpSession.RefusedExactly | veetee-firmware/main/veetee_mqtt_udp_crypto.c:150-172 | Each error of opening exactly for its cause: no session, a zero sequence number, no packet of this session, no room, a failing cipher |
| UdpSession.SendsExactly | veetee-firmware/main/veetee_mqtt_udp_crypto.c:109-148 | A call sends exactly when its frame can be encoded, a number is left and the cipher works |
| UdpSession.SequencesCount | veetee-firmware/main/veetee_mqtt_udp_crypto.c:109-148 | In any run of calls the successful ones are numbered on from the last without gap or wrap, and failed ones use up no number |
| UdpSession.SessionNumbersPackets | veetee-firmware/main/veetee_mqtt_udp_crypto.c:109-148 | From init the packets carry 1, 2, 3 and so on, and no two share an initial counter block |
| UdpSession.SessionBlocksMeetExactly | veetee-firmware/main/veetee_mqtt_udp_crypto.c:109-148 | Two packets of a session share a counter block if and only if they agree in length, source and timestamp and are fewer packets apart than each has blocks, or, almost 2^32 packets apart, the newer counts up into the older |
| UdpSession.PlacesDiffer | veetee-firmware/main/veetee_mqtt_udp_crypto.c:17-68 | No two bytes of one packet are encrypted with the same byte of the same block |
| UdpSession.SessionSharesKeyBytesExactly | veetee-firmware/main/veetee_mqtt_udp_crypto.c:109-148 | Two packets of a session use a byte of the same block twice exactly when they share a counter block, which is under the conditions above |
| UdpSession.PeerHearsEverything | veetee-firmware/main/veetee_mqtt_udp_crypto.c:109-172 | The peer opens every packet of a run to the audio that was sent |
| UdpSession.Crypto.constructor | veetee-firmware/main/veetee_mqtt_udp_crypto.c:101-107 | A session object starts idle |
| UdpSession.Crypto.Init | veetee-firmware/main/veetee_mqtt_udp_crypto.c:81-99 | Accepts exactly a 16-byte key and a 16-byte nonce of the packet type; otherwise nothing changes |
| UdpSession.StartsExactly | veetee-firmware/main/veetee_mqtt_udp_crypto.c:81-99 | Init accepts exactly the secrets a session can start with |
| UdpSession.Crypto.Reset | veetee-firmware/main/veetee_mqtt_udp_crypto.c:101-107 | Wipes both secrets, the sequence and the ready flag |
| UdpSession.Crypto.Encrypt | veetee-firmware/main/veetee_mqtt_udp_crypto.c:109-148 | Leaves the sealed packet in the buffer and uses one sequence number exactly on success |
| UdpSession.Crypto.Decrypt | veetee-firmware/main/veetee_mqtt_udp_crypto.c:150-172 | Opens a packet into the output buffer, or reports the error and writes nothing; the session is unchanged |
| WsCodec.Encode | veetee-firmware/main/veetee_protocol.c:28-61 | Writes exactly the message of the frame's profile, or leaves the buffer alone |
| WsCodec.DecodeReadsMessage | veetee-firmware/main/veetee_protocol.c:28-102 | Decoding gives the frame back, with its timestamp in profile 2 and without it in 1 and 3 |
| WsCodec.AcceptedIsMessage | veetee-firmware/main/veetee_protocol.c:63-102 | An accepted message is the message of the frame it decodes to |
| WsCodec.AcceptsExactlyMessages | veetee-firmware/main/veetee_protocol.c:63-102 | A profile accepts exactly the messages of its valid frames, which differ at most in a lost timestamp |
| WsCodec.MessageLayout | veetee-firmware/main/veetee_protocol.c:28-61 | The message of each profile byte by byte, most significant bytes first |
| WsCodec.EncodesExactly | veetee-firmware/main/veetee_protocol.c:28-61 | Encoding succeeds exactly for frames that a peer accepts and that fit |
| WsCodec.SpoiltMessageIsRefused | veetee-firmware/main/veetee_protocol.c:63-102 | A message cut short, spoilt in its constant part or of another length than it says is refused, each with its own error |
| WsCodec.LongPayloadIsRefused | veetee-firmware/main/veetee_protocol.c:63-102 | More than 1500 bytes of payload are refused in every profile |

## Left out

- NULL-pointer arguments of the C functions, and hosts whose size_t is wider than 32 bits.
- The initialize writer of the MCP transport: it has the shape of the result writer.
- McpClient.ClientListsEveryTool: speaks of answers that fit the buffer; a page that does not is McpDispatch.ListTools's capacity error.
- Parsing of incoming MCP messages by cJSON, and the envelope checks before the method is known.
- McpTools.WriteToolsList: models the default page size of 4 only, the one the dispatcher passes.
- ServiceOrder.CheckManifest: leaves out the manifest's checks of commands, health probes, environment and policies.
- Tool callbacks that call back into the registry: a call is one step.
- Lock time-outs (100 and 20 ms), except for the playback push, and weak memory ordering: locks are always obtained and memory is sequentially consistent.
- TtsDrain.EveryStopIsResolved: does not claim that all audio has been played when the stop completes, because the code allows the overtaking.
- Wake re-arm and continuous-capture flags of the firmware's main loop.
- ESP-SR internals: the wake detector is any function of the blocks it has seen, and the echo canceller is not modelled.
- AES itself: the block cipher is any function of key, counter block and position in the block. After a cipher failure the contents of the packet buffer are unspecified.
- UdpSession.SessionSharesKeyBytesExactly: says which packets share counter blocks, not what follows for confidentiality.
- Secret encryption at rest, file I/O and verify() of the file store; an empty secret value, which is refused before the lock.
- Ingestion.OrderDoesNotMatter: leaves out the status and the aggregate timings, which are those of the last arrival, and the fields taken from the first arrival (start, locale, revision, device key).
- A device's lastConversationAt, and the reason and job id noted on a tombstone.
- Retention.ConversationStore.PurgeExpired: takes the clock of the purge and the store's own clock to be one, with times as whole milliseconds.
- Provider settings and their JSON Schema validation (a verdict of the caller's), the memory switch, voices, models, sessions and devices of the store.
- The PostgreSQL store, the HTTP routes and their schemas, authentication hooks and configuration.
- Starting and stopping of processes, readiness probes, and Python's recursion limit; times of the supervisor are whole numbers.
- Display, audio devices, transport, Wi-Fi, provisioning, pairing and board tools of the firmware: calls into libraries that are not part of this model.
- Acceptance, benchmark, backup and bootstrap scripts.
