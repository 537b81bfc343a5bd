# netbaiot: a Dafny model of the gateway's hard parts

The project models the parts of the netbaiot IoT gateway whose correctness depends on state, arithmetic or
interleaving, and proves what they keep for every input and every run.

| files | what they model |
|---|---|
| `Bits`, `Bytes`, `Utf8`, `Wire`, `WireDecoder`, `Preflight` | the structural preflight of CBOR and MessagePack payloads: a grammar of value trees, a pure decoder that inverts it, and the metered scanner that accepts exactly the encodings within limits |
| `Varint` | the base-128 reader of the protobuf codec |
| `EventBus`, `BusOutcomes`, `Spool` | the event bus (admission, hand-out, completion, retries), what each of its operations decides, its snapshot, the size of its image and its restore |
| `Shutdown`, `Pausing`, `Fencing`, `Finishing`, `Leftovers`, `Restarts`, `Lifecycle` | planned shutdown over that event bus and its spool: what every run keeps, when sinks pause, which reports count, when shutdown can finish, what it leaves on disk, what survives restarts, and the admission gate it closes |
| `OfflineWatcher` | the background loop that revokes device authorization when the business provider stays away |
| `PortSearch` | the automatic choice of a TCP and UDP port pair |
| `BoundedWriter`, `Binary64`, `Conversion` | the bounded output buffer, integers as IEEE 754 binary64, and the conversion of field maps to device events |
| `FrameTrace` | the frame trace of the load generator's stream proxy |
| `MqttFraming` | MQTT packets as the measurement scripts write and read them |
| `Subscription`, `Handover` | the client's event subscription with its byte budget and acknowledgements, what it hands over and how it ends |
| `Bootstrap`, `Identities` | products and codecs a server starts from, and the certificate identities its configuration admits |

Code that updates state in place is modelled by classes and methods (`Preflight.Scan`, `BoundedWriter.Writer`,
`FrameTrace.Capture`, `MqttFraming.Socket`, the loops of `Varint`, `PortSearch`, `Spool`, `Conversion`, `Bootstrap`, `Identities`);
each method is proved against a specification function or predicate. Concurrent parts are state machines whose
steps are the atomic sections of the code: the event bus takes one step per critical section, the shutdown
task one per wait or storage call, the watcher one per read, the subscription one per await point. A theorem
about a run is about every interleaving of those steps.

How the main results fit together:

* **Preflight.** `Acceptable` says what the limits promise, without reference to the scanner: some value tree of
  the supported subset encodes to exactly this input and fits. `Preflight.Preflight` decides it, on any word
  size, with and without the early guard on map counts, within both work bounds. The tree is unique, the
  accepted language is prefix-free, and acceptance is monotone in the limits.
* **Shutdown.** `Shutdown.RunIsSafe` holds in every run from a start to any point of shutdown, whatever the
  broker, the disk, the sinks and the publishers do. It stands on `EventBus.PublishKeepsInv`,
  `EventBus.TakeKeepsInv` and `EventBus.CompleteKeepsInv`, which keep every count of the bus equal to the sum
  it caches. A start is a fresh bus into which the image found on disk, if any, has been restored
  (`Shutdown.Starts`), and `Restarts.NextStartOwesTheRest` ends in such a start again.
  `Restarts.NothingIsLostByRestarts` is about any number of lives on one disk, with any sinks and limits.
* **Bus operations.** The invariants say what every operation keeps; `BusOutcomes` says what each one does.
  `BusOutcomes.PublishDecides` and `BusOutcomes.CompleteDecides` are in terms of the events the bus is responsible
  for, not of its counters: every answer of a publication with its cause, the targets an accepted event waits at,
  and for a completed delivery of any sink whether it stays owed, where it is queued, and what is let go.
  `Pausing.PausedByItsFailures` is about every run: what was reported to a sink since its last acknowledgement
  decides whether it is paused and until when. It is not the latest failure that decides
  (`Pausing.EarlierPauseStands`): after a permanent failure a retryable one leaves the pause as it was.
  `Fencing.CompletedOnce` shows that a second report on a delivery changes nothing in any run.
* **What is left on disk.** `Leftovers.DiskHoldsTheLastImage` says what the disk holds at every point of every run:
  the image put there last, under one generation more for each, or, if none was, what was found until the removal
  and nothing after it. That a life which delivered everything leaves nothing for the next start is false:
  `Leftovers.DeliveredLifeIsLeft` writes an image, is told that the write failed, delivers what it holds, and
  leaves the image, because cleanup only removes the generation it recovered. `Leftovers.FinishedLeavesWork` gives
  the exact condition: a life that finished leaves work if and only if it put an image on disk.
* **Finishing.** That a planned shutdown can always finish by spooling what is undelivered is false: a commit refuses
  an image beyond the ceilings of the spool, and nothing ties those to what the bus admits.
  `Finishing.TwoEventsOneRecord` gives the input: a spool of one record and two publications.
  `Finishing.FinishesWithoutAcks` gives the exact condition: without another acknowledgement some continuation
  finishes if and only if no fault has happened and nothing is owed, or what is owed fits the spool, or the
  image already being written does. With acknowledgements, `Finishing.FinishesExactlyWhenUnfaulted`
  holds whatever the spool can hold, because every owed event can be taken and acknowledged.
* **Business connections.** That the gateway ends its business connections only after the broker's state has
  committed, and only when everything owed is on disk, is false twice over. An accept loop that fails ends
  them at any moment, and nobody watches it (`Shutdown.AcceptFailureLosesBusiness`). A removal of recovered files
  that fails returns from the server at once and takes them with it, also after a structural fault of the broker,
  although the design keeps the process alive then (`Shutdown.BusinessCanBeLostUncommitted`).
  `Shutdown.BusinessLost` gives the exact conditions: a step ends the connections with the broker uncommitted if and
  only if it is a failed accept before the commit or a failing removal after a structural fault; it ends them with
  owed work not on disk if and only if it is a failed accept at such a moment. Over whole runs these are the last
  clauses of `Shutdown.Safe`.
* **Restore.** `Spool.RestoreDecides`: a fresh bus restores an image, in any order of its records, if and only if
  every record is well-formed and the image as a whole fits the bus, its tenants and its sinks. That the next start with the same sinks and limits restores what a run left is false for an
  image whose attempt history is already as long as the ceiling: `Spool.HistoryOutgrowsRestore` restores such an
  event, fails one delivery, and gets an image that is refused. `Spool.SnapshotIsRestored` and
  `Restarts.NextStartOwesTheRest` give the exact condition on the image, and `Restarts.RunLeavesRestorable` shows
  that every run from an empty disk meets it.
* **Offline watcher.** No offline episode is called for twice, early or while serving, and none is skipped:
  in every interleaving of publications, clock and callback answers, an expired episode has been called for
  by the watcher's sixth step, unless it is over or the watcher has ended. That a called episode is also
  *revoked* is false: `OfflineWatcher.ReconnectDuringCallIsNotRevoked` gives a run in which the provider
  reconnects (a new epoch, still not serving) between the watcher's second read and the callback's comparison;
  the callback then does nothing, the watcher counts the episode as done, and it is never revoked.
  `OfflineWatcher.RevokedExactlyWhenUnchanged` gives the exact condition: an episode is ever revoked if and
  only if the status still equals the observed one when the callback compares them and the callback admits
  the revocation.
* **Subscription.** Soundness (`Subscription.SubscriptionIsSound`) would hold of a subscriber that never hands anything
  over; `Handover.TakenIsHandedOver` shows that every arrival within the bounds can be handed over from every state
  that waits on an open stream, and `Handover.ArrivalDecides` that any other ends the subscription, with a failure
  as the last message exactly when it was oversized and the queue had room.
* **Codec registry.** `Bootstrap.RegistryWillFit` shows that the registry's own size and duplicate checks cannot
  fail once the vendor codecs have been admitted, so `Bootstrap.ConfiguredRegistry` succeeds exactly for the
  configurations described by `Buildable`.

Assumptions, beyond the atomicity of the steps above: mutexes are not poisoned, and 64-bit operation,
transition and generation counters do not wrap. The clock is a natural number that never goes back.

## Model

| member | source | states |
|---|---|---|
| `WireDecoder.DecodeEncodedNode` | crates/netbaiot-codecs/src/binary.rs:114-193 | any encoding of a value tree of the subset (section 3 of RFC 8949, or the MessagePack format table), followed by anything, decodes to that tree and leaves what follows |
| `WireDecoder.DecodeEncodedEntries` | crates/netbaiot-codecs/src/binary.rs:98-101 | the same for the pairs of a map |
| `WireDecoder.DecodeEncodedHead` | crates/netbaiot-codecs/src/binary.rs:104-193 | every initial octet with its argument, on every width, is read back |
| `WireDecoder.EncodeDecodedNode` | crates/netbaiot-codecs/src/binary.rs:114-193 | whatever decodes is a tree of the subset and the octets read are its encoding |
| `WireDecoder.EncodeDecodedEntries` | crates/netbaiot-codecs/src/binary.rs:98-101 | the same for the pairs of a map |
| `WireDecoder.EncodeDecodedHead` | crates/netbaiot-codecs/src/binary.rs:104-193 | only the initial octets of the subset decode, each to the head it announces |
| `Preflight.EntriesStep` | crates/netbaiot-codecs/src/binary.rs:98-101 | metering a map pair by pair gives the same verdict and meters as metering the decoded map as a whole |
| `Preflight.EntriesLimits` | crates/netbaiot-codecs/src/binary.rs:88-97 | entries that are too deep, too many or more than half of the remaining octets can never be settled |
| `Preflight.OutcomeAtHead` | crates/netbaiot-codecs/src/binary.rs:114-193 | metering an item head first gives the same verdict as metering the decoded item |
| `Preflight.Scan.Charge` | crates/netbaiot-codecs/src/binary.rs:24-30 | a charge succeeds exactly when the total stays within decoded_bytes, overflow included |
| `Preflight.Scan.Take` | crates/netbaiot-codecs/src/binary.rs:37-42 | takes exactly the next octets or leaves the cursor where it was |
| `Preflight.Scan.Uint` | crates/netbaiot-codecs/src/binary.rs:46-52 | the big-endian number of up to eight octets, with no octet shifted out of the accumulator |
| `Preflight.Scan.Text` | crates/netbaiot-codecs/src/binary.rs:78-86 | accepts exactly UTF-8 (section 4 of RFC 3629) within the text limit and the budget, and charges three units per octet |
| `Preflight.Scan.CborArg` | crates/netbaiot-codecs/src/binary.rs:104-113 | the argument of every additional-information value, and failure exactly for the reserved ones or a short input |
| `Preflight.Scan.Value` | crates/netbaiot-codecs/src/binary.rs:114-193 | verdict, cursor and meters agree with the decoded item; the cursor never leaves the input; one call per node; terminates by the octets left; never past value level 65 |
| `Preflight.Scan.CborValue` | crates/netbaiot-codecs/src/binary.rs:119-156 | the CBOR branch settles the item as its decoded tree does |
| `Preflight.Scan.MsgpackValue` | crates/netbaiot-codecs/src/binary.rs:157-191 | the MessagePack branch settles the item as its decoded tree does |
| `Preflight.Scan.Map` | crates/netbaiot-codecs/src/binary.rs:87-103 | verdict and meters agree with the decoded pairs, whether or not the early guard on the count is applied |
| `Preflight.Preflight` | crates/netbaiot-codecs/src/binary.rs:195-211 | accepts exactly the acceptable inputs, guarded or not, on any word size; at most decoded_bytes/128 + 1 and 1 + 2(fields + 8) value calls on every input |
| `Preflight.PairsNeedOctets` | crates/netbaiot-codecs/src/binary.rs:93-97 | every pair takes at least two octets, which is why the early guard never changes the verdict |
| `Preflight.AcceptableByDecoding` | crates/netbaiot-codecs/src/binary.rs:195-211 | acceptability in terms of the decoder: the whole input decodes and the tree fits |
| `Preflight.AcceptedTreeIsUnique` | crates/netbaiot-codecs/src/binary.rs:114-193 | no two trees have the same encoding |
| `Preflight.DecodingIsStable` | crates/netbaiot-codecs/src/binary.rs:114-193 | decoding a value does not depend on octets appended after it |
| `Preflight.AcceptanceIsPrefixFree` | crates/netbaiot-codecs/src/binary.rs:195-211 | of two accepted inputs neither is a proper prefix of the other, even under different limits |
| `Preflight.AcceptanceIsMonotone` | crates/netbaiot-codecs/src/binary.rs:15-30 | raising any limit keeps every accepted input accepted |
| `Utf8.WellFormedExactly` | crates/netbaiot-codecs/src/binary.rs:78-86 | octets pass the UTF-8 test if and only if they are the encoding of a sequence of Unicode scalar values (section 3 of RFC 3629) |
| `Utf8.TextIsUnique` | crates/netbaiot-codecs/src/binary.rs:78-86 | and no two texts have the same encoding |
| `Varint.Read` | crates/netbaiot-codecs/src/binary.rs:53-66 | succeeds exactly on encodings of 64-bit numbers, consumes exactly one, and returns the sum of its 7-bit groups below 2^64 |
| `Bits.OrOfDisjoint` | crates/netbaiot-codecs/src/binary.rs:49-60 | the bitwise or of numbers without a common bit is their sum |
| `Varint.NextGroup` | crates/netbaiot-codecs/src/binary.rs:57-60 | no shift loses a bit and no group overlaps the accumulator: the 64-bit shift and bitwise or add exactly the next group |
| `Varint.CanonicalIsReadBack` | crates/netbaiot-codecs/src/binary.rs:53-66 | the canonical encoding of every 64-bit number is accepted and denotes it, whatever follows |
| `EventBus.InsertKeepsInv` | crates/netbaiot-runtime/src/event.rs:621-705 | taking responsibility for an event keeps every count and queue right and adds exactly its required sinks to what is owed |
| `EventBus.PublishKeepsInv` | crates/netbaiot-runtime/src/event.rs:558-705 | publishing keeps all counts equal to their sums and within limits; acceptance adds exactly the required responsibilities of a new event; any refusal changes nothing |
| `EventBus.FrontWaits` | crates/netbaiot-runtime/src/event.rs:1075-1136 | the record at the front of a sink's queue is of an event that is owed there and not with a worker |
| `EventBus.PromoteTakesEarliest` | crates/netbaiot-runtime/src/event.rs:1092-1117 | a hand-out promotes the delayed records that are due earliest, in due order, within its budget, and every due one unless the budget is used up |
| `EventBus.TakeKeepsInv` | crates/netbaiot-runtime/src/event.rs:1075-1136 | handing a record out loses nothing, issues a fresh operation number, and marks exactly that operation current |
| `EventBus.RequeueKeepsOrder` | crates/netbaiot-runtime/src/event.rs:1257-1281 | a record that comes back keeps the delayed records in due order |
| `EventBus.ReturnedKeepsInv` | crates/netbaiot-runtime/src/event.rs:1257-1281 | a failed delivery goes back into the due order of its own sink with nothing owed changed |
| `EventBus.ReleaseKeepsInv` | crates/netbaiot-runtime/src/event.rs:1282-1332 | releasing a sink gives back its room, removes exactly that responsibility, and drops the event with its tenant's share once nobody waits for it |
| `EventBus.CompleteKeepsInv` | crates/netbaiot-runtime/src/event.rs:1174-1332 | a completion removes a required responsibility exactly when it is current and an acknowledgement; stale, duplicate and failed ones leave everything owed |
| `EventBus.RequiredIsPending` | crates/netbaiot-runtime/src/event.rs:1433-1504 | the required counter is positive whenever an event still owes a required sink |
| `EventBus.PublishKeepsCeilings` | crates/netbaiot-runtime/src/event.rs:1374-1425 | an event published along compiled routes stays within the fan-out ceiling, and its history within the number of sinks |
| `EventBus.CompleteKeepsCeilings` | crates/netbaiot-runtime/src/event.rs:1200-1210 | remembered attempts never outgrow the number of sinks, however often deliveries fail |
| `EventBus.TakeSucceeds` | crates/netbaiot-runtime/src/event.rs:1075-1136 | a sink with records queued and none in flight hands one out once its pause and its earliest due time are over |
| `EventBus.AckLightens` | crates/netbaiot-runtime/src/event.rs:1282-1327 | an acknowledgement of a current delivery takes one responsibility off the bus |
| `BusOutcomes.PublishDecides` | crates/netbaiot-runtime/src/event.rs:558-657 | every answer of a publication and when it is given: draining, conflict, unavailable, and accepted if and only if the active events and the tenant's leave room for it, every required target has room and some target has; otherwise overloaded |
| `BusOutcomes.PublishDelivers` | crates/netbaiot-runtime/src/event.rs:629-705 | an accepted event waits at exactly the targets whose owed events leave room for it, required or not, behind what is ready there and with no attempts; no other sink changes |
| `BusOutcomes.TakeDecides` | crates/netbaiot-runtime/src/event.rs:1075-1136 | a sink hands out a record if and only if it is not paused, or past its pause with nothing in flight, and a record is ready or due; it is the first of its queue, and the rest of the queue stays |
| `BusOutcomes.PromotesWhatIsWanted` | crates/netbaiot-runtime/src/event.rs:1092-1117 | a hand-out promotes a due record if there is one, more only to fill free worker slots, and leaves a due one behind only when they are filled |
| `BusOutcomes.CompleteDecides` | crates/netbaiot-runtime/src/event.rs:1174-1332 | a completed delivery stays owed if and only if it failed and the sink is required, or the failure is retryable, the attempts are below the maximum and the record is young; it is then queued with one attempt more behind all due no later, and otherwise its room is given back, and the event goes with its last sink |
| `Pausing.PausedByItsFailures` | crates/netbaiot-runtime/src/event.rs:1225-1256 | in every run a sink counts the failures since its last acknowledgement; it is paused if and only if it is required and one of them was permanent or there were three; the pause ends when the last pausing one said |
| `Pausing.AcknowledgementEndsPause` | crates/netbaiot-runtime/src/event.rs:1251-1255 | in every run a sink whose latest report is an acknowledgement is not paused |
| `Pausing.ThreeFailuresHoldBack` | crates/netbaiot-runtime/src/event.rs:1083-1090 | in every run a required sink with three failures in a row hands nothing out before the end of the pause that the last one set |
| `Pausing.EarlierPauseStands` | crates/netbaiot-runtime/src/event.rs:1244-1250 | a retryable failure after a permanent one leaves the earlier pause as it is |
| `Fencing.OverForGood` | crates/netbaiot-runtime/src/event.rs:1182-1193 | in every run a delivery that is over is never current again, whatever is published, taken or completed |
| `Fencing.CompletedOnce` | crates/netbaiot-runtime/src/event.rs:1182-1193 | a second report on a delivery, at any later point of any run and with any verdict, changes nothing |
| `Spool.RestoreKeepsInv` | crates/netbaiot-runtime/src/event.rs:707-837 | a restore that succeeds keeps all counts right and owes exactly what was owed plus what the records list |
| `Spool.RestoredIsSnapshot` | crates/netbaiot-runtime/src/event.rs:788-870 | a restored bus would write again exactly what was restored, attempt histories included |
| `Spool.RestoreDecides` | crates/netbaiot-runtime/src/event.rs:707-837 | a fresh bus restores any image, in any order of its records, if and only if every record is owed to required sinks only and within the ceilings, and the image as a whole fits the bus, every tenant and every sink |
| `Spool.SnapshotIsHoldable` | crates/netbaiot-runtime/src/event.rs:707-870 | the image of a consistent bus fits as a whole if and only if its records are within the ceilings |
| `Spool.Write` | crates/netbaiot-runtime/src/spool.rs:178-231 | writing record by record succeeds if and only if the image is within the record, record-size, segment and total ceilings, and then has the computed size |
| `Spool.SnapshotIsRestored` | crates/netbaiot-runtime/src/event.rs:707-870 | a fresh bus with the same sinks and limits restores a snapshot, in any order of its records, if and only if every record is within the fan-out and history ceilings; it then owes exactly what the first bus owed and has the same snapshot |
| `Spool.HistoryOutgrowsRestore` | crates/netbaiot-runtime/src/event.rs:737-741 | an event restored with a history as long as the ceiling, after one failed delivery, makes an image that the same configuration refuses |
| `Spool.CompleteGrows` | crates/netbaiot-runtime/src/event.rs:1200-1281 | a completion that acknowledges nothing owed leaves the same work with a longer history at most |
| `Spool.GrownFitsNoBetter` | crates/netbaiot-runtime/src/spool.rs:183-225 | what exceeds a ceiling of the spool still does after more publications and failed deliveries |
| `Shutdown.NothingPending` | crates/netbaiot-runtime/src/event.rs:892-908 | the counter shutdown waits on is zero exactly when nothing required is owed |
| `Shutdown.PublishKeeps` | crates/netbaiot-runtime/src/event.rs:558-705 | a publication at any moment keeps the shutdown invariants |
| `Shutdown.TakeKeeps` | crates/netbaiot-runtime/src/event.rs:1075-1136 | so does a worker taking a record |
| `Shutdown.CompleteKeeps` | crates/netbaiot-runtime/src/event.rs:1174-1332 | so does a completion, on time, late or repeated |
| `Shutdown.SnapshotKeeps` | crates/netbaiot-runtime/src/event.rs:853-890 | the image to be written covers everything owed and can be restored |
| `Shutdown.SpoolKeeps` | crates/netbaiot-runtime/src/spool.rs:178-261 | writing the image, which is refused beyond the spool's ceilings, failing to, and failing after writing keep unacknowledged restored work on disk |
| `Shutdown.RemoveKeeps` | crates/netbaiot-runtime/src/spool.rs:107-167 | removal, which checks the generation, and its failures, which end the run and its business connection, keep the invariants |
| `Shutdown.TaskKeeps` | apps/netbaiot-server/src/server.rs:501-596 | the other steps of shutdown and of the accept loop keep the invariants |
| `Shutdown.StepKeeps` | apps/netbaiot-server/src/server.rs:501-596 | every step keeps every invariant |
| `Shutdown.BootedBus` | crates/netbaiot-runtime/src/event.rs:707-837 | a bus that has restored the image it found is consistent, owes exactly that image, and would write it again |
| `Shutdown.RunIsSafe` | apps/netbaiot-server/src/server.rs:501-596 | in every run: accepted work is acknowledged or still owed, each once; restored work is on disk until acknowledged; nothing is on disk that was not accepted; removal starts only with nothing owed and workers stopped; completion only with the broker's image committed and everything owed in the committed spool image; the business connections have ended exactly when the accept loop failed, shutdown closed them or a removal failed; unless the accept loop failed they end only with everything owed on disk, and with the broker uncommitted exactly after a structural fault followed by a failed removal |
| `Shutdown.LatePublicationIsRefused` | crates/netbaiot-runtime/src/event.rs:566-568 | once shutdown has begun every publication is answered as draining and changes nothing |
| `Shutdown.BrokerOutcome` | apps/netbaiot-server/src/server.rs:517-537 | in every run the broker's state is committed if and only if it was stored, and faulted if and only if a structural failure was reported; transient failures decide nothing |
| `Shutdown.BusinessLost` | crates/netbaiot-transports/src/business_rpc.rs:224-232 | a step ends the business connections with the broker uncommitted if and only if it is a failed accept before the commit or a failing removal after a structural fault, and with owed work not on disk if and only if it is a failed accept at such a moment |
| `Shutdown.RunningAccepts` | crates/netbaiot-transports/src/business_rpc.rs:224-232 | until shutdown begins the accept loop runs, unless it has failed |
| `Shutdown.StoppedLoopNeverFails` | crates/netbaiot-transports/src/business_rpc.rs:224-232 | once shutdown has begun the accept loop can be stopped, and it then never fails |
| `Shutdown.AcceptFailureLosesBusiness` | crates/netbaiot-transports/src/business_rpc.rs:224-232 | a start, one accepted publication and a failed accept: the node runs on, owes the event, and has neither a disk image nor a business connection |
| `Shutdown.BusinessCanBeLostUncommitted` | apps/netbaiot-server/src/server.rs:521-546 | with a sound accept loop, from any fresh bus that can restore an event there is a run that loses the connections with the broker uncommitted |
| `Shutdown.FaultThenFailedRemoval` | apps/netbaiot-server/src/server.rs:521-546 | and so from every running node that recovered an image and owes nothing |
| `Finishing.CanFinish` | apps/netbaiot-server/src/server.rs:539-596 | when nothing is owed, or what is owed or already being written fits the spool, an unfaulted shutdown finishes without another delivery and with everything still owed |
| `Finishing.OwedGrows` | apps/netbaiot-server/src/server.rs:549-576 | without an acknowledgement, what is owed stays owed and its image can only grow |
| `Finishing.FinishesWithoutAcks` | apps/netbaiot-server/src/server.rs:539-596 | and otherwise it does not: from any point of any run, some continuation finishes without another acknowledgement if and only if that condition holds |
| `Finishing.TooManyForTheSpool` | crates/netbaiot-runtime/src/spool.rs:183-185 | with more owed events than the spool takes records, no continuation without an acknowledgement finishes |
| `Finishing.TwoEventsOneRecord` | crates/netbaiot-runtime/src/spool.rs:183-185 | such a node: a spool of one record and two publications from a fresh start |
| `Finishing.DrainOne` | crates/netbaiot-runtime/src/event.rs:1075-1332 | as long as something is owed, its sink can take and acknowledge it, or acknowledge a delivery in flight |
| `Finishing.Drain` | crates/netbaiot-runtime/src/event.rs:1075-1332 | from every state with workers up, some takes and acknowledgements leave nothing owed |
| `Finishing.FinishesExactlyWhenUnfaulted` | apps/netbaiot-server/src/server.rs:501-596 | with the accept loop sound, some continuation finishes if and only if neither a structural fault nor a failed removal has happened, whatever the spool can hold |
| `Leftovers.DiskHoldsTheLastImage` | crates/netbaiot-runtime/src/spool.rs:107-206 | at every point of every run: once images were put on disk, the last one is there under one generation more for each and no removal takes it; if none was, the disk is as found until a removal takes effect, and empty from the decision to end on |
| `Leftovers.FinishedLeavesWork` | apps/netbaiot-server/src/server.rs:539-576 | a life that finished leaves work for the next start if and only if it put an image on disk |
| `Leftovers.DeliveredIsLeft` | crates/netbaiot-runtime/src/spool.rs:127-130 | from any node that is writing, a write that fails after taking effect and the delivery of everything end in a finished life that owes nothing and leaves the image |
| `Leftovers.DeliveredLifeIsLeft` | crates/netbaiot-runtime/src/spool.rs:127-130 | such a life from a fresh start, with one publication |
| `Restarts.NextStartOwesTheRest` | crates/netbaiot-runtime/src/event.rs:707-870 | what a run leaves on disk is restored by the next start with the same sinks and limits, in any order, if and only if its records are within the ceilings of a restore; that is a start again, and it owes exactly what is on disk, which covers everything a run that ended left unacknowledged |
| `Restarts.RunLeavesRestorable` | crates/netbaiot-runtime/src/event.rs:733-741 | a run from an empty disk, or from an image whose histories fit its sinks, leaves an image within those ceilings |
| `Restarts.NothingIsLostByRestarts` | apps/netbaiot-server/src/server.rs:501-596 | over any number of restarts on one disk, with any sinks and limits, what one life accepted is acknowledged in some life or on disk at the end |
| `Lifecycle.StepKeeps` | crates/netbaiot-runtime/src/lifecycle.rs:43-110 | the admission counter equals the number of publishers holding it after every atomic access |
| `Lifecycle.RunKeeps` | crates/netbaiot-runtime/src/lifecycle.rs:43-110 | and in every interleaving |
| `Lifecycle.NobodyInsideWhileDraining` | crates/netbaiot-runtime/src/lifecycle.rs:43-110 | once draining has begun no publisher is inside, and none gets in |
| `Lifecycle.AnyoneCanEnter` | crates/netbaiot-runtime/src/lifecycle.rs:43-56 | while the state is running every idle publisher can get in |
| `Lifecycle.ZeroIsSeenExactly` | crates/netbaiot-runtime/src/lifecycle.rs:58-70 | quiescing reads zero if and only if nobody holds the counter |
| `Lifecycle.QuiescingEnds` | crates/netbaiot-runtime/src/lifecycle.rs:58-70 | from every state of quiescing, draining is reached once those who hold the counter have left, within two steps for each and two more |
| `Lifecycle.StateMovesForward` | crates/netbaiot-runtime/src/lifecycle.rs:72-104 | the state only moves forward, by the five transitions, and into draining only after zero was read |
| `Lifecycle.GateCanFinish` | crates/netbaiot-runtime/src/lifecycle.rs:38-104 | from every state the gate can be driven to its end |
| `OfflineWatcher.StepKeeps` | apps/netbaiot-server/src/server.rs:598-636 | the watcher's picture of the world stays consistent, whatever is published between its reads |
| `OfflineWatcher.RunKeeps` | apps/netbaiot-server/src/server.rs:598-636 | in every interleaving of status updates, clock and watcher steps |
| `OfflineWatcher.CallsAreLawful` | apps/netbaiot-server/src/server.rs:598-636 | no call on an observed serving status, none before the grace period is over, at most one per offline episode |
| `OfflineWatcher.ExpiredIsCalled` | apps/netbaiot-server/src/server.rs:598-636 | in every interleaving, from every reachable state, an episode past its deadline has been called for by the watcher's sixth step, unless it is over or the watcher has ended |
| `OfflineWatcher.StatusTellsHistory` | crates/netbaiot-runtime/src/business_rpc.rs:327-350 | in every run the clock and the published status are what the events say: a new episode for every change of serving, dated at its time, and the latest epoch |
| `OfflineWatcher.EndsExactly` | apps/netbaiot-server/src/server.rs:598-636 | the watcher ends if and only if it is stopped while it waits or its callback fails |
| `OfflineWatcher.RevokedExactlyWhenUnchanged` | crates/netbaiot-runtime/src/business_rpc.rs:353-368 | over every future, an episode is revoked if and only if the status equals the observed one at the callback and the callback admits it |
| `OfflineWatcher.ReconnectDuringCallIsNotRevoked` | crates/netbaiot-runtime/src/business_rpc.rs:327-368 | a concrete run in which a reconnection during the call leaves an expired episode called, not revoked, and the watcher at rest however long it lasts |
| `PortSearch.NthClosedForm` | apps/netbaiot-server/src/server.rs:657-662 | the n-th move from a port of the dynamic range, in closed form; it never leaves the range |
| `PortSearch.NthIsInjective` | apps/netbaiot-server/src/server.rs:657-662 | no port repeats within a period of 16384 moves |
| `PortSearch.NthReachesAll` | apps/netbaiot-server/src/server.rs:657-662 | every port of the range is reached within one period |
| `PortSearch.ChainIsDistinct` | apps/netbaiot-server/src/server.rs:663-695 | the non-zero ports of up to 32 attempts are distinct whatever port the system chose first |
| `PortSearch.BindDevicePair` | apps/netbaiot-server/src/server.rs:647-695 | success exactly when the last attempt binds both sockets, on one port; an explicit port is never moved; only retryable failures move on; at most 32 distinct ports |
| `BoundedWriter.Writer.Write` | crates/netbaiot-codecs/src/common.rs:290-313 | all of the slice or none of it, with length <= capacity <= maximum |
| `BoundedWriter.WrittenIsSound` | crates/netbaiot-codecs/src/common.rs:290-313 | one write keeps the bound on bytes moved by regrowth, clip at the maximum included |
| `BoundedWriter.RunHoldsWhatItAccepted` | crates/netbaiot-codecs/src/common.rs:277-324 | after any writes the buffer holds exactly the accepted slices in order, and regrowth moved fewer than twice the bytes held |
| `Binary64.NearestIsNearest` | crates/netbaiot-codecs/src/common.rs:119-130 | integer conversion is correctly rounded: no representable number is nearer, and ties go to the even one |
| `Binary64.IntIsExact` | crates/netbaiot-codecs/src/common.rs:119-130 | magnitudes up to 2^53 convert exactly |
| `Binary64.FirstInexact` | crates/netbaiot-codecs/src/common.rs:119-130 | 2^53 + 1 converts to 2^53 |
| `Binary64.InjectiveUpTo` | crates/netbaiot-codecs/src/common.rs:119-130 | conversion is injective on magnitudes up to a bound if and only if the bound is at most 2^53 |
| `Conversion.IntegersAreExact` | crates/netbaiot-codecs/src/common.rs:119-143 | an integer is accepted as a scalar if and only if its magnitude is at most 2^53, and then keeps its value |
| `Conversion.IntegersStayApart` | crates/netbaiot-codecs/src/common.rs:119-143 | different accepted integers, signed or unsigned, never become the same scalar |
| `Conversion.IntegersKeepTheirValue` | crates/netbaiot-codecs/src/common.rs:119-135 | a signed or unsigned integer atom becomes its own number if its magnitude is at most 2^53, and nothing otherwise |
| `Conversion.OthersKeepTheirValue` | crates/netbaiot-codecs/src/common.rs:131-143 | every other atom becomes the scalar that prints to it, except the null atom, which becomes nothing |
| `Conversion.AcceptedIntegersAreExact` | crates/netbaiot-codecs/src/common.rs:178-243 | in an accepted uplink every integer field of telemetry, and an integer value of a device event, has its own number |
| `Conversion.ValidTextByOctets` | crates/netbaiot-codecs/src/common.rs:12-14 | a text is valid by its characters if and only if it is by the octets it is sent as: their number, and no control character among them |
| `Conversion.CheckText` | crates/netbaiot-codecs/src/common.rs:12-14 | passes exactly the texts within the limit and free of control characters |
| `Conversion.CheckScalar` | crates/netbaiot-codecs/src/common.rs:15-22 | passes exactly valid text, finite numbers, decimals within the limit, and booleans |
| `Conversion.CheckKind` | crates/netbaiot-codecs/src/common.rs:23-40 | field by field, passes exactly the valid events |
| `Conversion.SaysOneThing` | crates/netbaiot-codecs/src/common.rs:178-243 | a kind and a field map describe at most one event |
| `Conversion.ReadKind` | crates/netbaiot-codecs/src/common.rs:184-238 | finds the event a field map describes, with no field left over, and fails exactly when there is none |
| `Conversion.IntoEvent` | crates/netbaiot-codecs/src/common.rs:178-243 | accepts exactly valid events of schema 1 with a non-negative time, unchanged; the heartbeat sequence takes the full 64-bit range |
| `Conversion.PrintedIsRead` | crates/netbaiot-codecs/src/common.rs:23-40 | an event printed to a field map is read back as itself if and only if it is valid, and otherwise refused |
| `FrameTrace.FramesResume` | tools/netbaiot-loadgen/business_stream_proxy.py:85-117 | parsing may stop at any octet and resume with what was left over |
| `FrameTrace.Capture.Drain` | tools/netbaiot-loadgen/business_stream_proxy.py:99-114 | records exactly the complete frames of the buffer, and stops for good at an oversized header |
| `FrameTrace.Capture.Feed` | tools/netbaiot-loadgen/business_stream_proxy.py:84-117 | after every chunk the records are the batch trace of the stream so far |
| `FrameTrace.Pump` | tools/netbaiot-loadgen/business_stream_proxy.py:56-128 | for every splitting into chunks, forwards the stream unchanged and traces it as one pass over its first 2 MiB does |
| `FrameTrace.TraceListsEveryFrame` | tools/netbaiot-loadgen/business_stream_proxy.py:57-117 | the trace of a bootstrap frame followed by any encoded frames lists exactly their headers |
| `MqttFraming.MqttPacket` | scripts/perf/mqtt_broker_network.py:73-82 | writes the type octet, the shortest remaining length and the body |
| `MqttFraming.Socket.RecvExact` | scripts/perf/mqtt_broker_network.py:90-97 | exactly the next octets, however the stream is cut into pieces, or failure when it ends first |
| `MqttFraming.Socket.Receive` | scripts/perf/second_round_offline.py:23-35 | the next packet of the stream and nothing more, or the same error, however the stream is cut into pieces |
| `MqttFraming.DecodeEncoded` | scripts/perf/second_round_offline.py:23-35 | a written packet is read back if and only if its body has at most 65536 octets, whatever follows; it then has at most three length octets; a larger one is refused |
| `MqttFraming.DecodeIsSound` | scripts/perf/second_round_offline.py:23-35 | whatever is read is in the stream: one to four length digits that denote the length of the body (section 2.2.3 of MQTT 3.1.1) |
| `MqttFraming.DecodeAllEncoded` | scripts/perf/second_round_offline.py:23-35 | any list of packets with bodies of at most 65536 octets is read back as that list, with nothing left over |
| `Subscription.KeepsConserved` | crates/netbaiot-client/src/lib.rs:894-960 | permits available, in hand, queued and held add up to the byte budget after every step |
| `Subscription.PipelineMoves` | crates/netbaiot-client/src/lib.rs:894-960 | a step moves deliveries along in order, admits one at the end, or cuts the end off for good |
| `Subscription.KeepsManual` | crates/netbaiot-client/src/lib.rs:812-831 | manual acknowledgements are of deliveries handed over and no longer held, each once |
| `Subscription.KeepsImmediate` | crates/netbaiot-client/src/lib.rs:938-950 | immediate acknowledgements are in order, each before its delivery is queued |
| `Subscription.StepKeeps` | crates/netbaiot-client/src/lib.rs:894-960 | every step of subscriber and application keeps all of these |
| `Subscription.SubscriptionIsSound` | crates/netbaiot-client/src/lib.rs:771-960 | in every run: permits conserved; acknowledged at most received; deliveries handed over in order without a gap; none acknowledged twice; manual mode acknowledges only after hand-off, immediate mode before; the reconnect counter equals the changes of connection seen |
| `Subscription.DroppingUnblocks` | crates/netbaiot-client/src/lib.rs:930-933 | from every state in which a purchase waits, the application can enable it by receiving and dropping alone |
| `Handover.ArrivalDecides` | crates/netbaiot-client/src/lib.rs:905-929 | in every run an arrival is bought if and only if it encodes within both bounds and 32 bits, and otherwise ends the subscription; the application is told if and only if it was oversized and the open queue had room |
| `Handover.FailedAcknowledgementIsTold` | crates/netbaiot-client/src/lib.rs:938-943 | a failed acknowledgement ends the subscription, gives its permits back, and is told if and only if the open queue had room |
| `Handover.TakenIsHandedOver` | crates/netbaiot-client/src/lib.rs:901-960 | from every state that waits on an open stream with room for an item, an arrival that is taken can be handed to the application, after everything admitted before it |
| `Handover.FirstIsHandedOver` | crates/netbaiot-client/src/lib.rs:894-960 | so can the first arrival from the start |
| `Handover.AcknowledgementsAddUp` | crates/netbaiot-client/src/lib.rs:812-960 | in every run everything handed over is held, acknowledged or given up; in immediate mode the acknowledged ones are those the subscriber wrote |
| `Handover.StopsExactly` | crates/netbaiot-client/src/lib.rs:902-957 | the subscriber stops if and only if an arrival is not taken, an acknowledgement fails, it is cancelled or its source ends; cancellation alone does not interrupt an acknowledgement |
| `Handover.CloseStops` | crates/netbaiot-client/src/lib.rs:844-846 | closing only cancels, and the subscriber can then stop in two steps |
| `Handover.EverythingIsReturned` | crates/netbaiot-client/src/lib.rs:857-864 | from every state, dropping the stream and what is held ends the subscription with every permit given back |
| `Bootstrap.BootstrapProducts` | apps/netbaiot-server/src/bootstrap.rs:3-39 | succeeds exactly when credentials of one tenant and product agree on the codec, with exactly one product per such pair, under its own tenant and product, at revision 1 |
| `Bootstrap.OrderDoesNotMatter` | apps/netbaiot-server/src/bootstrap.rs:3-39 | the products depend only on which credentials there are |
| `Bootstrap.NewRegistry` | crates/netbaiot-runtime/src/ingress.rs:14-25 | accepts exactly 1 to 64 entries with non-zero versions and distinct keys, and holds exactly those |
| `Bootstrap.VendorsAreNotBuiltin` | crates/netbaiot-codecs/src/vendor/mod.rs:11-17 | no vendor id can be a built-in's |
| `Bootstrap.VendorIdByOctets` | crates/netbaiot-codecs/src/vendor/mod.rs:11-17 | a vendor id is the prefix and 1 to 57 letters, digits, hyphens, dots, colons or underscores, with a non-zero version |
| `Bootstrap.BuiltinsAreHeld` | crates/netbaiot-codecs/src/lib.rs:26-37 | a registry that starts with the built-ins has each under its own name |
| `Bootstrap.AddNative` | apps/netbaiot-server/src/bootstrap.rs:80-97 | native codecs are added in order, or refused exactly for a bad or repeated id |
| `Bootstrap.AddPlans` | apps/netbaiot-server/src/bootstrap.rs:98-132 | declarative codecs are added in order, or refused exactly for a repeated or bad id, an oversized command or a failed compilation |
| `Bootstrap.RegistryWillFit` | apps/netbaiot-server/src/bootstrap.rs:133-135 | the final registry error never occurs |
| `Bootstrap.ConfiguredRegistry` | apps/netbaiot-server/src/bootstrap.rs:54-135 | succeeds exactly for buildable configurations, and holds every built-in under its own name, every native and every compiled codec, and nothing else |
| `Identities.ParseHex32` | apps/netbaiot-server/src/config.rs:139-150 | accepts exactly 64 hexadecimal digits of either case and returns their 32 octets |
| `Identities.FingerprintsIgnoreCase` | apps/netbaiot-server/src/config.rs:139-150 | two texts give the same fingerprint if and only if they differ in letter case only |
| `Identities.PrintedIsParsed` | apps/netbaiot-server/src/config.rs:139-150 | every 32-octet value is read back from its printed form |
| `Identities.PassingIsLawful` | apps/netbaiot-server/src/config.rs:248-315 | an identity passes if and only if: auth-control identities never send commands, offer exactly the two device methods and call exactly auth.sync and auth.invalidate; the others offer nothing and call only device.command.send, and that if and only if they hold commands |
| `Identities.ValidateIdentities` | apps/netbaiot-server/src/config.rs:243-315 | a list passes if and only if every identity does and all fingerprints differ |
| `Identities.ValidatedIsLawful` | apps/netbaiot-server/src/config.rs:243-315 | every identity of a validated list is lawful, and none is both auth-control and commands |

## Left out

- The typed decoding after preflight, the JSON and protobuf codecs beyond the varint reader, and declarative vendor codecs; a vendor compiler is a parameter of `Bootstrap.ConfiguredRegistry`.
- EventBus: the bus is modelled on values, one function per critical section, so update in place and the lock itself are not captured; nor are queue ages, acceptance times, metrics and the route tables, whose targets are any set within the compiled fan-out ceiling; retry delays, record ages and pause deadlines are inputs of a completion.
- Shutdown: power loss and the order in which a file system makes writes durable; a storage call either takes effect or not, and may fail after taking effect. On Windows a removal commits an empty image in place of the removed one, so the next start finds an image with nothing owed. The business connections are those the gateway itself keeps up; a peer may leave at any time. The encoded size of a spooled record is any function that does not shrink as its attempts grow.
- Finishing.FinishesExactlyWhenUnfaulted: stated while the accept loop has not failed, because afterwards sinks behind the business connections no longer acknowledge, and which sinks those are is not modelled; Finishing.FinishesWithoutAcks has no such condition.
- Restarts.NextStartOwesTheRest: about a start with the same sinks and limits; with other ones the source may refuse the restore, and Restarts.NothingIsLostByRestarts covers the starts that succeed.
- OfflineWatcher: the session and cache changes behind a revocation; the callback either admits it, finds the server draining, or fails.
- PortSearch: the sockets themselves; what the system answers to each bind is an arbitrary function of attempt and port, and binding a given port yields that port.
- Conversion: deserialisation into field maps, the sign of floating-point zero, and the text form of UUIDs, which is a pair of parameters.
- Identities.ValidateIdentities: the rules of `validate_business` outside the identity loop; the clock is one reading per identity.
- Bootstrap.BootstrapProducts: the default route of the snapshot, a constant, and the order of the resulting list.
- FrameTrace: timestamps, directions and chunk sizes in the records, socket errors, and the proxy's injected delays, resets and blackouts.
- Subscription: how the semaphore hands out permits to a waiting purchase bit by bit; a purchase takes effect at once when enough are available. Reconnection itself belongs to the RPC client.
- The MQTT broker, the RPC multiplexer, UDP replay protection, HTTP, TLS, cryptography, command line tools and benchmarks.
