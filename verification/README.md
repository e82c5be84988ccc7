# A verified model of the ma core library

This project models, in Dafny, the parts of the ma core library in which several operations have to
agree with each other, and proves what they achieve together. `dafny verify dfyconfig.toml` checks
all of it.

**Replacing a named pin** (`Kubo`, `LocalPass`, `RemotePass`, `CleanupBatch`, `CleanupScheduler`,
`PublishSystem`, `BatchAnswers`, `PinProtocol`, `RecordProtocol`, `FreshCopies`, `LostCopies`,
`PublishRuns`, `VanishingRuns`, `Quiescence`). A publisher pins a fresh CID under `<name>~new`,
publishes it, records it with a remote service, and hands a request to a scheduler. One worker later removes what is stale
and renames the surviving pin. Every Kubo call may fail, before or after taking effect. The passes and
the worker are methods on mutable node objects. Each returns, as a ghost, the run of a step machine
that it followed; the theorems are about that machine, in which publishers, worker and other users of
the node interleave step by step. `PublishSystem` has the pins of one node and the records of one
service in view, and the two passes of a batch one after the other; what passes on other nodes and
services answer is arbitrary.

**Cached connections** (`ConnectionCache`, `ConnectionResults`). Tasks are small-step programs over a
shared cache, a lock table and an environment that closes connections, connects inbound and cancels tasks at any moment.

**From outbox to inbox** (`Dids`, `Formats`, `Documents`, `Messages`, `ReplayGuards`, `Delivery`,
`EndToEnd`, `TtlQueues`). Signed documents and messages, encryption, the replay guard and the bounded inbox. Byte
strings are an abstract type `B`; hashing, signatures, Diffie-Hellman, AEAD and CBOR are the functions
of a `Suite`, and the laws assumed of them (`Formats.Lawful`) are shown consistent by a symbolic
instance (`Formats.LawsAreConsistent`) in which two identities can send each other messages.

**Around them**: the signed document of a secret bundle (`Identities`), the service registry of an
endpoint and the search in service lists (`Endpoints`, `Transports`), key names (`KeyNames`),
passphrases (`Passphrases`) and the retry loops (`Backoff`). `Text` and `Wrappers` are helpers.

## What the proofs found

The model follows the code where the code and its comments or documentation differ:

- A delayed re-send into a full channel strands its key for good: every later `schedule` of that key
  is accepted and none runs (`CleanupScheduler.StrandedForever`), although src/kubo/pinning.rs:79-80
  says that the next publication schedules another pass. It cannot happen while no more keys are in
  use than the channel has slots (`EnoughRoom`), and can with one more (`TooManyKeysCanStrand`).
- The end state of a name (`PinProtocol.EndState`) needs that all its requests had one key. For any
  two local requests of a name with different keys there is a run, with nothing lost and nothing
  stranded, that ends with the older CID under the name (`PublishRuns.OlderCidCanStay`).
- It also needs that its CIDs are published under no other name: a node keeps one name per CID, so of
  two names for the same document the first ends empty (`PublishRuns.SharedCidLeavesOneEmpty`).
- A batch still running for an older CID can remove a fresh CID's in-flight pin before its publisher
  schedules (`VanishingRuns.FreshPinCanVanish`). The local pass then pins the CID again.
- The remote pass does not: a fresh record removed in this way is never made again. A name published
  twice on an empty service can end with no record although every call succeeded
  (`VanishingRuns.RecordCanVanish`). `RecordProtocol.EndState` has both outcomes, and
  `FreshCopies.EndStateHasRecord` says what a publisher can rely on.
- `LostCopies.FreshCopyCanVanishIff` says exactly in which states a fresh pin or record can be lost.
- A remote migration whose second call fails leaves the CID without any record, and asks for no
  further pass. It can exactly when the CID has only its temporary record and nothing is stale
  (`RemotePass.LosesOnlyTheLoneTemporary`); with every call succeeding, exactly when besides the
  service records the CID under an unrelated name (`LosesQuietlyOnlyDuplicates`).
- `accept` removes whatever connection is cached for its key, so with inbound connections two dialled
  ones can be open. At most one is, over all runs, if and only if no peer connects on the key and
  open_bi fails only on closed connections (`ConnectionCache.OneOpenConnectionIff`).
- `drain` returns expired items that stand behind a live one, although doc/messaging.md:54-63 says
  consumers never see stale messages (`TtlQueues.DrainReturnsOnlyLive` has the exact condition).
- doc/messaging.md:59 calls `exp` nanoseconds; the code compares it to seconds.
- A message with the default lifetime of an hour can be accepted twice: the replay window is two
  minutes (`ReplayGuards.DefaultLifetimeOutlivesDefaultWindow`; `AcceptedTwiceIffOutlivesWindow` has
  the exact condition).
- A blank protocol can be registered, and is listed, but never resolves
  (`Endpoints.ResolvesExactlyRegistered`).

## Model

| member | source | states |
|---|---|---|
| `Kubo.InFlightNameInjective` | src/kubo/pinning.rs:18-22 | two names never share an in-flight name |
| `LocalPass.StalePins` | src/kubo/pinning.rs:24-28 | a CID is in the result exactly if it is listed and not the protected one |
| `LocalPass.StalePinsKeepCount` | src/kubo/pinning.rs:24-28 | each of those as often as it is listed |
| `LocalPass.StalePinsKeepOrder` | src/kubo/pinning.rs:24-28 | and in the order listed: the result for two listings is that for the first, then that for the second |
| `LocalPass.CleanupLocalPass` | src/kubo/pinning.rs:253-307 | the pass, with any subset of its calls failing, is a trace of the step machine from the old pins to the new ones, ending with its own answer |
| `LocalPass.DecideIsRight` | src/kubo/pinning.rs:276-306 | from two exact listings the pass goes on to remove exactly the stale pins, and does nothing exactly when the request is already settled |
| `LocalPass.ProtectedPinKept` | src/kubo/pinning.rs:24-29 | however the pins change between calls, no call of a pass removes the protected pin |
| `LocalPass.LocalPassSafe` | src/kubo/pinning.rs:253-307 | at every state of a pass, whatever fails: protected pin kept, pins under other names unchanged, the rename made only when no stale pin is left under either name |
| `LocalPass.SuccessfulPass` | src/kubo/pinning.rs:276-306 | while all calls succeed, a pass is on its way to removing every stale pin, and ends settled or asking for another pass |
| `LocalPass.CleanPassSettles` | src/kubo/pinning.rs:293-306 | a successful pass without stale pins ends with exactly the protected CID under the final name |
| `LocalPass.RemoveStale` | src/kubo/pinning.rs:279-290 | the removal loop goes through all stale pins and reports whether any removal succeeded |
| `RemotePass.CleanupRemotePass` | src/kubo/pinning.rs:309-401 | the remote pass, with any calls failing, is a trace of its step machine |
| `RemotePass.RemoveStale` | src/kubo/pinning.rs:343-361 | the removal loop goes through all stale records and reports whether any removal succeeded |
| `RemotePass.Migrate` | src/kubo/pinning.rs:366-388 | removal of the temporary record, then recreation, the second only after the first succeeded |
| `RemotePass.DecideIsRight` | src/kubo/pinning.rs:341-399 | exactly the stale records are removed; a migration starts only if there is a temporary and no final record |
| `RemotePass.DecidedRecords` | src/kubo/pinning.rs:341-349 | the removals decided on are exactly the stale CIDs of each listing, under the listed name |
| `RemotePass.RemotePassSafe` | src/kubo/pinning.rs:341-400 | at every state, whatever fails: a final record of the protected CID stays, a CID recorded under either name stays so except in the course of a migration, and that starts only from a lone temporary record with nothing stale; other names unchanged |
| `RemotePass.CleanPassSettles` | src/kubo/pinning.rs:363-400 | a successful pass with nothing stale ends with exactly the final record, if there was one, or if the CID was recorded under the temporary name and under no unrelated one |
| `RemotePass.StaysOnTrack` | src/kubo/pinning.rs:363-400 | every state of such a pass is on the way there |
| `RemotePass.LosesOnlyTheLoneTemporary` | src/kubo/pinning.rs:363-399 | a pass over records that hold the protected CID can end without any exactly when the CID has only its temporary record and nothing is stale |
| `RemotePass.LosesQuietlyOnlyDuplicates` | src/kubo/pinning.rs:363-399 | with every call succeeding it can exactly when, besides, the service records the CID under an unrelated name |
| `RemotePass.LossIsFinal` | src/kubo/pinning.rs:363-400 | a pass that loses the record leaves nothing under either name, and asks for no further pass |
| `CleanupBatch.CleanupOneBatch` | src/kubo/pinning.rs:239-251 | the local pass and then the remote pass, as steps of the batch machine; asks for more exactly when a removal in either pass reported success |
| `CleanupBatch.AnswerIsRight` | src/kubo/pinning.rs:239-251 | in any run, whatever fails and whatever others do, a batch asks for more exactly when one of its removals reported success |
| `CleanupBatch.SuccessfulBatch` | src/kubo/pinning.rs:239-251 | from the stores alone: an undisturbed batch whose calls succeed asks for more exactly when something was stale, leaves nothing stale, and when it does not ask has settled the request |
| `CleanupBatch.MoveKeepsProgress` | src/kubo/pinning.rs:239-361 | on every step, also with failing calls and others removing pins: a batch bound to ask for another has made the stale sets strictly smaller |
| `CleanupBatch.RerunsAreBounded` | src/kubo/pinning.rs:239-251 | a request is run again at most as often as there were stale records, local and remote, when it started |
| `CleanupScheduler.TokensMatchPending` | src/kubo/pinning.rs:116-134 | in every interleaving each key has at most one wake token, and the keys with one are the pending ones that are not stranded, and the one being entered |
| `CleanupScheduler.SameKeyIff` | src/kubo/pinning.rs:40-75 | two requests have one key exactly if they agree in node, name, local cleanup and service |
| `CleanupScheduler.WorkerRunsTheLatest` | src/kubo/pinning.rs:211-219 | with a token in hand the worker finds a request and runs it: the last one accepted for the key, as read off the events |
| `CleanupScheduler.AcceptedIsLast` | src/kubo/pinning.rs:116-134 | after every run the accepted request of a key is the last one that replaced another or was inserted after its token was sent |
| `CleanupScheduler.AtRestOnlyStrandedWait` | src/kubo/pinning.rs:206-237 | at rest the requests still pending are exactly the stranded ones |
| `CleanupScheduler.StrandedOnlyByFullResend` | src/kubo/pinning.rs:229-234 | a key becomes stranded exactly by a delayed re-send into a full channel |
| `CleanupScheduler.StrandedForever` | src/kubo/pinning.rs:225-232 | a stranded key stays pending and is never received or run again, whatever happens |
| `CleanupScheduler.StrandedSchedulesAreAcceptedInVain` | src/kubo/pinning.rs:119-122 | scheduling a stranded key is always accepted, and wakes nobody |
| `CleanupScheduler.EnoughRoom` | src/kubo/pinning.rs:101-134 | with no more keys in use than slots, no schedule is refused and no key is stranded |
| `CleanupScheduler.TooManyKeysCanStrand` | src/kubo/pinning.rs:225-232 | with one key more than slots, for every capacity, a run strands a key although every schedule was accepted |
| `CleanupScheduler.TwoKeysOlderRunsLast` | src/kubo/pinning.rs:40-75 | two requests for one name with different keys do not replace each other: a run in which the older one runs last |
| `CleanupScheduler.PinCleanupScheduler.WithCapacity` | src/kubo/pinning.rs:101-111 | an empty scheduler with at least one slot |
| `CleanupScheduler.PinCleanupScheduler.Schedule` | src/kubo/pinning.rs:116-134 | accepted exactly if the key waits or the channel has room; then the request waits under its key, with a token sent if none did before; otherwise nothing changes |
| `CleanupScheduler.PinCleanupScheduler.WorkerTurn` | src/kubo/pinning.rs:206-237 | one turn of the worker: the batch runs for the request that waited under the received key, on the two stores; the request waits again, with its token if there is room, exactly when the batch asks for more |
| `PinProtocol.StepKeepsInv` | src/ipfs/publish.rs:513-588 | the invariant of publishers, scheduler, both passes and the pins is kept by every step |
| `PinProtocol.EndState` | src/ipfs/publish.rs:513-588 | at rest, each guarded name whose accepted requests had one key, whose cleanup was not lost and whose key is not stranded has the CID of the last accepted request, as read off the events, pinned under the final name, and no other CID under either name |
| `PinProtocol.EndStateWhenAllGoesWell` | src/ipfs/publish.rs:513-588 | so it is in every run in which no call fails, nobody gives up and no more keys are used than the channel has slots |
| `PublishSystem.NothingLost` | src/ipfs/publish.rs:513-595 | in a run in which no call fails, nobody gives up and no schedule is refused, no cleanup is lost |
| `PublishSystem.NothingStranded` | src/kubo/pinning.rs:101-134 | in a run that uses no more keys than the channel has slots, no schedule is refused and no key stranded |
| `PublishSystem.AcceptedIsLastRequest` | src/kubo/pinning.rs:116-134 | in any run of the system the accepted request of a key is the one last accepted according to the events |
| `BatchAnswers.AnswerIsRight` | src/kubo/pinning.rs:239-251 | in any run of the system a batch asks for more exactly when one of its removals reported success since it was taken, or a pass elsewhere asks |
| `BatchAnswers.BatchesAreBatches` | src/kubo/pinning.rs:239-251 | in any run of the system the batches whose passes are in view start, go on and answer as those of `CleanupBatch` |
| `RecordProtocol.StepKeepsInv` | src/ipfs/publish.rs:549-595 | the invariant of publishers, scheduler, both passes and the records is kept by every step |
| `RecordProtocol.EndState` | src/kubo/pinning.rs:309-400 | at rest, each name as above has exactly the final record of the last accepted request's CID, or no record if that CID had none when the worker last took a request of the key |
| `RecordProtocol.EndStateWhenAllGoesWell` | src/kubo/pinning.rs:309-400 | so it has in every run in which all goes well and no more keys are used than slots |
| `FreshCopies.FreshCopyStays` | src/ipfs/publish.rs:513-588 | over runs, a pin or record that is there and not threatened stays so until a request for the name with another CID is scheduled |
| `FreshCopies.CopyWithoutRivalStays` | src/ipfs/publish.rs:513-588 | in particular one made while no such request waits, is entered or runs |
| `FreshCopies.SpentRivalIsNoThreat` | src/kubo/pinning.rs:239-251 | a batch whose passes have ended without asking for more is no threat to anything pinned or recorded since |
| `FreshCopies.EndStateHasRecord` | src/ipfs/publish.rs:556-588 | at rest the name has exactly the final record, if at some moment since which no such request was scheduled it was there and not threatened |
| `LostCopies.FreshCopyCanVanishIff` | src/kubo/pinning.rs:206-361 | in any state the protocol reaches, a fresh in-flight pin or final record can be lost before anything is scheduled if and only if a request for the name that protects another CID waits for its turn, is being entered, or runs and has yet to list, has listed the CID, or can run again |
| `PublishRuns.OnePublicationSettles` | src/ipfs/publish.rs:513-588 | a run from an empty node that meets every assumption of the end state theorem |
| `PublishRuns.OlderCidCanStay` | src/kubo/pinning.rs:40-75 | for any two local requests of a name with different keys, a run with nothing lost or stranded at the end of which the name holds exactly the CID of the one accepted first |
| `PublishRuns.SharedCidLeavesOneEmpty` | src/ipfs/publish.rs:508-513 | for one document and two names, a run in which both publications go well and at the end of which the first name is empty |
| `VanishingRuns.FreshPinCanVanish` | src/kubo/pinning.rs:276-288 | a run from an empty node in which a fresh pin is removed before its publisher schedules |
| `VanishingRuns.RecordCanVanish` | src/kubo/pinning.rs:363-400 | a run of two publications on an empty node and service in which nothing fails, and the name ends with its pin and no record |
| `Quiescence.StepsAreBounded` | src/kubo/pinning.rs:206-401 | once publishers stop, the further steps are at most a measure of what is pinned, recorded, waiting and running, and a fixed number for each rerun a pass elsewhere asks for |
| `Quiescence.RestIsReached` | src/kubo/pinning.rs:206-401 | with no pass elsewhere, they are at most the measure |
| `Quiescence.SomebodyCanStep` | src/kubo/pinning.rs:206-237 | until all is at rest, scheduler or worker can take a step |
| `ConnectionCache.OneDialerPerKey` | src/iroh/endpoint.rs:418-460 | in every reachable state at most one task per key is past the connect lock |
| `ConnectionCache.OneDialAtATime` | src/iroh/endpoint.rs:418-460 | so two tasks never dial, open a first stream or cache a connection for one key at once |
| `ConnectionCache.OneOpenConnectionPerKey` | src/iroh/endpoint.rs:546-689 | without inbound connections on the key and with open_bi failing only on closed connections, at most one dialled connection per key is open |
| `ConnectionCache.OneOpenConnectionIff` | src/iroh/endpoint.rs:546-689 | that holds over all runs if and only if both conditions do |
| `ConnectionCache.OpenEntriesStay` | src/iroh/endpoint.rs:376-384 | under the same conditions no step removes or replaces a cached open connection |
| `ConnectionCache.EvictionSparesOpen` | src/iroh/endpoint.rs:376-384 | under any conditions an eviction removes the entry of its key exactly if that connection is closed, and no other entry |
| `ConnectionCache.InboundHandlerCanDropOpenEntry` | src/iroh/endpoint.rs:1035-1050 | the first condition is needed: a run with two open dialled connections after an inbound handler ended |
| `ConnectionCache.FailingOpenBiCanDialTwice` | src/iroh/endpoint.rs:228-282 | the second condition is needed: a run with two open dialled connections after a failing open_bi |
| `ConnectionResults.ReturnsOwnConnection` | src/iroh/endpoint.rs:554-688 | a returned connection was made to or by the peer of the caller's own key, and for no other key |
| `ConnectionResults.ReturnsUsable` | src/iroh/endpoint.rs:405-460 | a returned connection was not closed when the caller last looked at it: found open or just dialled, or with a stream opened on it |
| `ConnectionResults.ReturnsCached` | src/iroh/endpoint.rs:554-688 | a returned connection was found cached for the key, or dialled and then cached for the key by the caller itself |
| `ConnectionResults.NothingOnlyAfterFailure` | src/iroh/endpoint.rs:546-689 | a finished call has no connection if and only if it was cancelled, its connect failed, or its first stream on a fresh connection did |
| `ConnectionResults.NobodyIsStuck` | src/iroh/endpoint.rs:418-460 | a call under way can take its next step, or waits for the lock of its key, held by a call that can |
| `ConnectionResults.StepsAreBounded` | src/iroh/endpoint.rs:397-460 | a call takes at most 14 steps of its own |
| `Dids.ParseIsInverseOfId` | src/did.rs:79-110 | a string parses to a DID exactly when the DID is well formed and prints as that string |
| `Documents.ProofPinsDocument` | src/doc.rs:449-510 | a document that parses with the proof of a signed one is that one: no other field can change without re-signing |
| `Documents.DocumentIsAcceptedIff` | src/ipfs/resolver.rs:49-59 | bytes are accepted as a document if and only if they decode to a proper one with a proper proof |
| `Documents.DocumentIsValidIff` | src/doc.rs:512-575 | which documents are proper: context, identifiers, controllers, timestamps, methods, and relationships that name a method with a key of the right kind |
| `Documents.ProofVerifiesIff` | src/doc.rs:479-510 | which proofs are proper: type, purpose, a method among the assertion methods, and a signature under its key over everything but the proof |
| `Documents.Draft.AddVerificationMethod` | src/doc.rs:371-382 | refuses invalid methods, ignores a known id or key, appends otherwise |
| `Documents.AddingKeepsDistinct` | src/doc.rs:371-382 | distinct methods stay distinct with one more exactly if neither its id nor its key is there |
| `Documents.NewMethodReplacesFragment` | src/doc.rs:43-65 | the fragment of a new method replaces the one of its id, if any |
| `Documents.Draft.Sign` | src/doc.rs:464-477 | refuses a foreign key, else replaces the proof by the signature over everything else |
| `Documents.NormalizedExtension` | src/doc.rs:315-335 | null and the empty map clear the field, anything else is stored as it is |
| `Documents.FindMethod` | src/doc.rs:384-390 | the first method with the id, if there is one |
| `Identities.BuildIdentityFromKeys` | src/identity.rs:50-97 | succeeds exactly for a valid identifier and an encodable document, with the signed base document of the keys |
| `Identities.GenerateIdentity` | src/config/secrets.rs:371-396 | the signed base document with the bundle's own creation time |
| `Identities.BuildDocument` | src/config/secrets.rs:424-445 | the signed document with extension and new update time; succeeds exactly when the extension can be encoded |
| `Identities.BundleDocumentIs` | src/config/secrets.rs:424-445 | what is in that document, field by field |
| `Identities.GeneratesIff` | src/config/secrets.rs:371-396 | which bundles have one |
| `Identities.ExpectedIsValid` | src/doc.rs:512-575 | such a document validates exactly when its two timestamps are well formed |
| `Identities.SignedDocumentChecksOut` | src/doc.rs:396-510 | the proof of such a document verifies over the document, and its first assertion and agreement keys are the two it was built from |
| `Identities.BuiltDocumentSurvives` | src/ipfs/resolver.rs:49-59 | encoding and parsing give the built document back exactly when its timestamps are well formed; its assertion and agreement keys are the bundle's; no other document with its proof is accepted |
| `Messages.DecryptUndoesEncloseFor` | src/msg.rs:350-409 | what was enclosed for a key decrypts with its secret to the very same message while its headers validate |
| `Messages.SignaturePinsMessage` | src/msg.rs:320-348 | a message that verifies with the signature of a signed message is that message, under that key |
| `Messages.SignedMessageVerifies` | src/msg.rs:320-348 | a signed message verifies exactly while its headers validate |
| `Messages.OpenUndoesSignAndEnclose` | src/msg.rs:551-568 | a signed and enclosed message opens, with the sender's document, to exactly that message while its headers validate |
| `Messages.HeadersAreValidIff` | src/msg.rs:82-111 | which headers are valid, clause by clause, and which error the recipient and freshness checks give |
| `Messages.MessageVerifiesIff` | src/msg.rs:326-348 | a message verifies if and only if its headers are valid, the document is its sender's, and its signature verifies under the first assertion key of that document |
| `Messages.DecryptsIff` | src/msg.rs:524-620 | which envelopes decrypt, and to which message |
| `ReplayGuards.ReplayGuard.CheckAndInsert` | src/msg.rs:454-470 | verdict and new memory of one call: nothing changes on invalid headers, a replay only prunes |
| `ReplayGuards.PrunedIff` | src/msg.rs:464-469 | an id is forgotten exactly when more than the window has passed, not when the clock goes back |
| `ReplayGuards.RecordedOrExpired` | src/msg.rs:454-470 | an accepted id stays recorded until more than the window has passed |
| `ReplayGuards.AcceptancesFarApart` | src/msg.rs:454-470 | two acceptances of one id are more than the window apart |
| `ReplayGuards.ShortLivedAcceptedOnce` | src/msg.rs:651-667 | a lifetime of at most the window minus twice the skew (and the time within one call) is accepted at most once over a whole run |
| `ReplayGuards.AcceptedTwiceIffOutlivesWindow` | src/msg.rs:651-667 | some run, with whatever other calls in it, accepts a message twice if and only if it is still fresh more than a window after it first can be accepted |
| `ReplayGuards.DefaultLifetimeOutlivesDefaultWindow` | src/msg.rs:24-26 | with the default lifetime and window it is |
| `Delivery.Outbox.constructor` | src/outbox.rs:43-70 | an open outbox with nothing sent |
| `Delivery.Outbox.Send` | src/outbox.rs:73-86 | at most one payload reaches the wire and none unless the message is valid and the outbox open; on success exactly one, in the form of `WireForm` |
| `Delivery.WireForm` | src/outbox.rs:73-86 | loopback messages and broadcasts go out raw, all others in an envelope; and exactly those with valid headers and, for an envelope, a recipient with an agreement key |
| `Delivery.Outbox.Close` | src/outbox.rs:101-105 | a closed outbox carries nothing |
| `Delivery.InboundSecurity.Decode` | src/iroh/endpoint.rs:61-93 | verdict and effect on the replay guard of one inbound payload |
| `Delivery.AcceptedIsForUs` | src/iroh/endpoint.rs:61-104 | an accepted message is a broadcast that came raw, or came in an envelope and names the recipient's identity; its sender checks out, its headers are valid and its id not in the replay window |
| `Delivery.OnlyPublishRequestsSkipResolver` | src/iroh/endpoint.rs:82-98 | an accepted message would be accepted whatever the resolver answers if and only if it is an identity publish request on /ma/ipfs/0.0.1 |
| `Delivery.SentMessageIsDecoded` | src/iroh/endpoint.rs:61-93 | what a remote outbox sends is decoded to exactly that message if and only if it is for this recipient, its sender checks out and its id is not in the replay window |
| `Delivery.OtherFormIsRefused` | src/iroh/endpoint.rs:61-93 | the form the sender did not choose is refused and leaves no trace |
| `Delivery.AcceptedIsAuthentic` | src/iroh/endpoint.rs:61-98 | unless it is an identity publish request on /ma/ipfs/0.0.1, an accepted message carries a signature under the first assertion key of the resolved document, which is that of its sender |
| `Delivery.RejectedLeaveNoTrace` | src/iroh/endpoint.rs:61-93 | deleting all rejected payloads from a run changes no other verdict |
| `Delivery.DeliveredAtMostOnce` | src/iroh/endpoint.rs:61-93 | over an inbound run two deliveries of a message are more than the window apart, and a short-lived message is delivered at most once |
| `EndToEnd.BundleIsBuilt` | src/config/secrets.rs:371-460 | the keys of a bundle with the document built from it are an identity as the delivery theorem takes it |
| `EndToEnd.ConnectingIsSent` | src/outbox.rs:73-86 | a fresh message with well-formed headers to a DID or DID URL of a built identity always leaves the outbox, as an envelope |
| `EndToEnd.SignedMessageIsDelivered` | src/iroh/endpoint.rs:61-93 | from keys to inbox: a message signed with the keys of one built document and sent to any DID URL of another identity is delivered there unchanged if still fresh and its id not in the replay window, and otherwise refused with the freshness or the replay error |
| `EndToEnd.BroadcastIsSent` | src/outbox.rs:73-86 | a fresh broadcast with well-formed headers and no recipient leaves every outbox raw |
| `EndToEnd.SignedBroadcastIsDelivered` | src/iroh/endpoint.rs:61-93 | a signed broadcast is delivered unchanged by every recipient if still fresh and its id not in the replay window, and otherwise refused with the freshness or the replay error |
| `EndToEnd.SymbolicDelivery` | src/msg.rs:350-409 | under the symbolic libraries every such message is delivered, so the assumptions of the delivery theorem can be met together |
| `TtlQueues.TtlQueue.constructor` | src/ttl_queue.rs:24-30 | an empty queue |
| `TtlQueues.TtlQueue.EvictExpired` | src/ttl_queue.rs:73-81 | the loop removes exactly the expired prefix |
| `TtlQueues.TtlQueue.Push` | src/ttl_queue.rs:36-42 | evicts, drops the oldest when full, appends |
| `TtlQueues.TtlQueue.Pop` | src/ttl_queue.rs:45-48 | the first item behind the expired prefix |
| `TtlQueues.TtlQueue.Peek` | src/ttl_queue.rs:51-54 | the same item, left in place |
| `TtlQueues.TtlQueue.Drain` | src/ttl_queue.rs:57-60 | everything behind the expired prefix |
| `TtlQueues.Evict` | src/ttl_queue.rs:73-81 | a suffix of the queue, all before it expired, its head not |
| `TtlQueues.EvictionIsTimely` | src/ttl_queue.rs:73-81 | what is evicted has an expiry that has come, and the head left has none or one to come |
| `TtlQueues.PopAllIsLive` | src/ttl_queue.rs:45-48 | popping until nothing comes back returns exactly the unexpired items in order |
| `TtlQueues.DrainReturnsOnlyLive` | src/ttl_queue.rs:57-60 | draining returns exactly those if and only if no expired item stands behind a live one |
| `TtlQueues.DrainOfOrderedExpiries` | src/ttl_queue.rs:57-60 | in particular when expiries never decrease, 0 being infinity |
| `TtlQueues.DrainCanReturnExpired` | src/ttl_queue.rs:57-60 | two entries on which draining returns an expired item |
| `TtlQueues.EveryItemAccounted` | src/ttl_queue.rs:36-81 | over any run each pushed item is exactly one of queued, consumed, evicted while expired, and dropped after at least `capacity` later pushes; consumption follows push order |
| `TtlQueues.ApplyMovesTheQueue` | src/ttl_queue.rs:36-60 | the accounting moves the queue exactly as the class does |
| `Transports.NormalizingIsFixpoint` | src/transport.rs:143-150 | normalizing yields a normal form and changes nothing exactly when given one |
| `Transports.NormalFormOf` | src/transport.rs:143-150 | space around and slashes in front, however many, give way to one slash |
| `Transports.PartsOfTransport` | src/transport.rs:16-51 | a service string gives back its endpoint id, in lower case, and its protocol unless that is blank |
| `Transports.ServiceAnswers` | src/transport.rs:111-117 | a listed service answers exactly the target with its own normal form |
| `Transports.ServiceStringAnswers` | src/transport.rs:16-51 | whatever space stands around a service string and its id, it answers exactly the normal form of what follows the id |
| `Transports.ObjectAnswersIff` | src/transport.rs:111-141 | which targets a service given as an object answers, and with which of its fields |
| `Transports.ResolvesIff` | src/transport.rs:92-109 | a single service is asked itself, of a list the first that answers |
| `Transports.BareIdIsFound` | src/transport.rs:154-161 | an endpoint id alone is accepted, with space around it |
| `Transports.ResolvesListed` | src/transport.rs:92-109 | resolving against an endpoint's list gives its id exactly when the normalized, non-blank target is listed |
| `Endpoints.IrohEndpoint.constructor` | src/iroh/endpoint.rs:136-183 | no services, no router |
| `Endpoints.IrohEndpoint.StartRouter` | src/iroh/endpoint.rs:490-509 | a router with one handler per listed protocol that has an inbox, unless one is running |
| `Endpoints.IrohEndpoint.ReloadRouterIfRunning` | src/iroh/endpoint.rs:528-537 | a running router gets the present table |
| `Endpoints.IrohEndpoint.Service` | src/iroh/endpoint.rs:717-734 | returns the inbox the protocol has, or a fresh empty one; list, inboxes and running router keep agreeing |
| `Endpoints.IrohEndpoint.RemoveService` | src/iroh/endpoint.rs:516-526 | removes the protocol everywhere, or nothing and returns false |
| `Endpoints.IrohEndpoint.ResolvesToItself` | src/iroh/endpoint.rs:736-742 | resolving against the endpoint's own list succeeds for exactly the non-blank protocols its running router serves |
| `Endpoints.RegistryFollowsLastOperation` | src/iroh/endpoint.rs:511-734 | after any run the list has no repeats and holds exactly the protocols whose last operation registered them |
| `Endpoints.ResolvesExactlyRegistered` | src/transport.rs:92-169 | after any run a target resolves, to the lower-case id, exactly when it is not blank and was last registered |
| `KeyNames.SanitizeKeyPart` | src/ipfs/publish.rs:56-85 | the loop with its flag, and the popping of separators, compute the one-pass look-ahead form |
| `KeyNames.PopsAreLookahead` | src/ipfs/publish.rs:56-78 | pushing separators and popping them afterwards writes one exactly where a letter or digit still follows |
| `KeyNames.SanitizedWellFormed` | src/ipfs/publish.rs:56-85 | whatever the bytes, the result is a well-formed name |
| `KeyNames.SanitizedIsFixpoint` | src/ipfs/publish.rs:56-85 | the result is non-empty, over [a-z0-9_-], starts and ends alphanumeric, has no two adjacent separators; the input is left alone exactly when it is such a name |
| `KeyNames.LettersKept` | src/ipfs/publish.rs:60-85 | if there is any letter or digit, none is lost, added, moved or changed but for its case; otherwise the result is "unknown" |
| `KeyNames.GapBetweenWords` | src/ipfs/publish.rs:56-85 | a gap between two words becomes one separator: its first byte if that is - or _, else - |
| `KeyNames.TrailingGap` | src/ipfs/publish.rs:75-78 | a gap after the last word leaves no trace |
| `KeyNames.LeadingGap` | src/ipfs/publish.rs:56-74 | nor does one before the first |
| `KeyNames.KeyNameSpells` | src/ipfs/publish.rs:103-116 | a key name spells its prefix, the letters of its parts and the short hash |
| `KeyNames.KeyNameIsSafe` | src/ipfs/publish.rs:103-116 | key names are well formed, are never in-flight names, and differ when the hashes do |
| `KeyNames.KeyNamesAreManageable` | src/ipfs/publish.rs:508-520 | publishers that pin under key names meet the assumption of the pin replacement protocol |
| `Passphrases.GeneratePassphrase` | src/config/secrets.rs:343-361 | the images of the first 43 bytes below 248, wherever the 64-byte refills fall |
| `Passphrases.CharacterSet` | src/config/secrets.rs:344-355 | the image of a byte is the entry of the character set at the byte modulo 62 |
| `Passphrases.FourSourcesEach` | src/config/secrets.rs:344-355 | each character has exactly four accepted preimages |
| `Passphrases.NoBias` | src/config/secrets.rs:343-361 | each passphrase of n characters comes from exactly 4^n strings of accepted bytes |
| `Backoff.RetryInMilliseconds` | src/kubo/kubo.rs:454-495 | stops at the first success or after `attempts` calls, one sleep between calls; sleep i is the capped i-th Fibonacci multiple of the initial delay's whole milliseconds |
| `Backoff.NextMillisecondSleep` | src/kubo/kubo.rs:478-483 | adding the last two delays in whole milliseconds and capping gives the next capped Fibonacci multiple |
| `Backoff.RetryExactly` | src/ipfs/publish.rs:598-624 | the same on exact durations |
| `Backoff.NextExactSleep` | src/ipfs/publish.rs:598-624 | adding the last two delays and capping gives the next capped Fibonacci multiple |
| `Backoff.CallsAreMinimal` | src/kubo/kubo.rs:454-486 | exactly min(first success, attempts) calls, and success exactly when the first success is within the attempts |
| `Backoff.TotalWait` | src/kubo/kubo.rs:163-198 | with n sleeps the total wait is at most Fib(n + 2) - 1 initial delays, and at most one initial delay and n - 1 caps |

## Left out

- HTTP, QUIC, streams, timeouts, the filesystem, logging and the command line: only their success or failure appears, as a nondeterministic step or an outcome parameter.
- Cryptography, CBOR, base64, multibase, CID parsing and RFC 3339: functions of `Formats.Suite` under stated laws. Signatures are perfect (only the signed message verifies), and message bytes are assumed not to decode as an envelope.
- Content bytes: a message's content is opaque, so its codec tag, and the fallback that returns the raw bytes for an empty payload, are not modelled.
- Concurrency in classes: the interleavings of scheduler, publishers and connection tasks are step machines on values; the methods beside them show each operation uninterrupted.
- Several Kubo nodes or remote services at once: one node's pins and one service's records are in view; requests for others share the scheduler and the worker, and their passes answer anything. A node is recognized by one URL. A service keeps one record for a CID and name.
- PinProtocol.EndState: a batch that failed a call and asks for no more, a refused schedule and a publication without overwrite count the name as lost until its next accepted request. The name must be guarded: its CIDs are published under no other name, of which `PublishRuns.SharedCidLeavesOneEmpty` shows the need, and no published name is its in-flight name.
- RecordProtocol.EndState: the same, and the service records the CIDs of guarded names under no unrelated name; RemotePass says what becomes of such records.
- LostCopies.FreshCopyCanVanishIff: about guarded names. A rival with a pass on another node or service counts as able to run again for as long as that pass may ask for more.
- Quiescence.StepsAreBounded: the reruns that passes elsewhere ask for are counted, not bounded; what those nodes and services hold is not in view.
- VanishingRuns.FreshPinCanVanish: one run; the exact condition is `LostCopies.FreshCopyCanVanishIff`.
- ConnectionCache.OneDialerPerKey: `open` (src/iroh/endpoint.rs:204-221) dials without lock or cache and is not modelled; this and the one-connection theorem are about the two cached entry points.
- Delivery.DeliveredAtMostOnce: assumes that no sum of the freshness check exceeds u64; the check itself wraps, as in a release build.
- Delivery.InboundSecurity.Decode: reads the clock once for decryption and verification, and three times in the replay guard.
- Delivery.Outbox.Send: the loopback wire, which hands the payload to the local inbox, is not modelled beyond the choice of the raw form. A transport error may or may not have carried the payload.
- Endpoints.IrohEndpoint.StartRouter: the router is its handler table; spawning and aborting accept loops is I/O. Closing an endpoint is not modelled.
- Inbox (src/inbox.rs): a shared handle on one queue, here a reference to the queue object itself.
- Passphrases.GeneratePassphrase: asks for a stream with 43 acceptable bytes, without which the loop does not end.
- Backoff.RetryInMilliseconds: outcomes are a function of the attempt number; the error texts, and the failure to build an HTTP client before the first attempt, are not modelled.
- Resolving inbox endpoints without a protocol, the wasm variants, ACL lookup, configuration merging, bundle encryption, response parsing and error texts: little state and few branches that depend on each other.
- Mutex poisoning, worker panics and process shutdown.
