# Javelin: the boundary between the mail GUI and its daemon

Javelin is a mail client split in two: a GUI process and a daemon that owns accounts, credentials and
the mail cache. This project models what crosses the boundary between them and what the daemon promises
behind it, and proves those promises for every input and every run.

- **The remote codec** (`Words`, `CodecTypes`, `CodecSpec`, `CodecRoundTrip`, `CodecCanonical`,
  `CodecReading`, `CodecTheorems`, `Codec`, `CodecWire`). A universe of type descriptors and values; a
  relation that says which bytes a value may be written as, a function that reads bytes; the writer and the
  reader as classes with a payload, a position and a first error, proved against both; and the bytes of
  every form written out.
- **The remote-call protocol** (`RemoteClient`, `RemoteWorld`, `RemoteSafety`, `RemoteProgress`,
  `RemoteReplay`, `RemoteTheorems`, `RemoteStranding`, `RemoteAnswers`, `RemoteRetry`). The client that resubmits calls over lost
  connections, as a class; around it a world of steps: session, first-in first-out wire, daemons that come
  and go, and the replay table each of them keeps. Replies carry arbitrary content, timers fire in any
  order, frames may be lost.
- **The session bootstrap** (`Session`): hello, settings with the cache open, activation, with parking.
- **The daemon** (`DaemonGui`, `Credentials`, `CredentialTheorems`, `CredentialUpdates`,
  `RefreshCompletion`, `RefreshRuns`): activation routes, the relaunch guard, the cache-suspend handshake,
  the credential transaction with rollback, and the OAuth refresh as compare-and-swap.
- **Dependency scopes, refresh tickets, file names** (`DependencyScope`, `RefreshTickets`, `FileNaming`,
  `FileNamingParts`, `SaveNaming`, `SaveNamingDots`, `SaveNamingLaws`).
- **The translation-model manifest** (`ManifestSpec`, `ManifestTheorems`, `ManifestTies`,
  `ManifestGenerator`, `ManifestExactly`).

A class mirrors each object the source updates in place; each of its methods is proved equal to a
function of the old state, and the lemmas are about those functions and the runs they make up. Beside the
laws each operation also has its effect stated outright, field by field and with its constants, without
naming the function that specifies it.

## What holds, and where it ends

- Over every run a command is executed at most once more than its daemon's replay table forgets it after it
  ran: by trimming its entry, or by releasing the result of a repeatable command. So in a run without such
  steps no command is executed twice. The table forgets only commands that are repeatable or whose result
  has no encoding. Both kinds are real: a result that cannot be encoded leaves a rejection in the table,
  which is trimmed after its lifetime, so that a resubmission runs the command again.
- In a ready session a pending call that is neither in flight, nor queued for resubmission, nor accepted
  on this connection has nothing to wake it. It is left so exactly when the run stranded it and no
  recovery has ended since. Two events strand a call: a greeting outside recovery, which reports `ready`
  but not `recoveryFinished`, while the call is idle; and an acceptance of a submission made on an earlier
  connection. A stop followed by a start makes a greeting of the first kind again. In a run without such
  greetings while calls are pending and without such acceptances no wake-up is lost.
- A result, a rejection or a wrong acceptance that reaches a pending call ends it for good: its promise is
  resolved once and it is never submitted again. Its acknowledgement stays owed until the daemon answers it.
- A ready session holds the reply of the last greeting on its connection, and a reconnection that finishes
  with another cache than it began with has suspended and resumed the barrier in between.
- The daemon barrier is suspended exactly while a suspension is acknowledged, or after one whose resume
  failed. Only the second half needs the resumes to succeed.
- A rejected settings update restores the credential store and keeps the accounts of the snapshot, except
  when everything succeeds until the flags of the new snapshot cannot be refreshed. Then the requested
  accounts stay, with flags that tell what had been written, up to the first account that cannot be read;
  such a flag can claim credentials the store does not have.
- An account comes to need a new sign-in exactly when a grant is refused while the captured token is still
  current and the snapshot takes the change in; a passing failure changes nothing. A renewal commits exactly
  when nothing it was started with has changed and every store does its part. If only the flags cannot be
  refreshed, the tokens are rolled back while the snapshot keeps their new scope and expiry.
- `collisionMailSaveFileName` gives different names for different discriminators without any proviso,
  even when the extension is shortened or the marker alone exceeds the budget.
- A cleaned component of a file name starts with a dot exactly when a space and another dot follow the
  leading dots of the text, and ends with one exactly when the cut at 80 units leaves one. With a neat
  fallback, as every caller has, a second cleaning changes the result exactly in these two cases. The
  fallback is used exactly for texts of dots and white space.
- The manifest is stable when the highest complete candidates of each direction carry one version text.
  With texts such as `3.1` and `3.01`, which have the same numbers, it depends on the iteration order of a
  set: generation is determined exactly when there is no such tie, or no order of visiting can succeed.
- A GUI is not launched twice without a completed session in between, unless the daemon is stopped.
- A refresh ticket is accepted exactly when the number of generations since it was issued is a multiple
  of 2^64, besides the conditions on scope and epochs.

## Assumptions

- Command ids, credential handles and daemon instance ids are fresh. One daemon lives at a time.
- The daemon reads what is left of an old connection before it accepts a new one, and the GUI handles the
  loss of a connection before it makes another.
- A terminal event never names an immediate call that is still under way, because such a call returns
  before the event loop runs again.
- A failed write to the credential store changes nothing, and the writes and removals of a rollback
  succeed. The daemon is the only writer of its settings.
- An event the endpoint cannot carry closes the connection, which is a further step of the run.

## Model

| member | source | states |
|---|---|---|
| Codec.Writer.Fail | src/app/RemoteCodec.h:182-187 | a write that fails records an error, and the first one is kept |
| Codec.Writer.RawBytes | src/app/RemoteCodec.h:167-173 | byte strings above 64 MiB are refused with nothing written; others are a 32-bit length and the data |
| Codec.Writer.Count | src/app/RemoteCodec.h:175-180 | more than 1,000,000 items are refused with nothing written |
| Codec.Writer.Write | src/app/RemoteCodec.h:399-518 | succeeds exactly within the limits, and then appends an encoding of the value; otherwise an error is recorded |
| Codec.Writer.WriteItems | src/app/RemoteCodec.h:426-445 | appends the encodings of the items in order, exactly when all are within the limits |
| Codec.Writer.WriteEntries | src/app/RemoteCodec.h:446-467 | appends the entries in whatever order they are visited, each once |
| Codec.Writer.WriteFields | src/app/RemoteCodec.h:325-335 | appends name and value of every field in declaration order |
| Codec.Writer.Finish | src/app/RemoteCodec.h:189-197 | the payload, unless an error was recorded or it exceeds 64 MiB |
| Words.BigEndianDigit | src/app/RemoteCodec.h:153 | every word is written with its most significant byte first: byte i of n is n / 256^(width-1-i) modulo 256 |
| CodecWire.TextWritten | src/app/RemoteCodec.h:167-173 | a string of at most 64 MiB is its length in four bytes and the data, and nothing else |
| CodecWire.FlagsWritten | src/app/RemoteCodec.h:485-490 | a null array is four bytes 255, a boolean the byte 1 or 0, and monostate nothing |
| CodecWire.SignedWritten | src/app/RemoteCodec.h:491-494 | eight bytes in two's complement, whatever the width of the type |
| CodecWire.UnsignedWritten | src/app/RemoteCodec.h:495-498 | eight bytes, whatever the width of the type |
| CodecWire.OptionalWritten | src/app/RemoteCodec.h:416-420 | the byte 0, or the byte 1 and the value |
| CodecWire.VariantWritten | src/app/RemoteCodec.h:421-427 | the index in four bytes and the chosen alternative |
| CodecWire.AggregateWritten | src/app/RemoteCodec.h:325-335 | the version 1 in two bytes, the number of fields in four, then each name and value in declaration order |
| CodecWire.TextInFull | src/app/RemoteCodec.h:399-411 | the text "A" is 0, 0, 0, 1, 65 |
| Codec.Reader.constructor | src/app/RemoteCodec.h:217-224 | reading starts at the first byte, already failed when the payload exceeds 64 MiB |
| Codec.Reader.Fail | src/app/RemoteCodec.h:258-263 | a read that fails records an error, and the first one is kept |
| Codec.Reader.RawBytes | src/app/RemoteCodec.h:237-245 | reads a length and its data, a null string for 0xFFFFFFFF, and refuses more than 64 MiB |
| Codec.Reader.Count | src/app/RemoteCodec.h:247-256 | reads a 32-bit count and refuses more than 1,000,000 |
| Codec.Reader.Read | src/app/RemoteCodec.h:520-702 | returns the parsed value and advances past it, or fails with the parser's error recorded first |
| Codec.Reader.ReadVariant | src/app/RemoteCodec.h:290-311 | reads the alternative named by the index, and refuses an index without one |
| Codec.Reader.ReadEntries | src/app/RemoteCodec.h:587-617 | keeps the first value of a repeated key |
| Codec.Reader.ReadFields | src/app/RemoteCodec.h:368-396 | fills the record in whatever order the fields arrive, refusing unknown and repeated names |
| Codec.Reader.Finish | src/app/RemoteCodec.h:265-273 | reports the first error, or trailing data when bytes are left |
| Words.FirstByteWeighsMost | src/app/RemoteCodec.h:221 | the first byte read weighs 256^(width-1) |
| CodecWire.TextAccepted | src/app/RemoteCodec.h:527-534 | which strings are accepted, byte by byte, and which error the others give; a null string is empty |
| CodecWire.ByteArrayAccepted | src/app/RemoteCodec.h:535-538 | the same for arrays, where null stays null |
| CodecWire.BoolAccepted | src/app/RemoteCodec.h:643-650 | one byte, 0 or 1, and an error for any other |
| CodecWire.SignedAccepted | src/app/RemoteCodec.h:651-662 | eight bytes in two's complement within the range of the type |
| CodecWire.UnsignedAccepted | src/app/RemoteCodec.h:663-673 | eight bytes within the range of the type |
| CodecWire.OptionalAccepted | src/app/RemoteCodec.h:539-554 | a byte other than 0 announces a value |
| CodecWire.VariantAccepted | src/app/RemoteCodec.h:555-561 | four bytes name the alternative that follows; an unknown one is an error |
| CodecWire.VectorAccepted | src/app/RemoteCodec.h:562-577 | a count of at most 1,000,000 in four bytes and exactly as many items, in order |
| CodecWire.FixedAccepted | src/app/RemoteCodec.h:578-626 | arrays and tuples are their items in order and nothing else |
| CodecWire.MapAccepted | src/app/RemoteCodec.h:587-617 | a count and as many pairs, of which the first with a key is kept |
| CodecWire.PayloadAccepted | src/app/RemoteCodec.h:713-727 | at most 64 MiB, one value and nothing after it, and the error of every other payload |
| CodecWire.VersionedAccepted | src/app/RemoteCodec.h:743-756 | eight bytes of version and then the values; another version is reported only once everything has been read |
| Codec.Encode | src/app/RemoteCodec.h:705-711 | succeeds exactly when every collection, every byte string and the whole payload are within the limits |
| Codec.Decode | src/app/RemoteCodec.h:713-727 | returns the parsed tuple when the whole payload was consumed, and the first error otherwise |
| Codec.EncodeVersioned | src/app/RemoteCodec.h:737-741 | what it produces is decoded to the same values by its own version and refused by every other |
| Codec.DecodeVersioned | src/app/RemoteCodec.h:743-756 | returns well-typed values, and only for the version the payload names |
| Codec.VersionChecked | src/app/RemoteCodec.h:737-756 | an encoding of one version decodes under that version and fails under every other |
| CodecRoundTrip.ParseEncoded | src/app/RemoteCodec.h:399-702 | self-delimiting: reading an encoding followed by anything yields the value and leaves exactly the rest |
| CodecRoundTrip.ReadAggregateOrdered | src/app/RemoteCodec.h:325-397 | the fields of a record written in any order read back as the record |
| CodecCanonical.EncodedSize | src/app/RemoteCodec.h:399-518 | every encoding of a value has the same length, whatever order entries were visited in |
| CodecCanonical.Encodable | src/app/RemoteCodec.h:399-518 | every value within the limits has an encoding |
| CodecReading.ParseSound | src/app/RemoteCodec.h:520-702 | what is read has its type, is within the limits, and no encoding of it is longer than what was consumed |
| CodecTheorems.RoundTrip | src/app/RemoteCodec.h:399-727 | every encoding within 64 MiB decodes to the value it came from |
| CodecTheorems.EncodingInjective | src/app/RemoteCodec.h:399-518 | two values with a common encoding are equal |
| CodecTheorems.CanonicalReencoding | src/app/RemoteCodec.h:267-273 | every payload that decodes has a re-encoding, which is no longer and decodes to the same value |
| CodecTheorems.ParseExtends | src/app/RemoteCodec.h:520-702 | reading looks only at the bytes it consumes |
| CodecTheorems.TrailingDataRejected | src/app/RemoteCodec.h:265-273 | a payload that decodes is rejected once any suffix is appended |
| CodecTheorems.AggregateAcceptance | src/app/RemoteCodec.h:356-397 | an aggregate is accepted exactly when its fields are each present once, in some order |
| CodecTheorems.NeverMissing | src/app/RemoteCodec.h:391-395 | by pigeonhole the check for a missing field never fires, at any depth |
| RemoteClient.RemoteActionClient.SubmitPendingCall | src/client/RemoteActionClient.cpp:124-147 | submits an idle call of a ready session to the daemon it is pinned to, pins it if it was not, and fails it if the daemon changed |
| RemoteClient.RemoteActionClient.InvokeCall | src/client/RemoteActionClient.cpp:106-122 | registers the call with the current daemon and submits it |
| RemoteClient.RemoteActionClient.HandleReply | src/client/RemoteActionClient.cpp:151-228 | ends the flight; a lost transport queues a resubmission while ready, a result or a rejection resolves the call, an acceptance leaves it pending |
| RemoteClient.FinalReply | src/client/RemoteActionClient.cpp:183-206 | a result, a rejection other than a lost transport, and an acceptance of another operation remove the call, resolve it once, and owe and queue its acknowledgement |
| RemoteClient.PassingReply | src/client/RemoteActionClient.cpp:151-224 | a lost transport and the acceptance of this command keep the call; a resubmission is queued for the former in a ready session only, and a terminal timeout for the latter once |
| RemoteClient.RemoteActionClient.RetryPending | src/client/RemoteActionClient.cpp:233-251 | submits every pending call and then every pending acknowledgement, each once, in some order |
| RemoteRetry.RetryExactly | src/client/RemoteActionClient.cpp:233-251 | in a ready session every idle call goes out once, but a call of another daemon is given up, and every owed acknowledgement not under way goes out once |
| RemoteRetry.FramesOnlyWhenReady | src/client/GuiDaemonSession.cpp:354-357 | frames are handed only to a session that is connected, greeted and not recovering |
| RemoteClient.RemoteActionClient.ScheduleAcknowledgement | src/client/RemoteActionClient.cpp:253-259 | the acknowledgement is remembered and queued |
| RemoteClient.RemoteActionClient.SendAcknowledgement | src/client/RemoteActionClient.cpp:261-277 | an acknowledgement is sent when ready, still owed, and not already in flight |
| RemoteClient.RemoteActionClient.HandleAckReply | src/client/RemoteActionClient.cpp:278-296 | it stays owed only after a lost transport or a busy daemon |
| RemoteClient.RemoteActionClient.Complete | src/client/RemoteActionClient.cpp:302-341 | acknowledges and, if the call is pending, resolves it and forgets it |
| RemoteClient.RemoteActionClient.FailAllCalls | src/client/RemoteActionClient.cpp:343-363 | resolves every pending call and forgets every acknowledgement |
| RemoteClient.RemoteActionClient.InvokeImmediate | src/client/RemoteActionClient.cpp:43-104 | sends the command at most twice, the second time only to the daemon asked first; acknowledges every final answer |
| RemoteWorld.TakeRetry | src/client/RemoteActionClient.cpp:233-251 | a retry sends its submissions and then its acknowledgements, one after the other |
| RemoteSafety.Submitting | src/client/RemoteActionClient.cpp:124-147 | submitting a call keeps the protocol's invariant |
| RemoteSafety.TableStepSafe | src/daemon/actions/DaemonRemoteActionDispatcher.cpp:351-540 | finishing, expiring and trimming entries keeps executed commands remembered, or counts them as forgotten |
| RemoteSafety.StepSafe | src/client/RemoteActionClient.cpp:43-363 | every step of client, session, wire and daemon keeps the invariant, and with it executions within one of forgettings |
| RemoteReplay.ReplayStep | src/daemon/actions/DaemonRemoteActionDispatcher.cpp:351-540 | every step keeps that only commands that are repeatable or whose result has no encoding are forgotten after they ran |
| RemoteReplay.SubmissionServed | src/daemon/actions/DaemonRemoteActionDispatcher.cpp:151-235 | a submission runs exactly when its key is unknown or its repeatable result was released, and leaves the entry its outcome asks for |
| RemoteReplay.EntryClosed | src/daemon/actions/DaemonRemoteActionDispatcher.cpp:131-149 | an acknowledgement removes a finished entry and nothing else |
| RemoteReplay.TableExactly | src/daemon/actions/DaemonRemoteActionDispatcher.cpp:351-540 | what the end of an operation, a trimming and the release of a result leave in the table, and that a daemon that dies takes table and wire along |
| RemoteReplay.TrimsExactly | src/daemon/actions/DaemonRemoteActionDispatcher.cpp:458-496 | an entry may be trimmed exactly when it is finished and its command is repeatable or was rejected |
| RemoteProgress.RetriedInFlight | src/client/RemoteActionClient.cpp:233-243 | every call visited by a retry is in flight or resolved |
| RemoteProgress.LedgerStep | src/client/RemoteActionClient.cpp:106-363 | every step keeps the ledger of promises and outstanding submissions |
| RemoteProgress.AwakeStep | src/client/RemoteActionClient.cpp:106-251 | every step keeps the ready session's idle calls equal to the stranded ones |
| RemoteTheorems.AtMostOnce | src/client/RemoteActionClient.cpp:43-341 | over every run a command is executed at most once more than the replay table forgets it after it ran, by trimming it or releasing its result to run again; only commands that are repeatable or whose result has no encoding are forgotten so |
| RemoteTheorems.UnencodableRunsTwice | src/daemon/actions/DaemonRemoteActionDispatcher.cpp:387-418 | a run in which a command without an encodable result is executed twice |
| RemoteTheorems.RepeatableRunsTwice | src/daemon/actions/DaemonRemoteActionDispatcher.cpp:168-190 | a run in which a repeatable command is executed twice |
| RemoteTheorems.PinnedToOneDaemon | src/client/RemoteActionClient.cpp:130-143 | a submission travels only to the daemon its command was first sent to |
| RemoteTheorems.PinNeverMoves | src/client/RemoteActionClient.cpp:116-143 | over any run a command is never moved to another daemon |
| RemoteTheorems.SilentAfterAcknowledgement | src/client/RemoteActionClient.cpp:253-341 | after a command's acknowledgement it follows neither on the wire nor from the client |
| RemoteTheorems.ResolvedOnce | src/client/RemoteActionClient.cpp:302-363 | each call is pending or resolved exactly once, and nothing else is resolved |
| RemoteAnswers.AnsweredForGood | src/client/RemoteActionClient.cpp:151-341 | over every run a call that got a final reply is resolved exactly once and never pending again |
| RemoteAnswers.ImmediateEnds | src/client/RemoteActionClient.cpp:43-104 | a lost transport makes an immediate call reconnect once if it knew its daemon; any other reply ends it, acknowledged unless it is an acceptance |
| RemoteAnswers.TimeoutEnds | src/client/RemoteActionClient.cpp:207-224 | the terminal timeout ends a pending call |
| RemoteAnswers.OwedUntilAnswered | src/client/RemoteActionClient.cpp:253-300 | over every run an owed acknowledgement stays owed until it is answered or everything is shut down |
| RemoteTheorems.OneSubmissionOutstanding | src/client/RemoteActionClient.cpp:124-158 | a call has at most one submission outstanding, and its flag says whether it has |
| RemoteStranding.IdleExactlyWhenStranded | src/client/RemoteActionClient.cpp:124-251 | over every run a pending call of a ready session has nothing to wake it exactly when a greeting or an acceptance stranded it and no recovery has ended since |
| RemoteStranding.CalmRunsLoseNoWakeUp | src/client/RemoteActionClient.cpp:124-251 | over every run without greetings outside recovery while calls are pending and without late acceptances, a pending call of a ready session is in flight, queued or accepted here |
| RemoteStranding.IdleStays | src/client/RemoteActionClient.cpp:106-251 | no step but the end of a recovery wakes an idle call that stays pending |
| RemoteTheorems.RecoveryWakesAll | src/client/RemoteActionClient.cpp:233-251 | after a recovery every pending call is in flight |
| RemoteTheorems.EarlyCallStrands | src/client/GuiDaemonSession.cpp:668-675 | a run in which a call made before the first greeting stays idle in a ready session |
| RemoteTheorems.LateAcceptanceStrands | src/client/RemoteActionClient.cpp:151-212 | a run in which a late acceptance leaves a call idle in a ready session |
| Session.GuiDaemonSession.OnDaemonDisconnected | src/client/GuiDaemonSession.cpp:794-811 | a lost connection unparks the bootstrap and starts recovery |
| Session.GuiDaemonSession.ConnectAndHandshake | src/client/GuiDaemonSession.cpp:571-605 | connects or starts the daemon, then greets; a refusal closes the connection, slowness does not |
| Session.GuiDaemonSession.LoadSettingsAndCache | src/client/GuiDaemonSession.cpp:723-763 | succeeds only on an open connection, with settings read and the cache open |
| Session.GuiDaemonSession.ContinueBootstrap | src/client/GuiDaemonSession.cpp:607-676 | runs the stages from the given one; parks on a slow daemon; reopens the cache when it changed |
| Session.GuiDaemonSession.StartSession | src/client/GuiDaemonSession.cpp:178-196 | resumes the parked bootstrap, or begins the first one unless the session is ready |
| Session.GuiDaemonSession.ReconnectSession | src/client/GuiDaemonSession.cpp:329-341 | resumes the parked bootstrap, or begins one that remembers the old reply |
| Session.GuiDaemonSession.ResumePendingBootstrap | src/client/GuiDaemonSession.cpp:678-705 | only the late reply of the parked stage resumes the bootstrap |
| Session.GuiDaemonSession.StopSession | src/client/GuiDaemonSession.cpp:343-352 | forgets connection, reply, cache and parked bootstrap, and leaves recovery |
| Session.BootstrapInOrder | src/client/GuiDaemonSession.cpp:607-705 | every finished bootstrap had hello, settings and activation succeed in order on one uninterrupted connection |
| Session.ParkedIsNotReady | src/client/GuiDaemonSession.cpp:354-357 | a parked bootstrap means recovery, so the session is not ready, and what precedes its stage was achieved on this connection |
| Session.ReadyWasGreeted | src/client/GuiDaemonSession.cpp:354-357 | a ready session was greeted on the connection it has now |
| Session.ReadyReplyIsCurrent | src/client/GuiDaemonSession.cpp:590-605 | over every run the reply a ready session holds is that of the last greeting on its connection |
| Session.OtherCacheIsReopened | src/client/GuiDaemonSession.cpp:652-675 | over every run a reconnection that finishes with another cache than that of the reply it began with suspended and resumed the barrier |
| Session.ConnectExactly | src/client/GuiDaemonSession.cpp:571-588 | a connection is made, or the daemon launched when that is allowed, and every other case has its failure |
| Session.GreetExactly | src/client/GuiDaemonSession.cpp:589-605 | a granted hello stores its own reply; a slow one keeps the connection, any other closes it |
| Session.SettingsExactly | src/client/GuiDaemonSession.cpp:723-763 | which answers let the settings stage succeed, and the failure of each other |
| Session.ActivationExactly | src/client/GuiDaemonSession.cpp:638-675 | which answers let the activation stage succeed, and the failure of each other |
| Session.SucceedsExactly | src/client/GuiDaemonSession.cpp:607-676 | a bootstrap succeeds exactly when every stage from its own on does, and the barrier if the cache changed |
| Session.SuccessFinishes | src/client/GuiDaemonSession.cpp:607-676 | a bootstrap reports success exactly when it finishes, and is parked exactly when the daemon is slow and connected |
| DaemonGui.DaemonProcess.EnqueueActivation | src/daemon/DaemonProcess.cpp:335-352 | delivers to a ready GUI, else queues at most 64, dropping the oldest, and launches the GUI if none is connected |
| DaemonGui.DaemonProcess.FlushPendingActivations | src/daemon/DaemonProcess.cpp:1382-1392 | delivers every waiting route in order, to a connected ready GUI only |
| DaemonGui.DaemonProcess.HandleGuiReadyForActivation | src/daemon/DaemonProcess.cpp:758-771 | the first report of a connection flushes the queue; later ones are refused |
| DaemonGui.DaemonProcess.HandleGuiActivation | src/daemon/DaemonProcess.cpp:773-795 | delivers or queues for a connected GUI, and refuses without one |
| DaemonGui.DaemonProcess.LaunchGuiIfNeeded | src/daemon/DaemonProcess.cpp:1394-1414 | launches only with a route waiting, no GUI connected and no launch outstanding |
| DaemonGui.DaemonProcess.OnSocketConnectionClosed | src/daemon/DaemonProcess.cpp:1348-1380 | ends the suspension and suppresses a relaunch when the launched GUI had not become ready |
| DaemonGui.DaemonProcess.StopDaemon | src/daemon/DaemonProcess.cpp:278-323 | ends the suspension, drops what waits and forgets the GUI |
| DaemonGui.DaemonProcess.RequestCacheAccessSuspend | src/daemon/DaemonProcess.cpp:387-409 | accepted only from a ready daemon with a ready GUI and no suspension pending |
| DaemonGui.DaemonProcess.HandleCacheAccessSuspended | src/daemon/DaemonProcess.cpp:728-750 | suspends the barrier for the pending cache; a barrier that fails ends the request |
| DaemonGui.DaemonProcess.CompleteCacheAccessResume | src/daemon/DaemonProcess.cpp:411-430 | resumes an acknowledged suspension, which otherwise stays |
| DaemonGui.ActivationDelivery | src/daemon/DaemonProcess.cpp:335-352 | over every run, measured against the routes that the steps asked for: delivered then waiting routes are an ordered part of them, and so are dropped then waiting ones; none is lost or doubled, at most 64 wait, and none wait for a ready GUI |
| DaemonGui.AcceptsAsked | src/daemon/DaemonProcess.cpp:773-795 | an activation, and a second launch that answers true, accepts exactly its own route; no other step accepts any |
| DaemonGui.DeliveredAtOnce | src/daemon/DaemonProcess.cpp:335-352 | an accepted route is delivered at once exactly to a ready GUI; otherwise it waits last, behind at most 63 |
| DaemonGui.DropsOnlyTheOldest | src/daemon/DaemonProcess.cpp:343-349 | in every run a step other than a stop drops a route only when 64 wait, and then the oldest |
| DaemonGui.WaitingRoutesAreAwaited | src/daemon/DaemonProcess.cpp:343-351 | routes that wait without a GUI wait for a launch that is outstanding, scheduled, or was refused by the system |
| DaemonGui.CacheHandshake | src/daemon/DaemonProcess.cpp:387-430 | over every run the barrier is suspended exactly while acknowledged or stuck, acknowledged means pending, pending means a ready GUI, and each suspension ends by one resume |
| DaemonGui.FailedResumeSticks | src/daemon/DaemonProcess.cpp:1353-1365 | a run in which a failed resume leaves the barrier suspended with nothing pending |
| DaemonGui.NoRelaunchLoop | src/daemon/DaemonProcess.cpp:1348-1414 | between two launches with no stop in between a GUI session opened, became ready and closed |
| DaemonGui.StopForgetsTheGuard | src/daemon/DaemonProcess.cpp:278-323 | a run of launch, stop, two starts, of which the first is refused, and launch, with no session in between |
| Credentials.DaemonProcess.PrunePendingCredentials | src/daemon/DaemonProcess.cpp:844-855 | keeps exactly the sign-ins of the last ten minutes |
| Credentials.DaemonProcess.StageAuthenticationResult | src/daemon/DaemonProcess.cpp:857-882 | a successful sign-in with an access token is kept under its handle, any other is not |
| Credentials.DaemonProcess.PrepareChanges | src/daemon/DaemonProcess.cpp:588-627 | fails exactly on unreadable credentials or an expired handle; otherwise every change remembers what was stored before |
| Credentials.DaemonProcess.RollbackCredentials | src/daemon/DaemonProcess.cpp:635-645 | undoing the writes in reverse restores the store at entry, repeated connections included |
| Credentials.DaemonProcess.StoreChanges | src/daemon/DaemonProcess.cpp:646-659 | either every replacement is stored in order or the store is unchanged |
| Credentials.DaemonProcess.RefreshCredentialFlags | src/daemon/DaemonProcess.cpp:926-944 | the flags are made true up to the first account that cannot be read, and the accounts after it stay |
| Credentials.DaemonProcess.RemoveCredentials | src/daemon/DaemonProcess.cpp:702-718 | exactly the accounts that are gone lose their credentials |
| Credentials.DaemonProcess.HandleUpdateSettings | src/daemon/DaemonProcess.cpp:569-726 | the whole new state on success and on every rejection; a rejected update leaves the credential store as it was, and after success the flags tell the store |
| Credentials.DaemonProcess.StartOAuthRefresh | src/daemon/DaemonProcess.cpp:1044-1088 | captures the tokens and the endpoint of an account that may be refreshed |
| Credentials.DaemonProcess.PerformOAuthRefresh | src/daemon/DaemonProcess.cpp:1090-1181 | commits, is superseded or is discarded as the captured token decides; a refused update restores the credentials |
| CredentialTheorems.CommittedCredentials | src/daemon/DaemonProcess.cpp:584-718 | after success each connection holds the last sign-in named for it or what it held, removed accounts nothing |
| CredentialTheorems.SignInsAreSpent | src/daemon/DaemonProcess.cpp:601-612 | a sign-in is at most ten minutes old when used, and used once |
| CredentialTheorems.RejectedSnapshot | src/daemon/DaemonProcess.cpp:676-682 | a rejection keeps store and accounts, unless it is the last one: then the requested accounts stay in every field but handle and flag, with flags of what had been written up to the first unreadable one |
| CredentialTheorems.RejectedSnapshotMisleads | src/daemon/DaemonProcess.cpp:676-682 | an update whose last rejection leaves a flag that disagrees with the store |
| CredentialUpdates.UpdatesExactly | src/daemon/DaemonProcess.cpp:569-682 | an update succeeds exactly when the daemon is ready, reads every account before and after, knows every sign-in of the last ten minutes, and no write fails |
| CredentialUpdates.UpdatedAccounts | src/daemon/DaemonProcess.cpp:584-682 | on success snapshot and repository hold the requested accounts, equal in every field but the handle and the flag, which is told from the store |
| CredentialUpdates.StagedAfterwards | src/daemon/DaemonProcess.cpp:584-687 | what stays staged: sign-ins of the last ten minutes without those a success has used |
| CredentialUpdates.SavedAfterwards | src/daemon/DaemonProcess.cpp:661-682 | the repository keeps the accounts as soon as it accepts them, even if the update is rejected afterwards |
| CredentialUpdates.ReloadsExactly | src/daemon/DaemonProcess.cpp:661-682 | an update without accounts changes neither repository nor staged sign-ins, and takes the saved accounts into the snapshot |
| CredentialUpdates.ReloadRemoves | src/daemon/DaemonProcess.cpp:702-718 | and then removes the credentials of accounts that are gone, and no others |
| CredentialTheorems.QuietUpdate | src/daemon/DaemonProcess.cpp:1138-1165 | an update of the same accounts without sign-ins touches no credentials |
| CredentialTheorems.RefreshIsCompareAndSwap | src/daemon/DaemonProcess.cpp:1103-1181 | a completion changes credentials or the need to sign in again only if the token is still the captured one, and only of its connection |
| RefreshCompletion.BeginsExactly | src/daemon/DaemonProcess.cpp:1044-1088 | a refresh begins exactly for a refreshable account whose token ends within five minutes or by force, and captures what was stored |
| RefreshCompletion.SupersededExactly | src/daemon/DaemonProcess.cpp:1107-1115 | a completion is superseded exactly when another access token is stored, and then changes nothing |
| RefreshCompletion.PassingFailure | src/daemon/DaemonProcess.cpp:1152-1178 | a passing failure and a reply for an account that is gone change nothing |
| RefreshCompletion.RefusedGrant | src/daemon/DaemonProcess.cpp:1156-1172 | a refused grant with a current token marks the first account of the connection and counts its revision on, and changes nothing else but flags |
| RefreshCompletion.CommitsExactly | src/daemon/DaemonProcess.cpp:1116-1145 | a renewal commits exactly when tokens, endpoint, client and resource are as captured, the write succeeds and so does the update |
| RefreshCompletion.CommittedRenewal | src/daemon/DaemonProcess.cpp:1120-1145 | the new tokens, scope and expiry, no demand to sign in, the flag, the next revision, and everything else as it was |
| RefreshCompletion.DiscardedRenewal | src/daemon/DaemonProcess.cpp:1116-1151 | a renewal that does not commit keeps the store; the account keeps the new scope and expiry exactly when the update was rejected last |
| RefreshCompletion.DemandsSignInExactly | src/daemon/DaemonProcess.cpp:1103-1173 | when an account comes to need a new sign-in, and when that demand is lifted |
| RefreshRuns.OneCommitPerToken | src/daemon/DaemonProcess.cpp:1044-1181 | over every interleaving, with fresh tokens, at most one refresh commits per starting token |
| RefreshRuns.RetiredForGood | src/daemon/DaemonProcess.cpp:569-726 | a token a connection has lost never returns to it |
| DependencyScope.MailDependencyScope.AddMailbox | src/app/MailApplicationTypes.h:47-58 | ignores empty and known ids and everything once account-wide; the 65th id widens to the account |
| DependencyScope.MailDependencyScope.MergeWith | src/app/MailApplicationTypes.h:60-72 | adds the ids of the other scope, which may be the same object |
| DependencyScope.MergeRefinesJoin | src/app/MailApplicationTypes.h:60-72 | merging is union saturating above 64, and keeps ids distinct, nonempty and at most 64 |
| DependencyScope.MergeLaws | src/app/MailApplicationTypes.h:60-72 | up to list order merging is commutative, associative, idempotent and absorbing |
| DependencyScope.MergeCovers | src/app/MailApplicationTypes.h:60-72 | coverage is never lost, and widens exactly when both do not fit |
| DependencyScope.MergeAppends | src/app/MailApplicationTypes.h:47-72 | a merge that does not widen keeps what was listed in place, and neither scope was account-wide |
| DependencyScope.MergeExactly | src/app/MailApplicationTypes.h:47-72 | the first list, then what is new in the second in its order and once, or the whole account above 64 |
| RefreshTickets.RefreshGeneration.BeginRefresh | src/app/RefreshGeneration.h:24-27 | issues a ticket of the next generation |
| RefreshTickets.RefreshGeneration.ReplaceScope | src/app/RefreshGeneration.h:29-35 | opens a scope with no epoch installed and outdates every ticket |
| RefreshTickets.RefreshGeneration.CloseScope | src/app/RefreshGeneration.h:37-41 | closes the scope and outdates every ticket |
| RefreshTickets.RefreshGeneration.TryInstall | src/app/RefreshGeneration.h:43-56 | installs the epoch of an accepted ticket and changes nothing otherwise |
| RefreshTickets.AcceptedExactly | src/app/RefreshGeneration.h:43-48 | a ticket is accepted exactly when the generations since are a multiple of 2^64 and scope and epochs allow it |
| RefreshTickets.InstallsTheLatest | src/app/RefreshGeneration.h:43-56 | before the counter wraps an accepted ticket is the latest begun, with no close or replacement since |
| RefreshTickets.OutdatedForever | src/app/RefreshGeneration.h:29-48 | an outdated ticket stays rejected, even if a scope id repeats |
| RefreshTickets.EpochsNeverDecrease | src/app/RefreshGeneration.h:50-56 | the epochs installed within one scope never decrease |
| FileNaming.ChopLastUnicodeCodePoint | src/app/FileNameUtils.h:10-19 | removes the last code point whole |
| FileNaming.TruncateToBudget | src/app/FileNameUtils.h:32-37 | drops code points from the end until the rest fits |
| FileNaming.TruncateGeneratedFileName | src/app/FileNameUtils.h:24-51 | computes the generated name the lemmas below are about |
| FileNaming.CollisionMailSaveFileName | src/app/MailSaveNaming.h:54-79 | computes the collision name the lemmas below are about |
| FileNaming.TruncatedIsLongest | src/app/FileNameUtils.h:32-37 | the result is the longest prefix of whole code points that fits |
| FileNaming.GeneratedNameFits | src/app/FileNameUtils.h:24-51 | fits its budget, is not empty, and creates no lone surrogate |
| FileNaming.GeneratedNameKeeps | src/app/FileNameUtils.h:39-50 | keeps the whole extension when it fits, after the longest base that fits beside it |
| FileNamingParts.CodePointSizes | src/app/FileNameUtils.h:29 | the UTF-8 bytes of every code point, and one for a lone surrogate |
| FileNamingParts.ChopExactly | src/app/FileNameUtils.h:10-19 | a final surrogate pair goes whole, any other unit alone |
| FileNamingParts.BaseExactly | src/app/FileNameUtils.h:47 | the base goes up to the last dot of the name |
| FileNamingParts.ExtensionExactly | src/app/FileNameUtils.h:39-41 | the extension begins with the first dot of the name |
| FileNamingParts.GeneratedExactly | src/app/FileNameUtils.h:39-50 | the longest base that fits beside the extension, "file" when that is empty, and the extension unless it leaves no room |
| FileNaming.CollisionNameFits | src/app/MailSaveNaming.h:54-79 | fits whenever its marker does, and otherwise is the marker alone |
| FileNaming.CollisionNamesDiffer | src/app/MailSaveNaming.h:54-79 | different discriminators always give different names |
| FileNamingParts.DigitsExactly | src/app/MailSaveNaming.h:61 | the discriminator in decimal without a leading zero |
| FileNamingParts.CollisionExactly | src/app/MailSaveNaming.h:58-78 | the longest base that fits, or "file", then a dash, the discriminator, and the longest part of the extension that fits beside the mark |
| SaveNaming.SanitizeMailSaveComponent | src/app/MailSaveNaming.h:17-52 | computes the cleaned component the lemmas below are about |
| SaveNaming.SanitizedIsClean | src/app/MailSaveNaming.h:17-52 | no reserved or control character, at most 80 units, no white space at the ends, no new lone surrogate |
| SaveNamingLaws.NothingReserved | src/app/MailSaveNaming.h:26-27 | every unit the result cannot have, and every white space it cannot begin or end with, written out |
| SaveNamingLaws.NeatIsKept | src/app/MailSaveNaming.h:17-52 | a text of at most 80 units without reserved characters, outer dots and runs of white space is left alone |
| SaveNamingLaws.OuterSpaceIgnored | src/app/MailSaveNaming.h:20 | white space around a text makes no difference |
| SaveNamingLaws.RunBecomesDash | src/app/MailSaveNaming.h:23-35 | a run of reserved characters within a text counts for one dash |
| SaveNamingLaws.RunBecomesSpace | src/app/MailSaveNaming.h:36 | a run of white space within a text counts for one space |
| SaveNaming.LeadingDotSurvives | src/app/MailSaveNaming.h:36-51 | an input whose result has a leading dot, which cleaning again removes |
| SaveNamingDots.FallsBackExactly | src/app/MailSaveNaming.h:34-44 | the fallback is used exactly for a text that is dots and white space once trimmed |
| SaveNamingDots.DotsLeft | src/app/MailSaveNaming.h:17-52 | the result starts with a dot exactly when a space and a dot follow the leading dots, and ends with one exactly when the cut leaves one |
| SaveNamingDots.CleaningAgain | src/app/MailSaveNaming.h:17-52 | cleaning again changes nothing exactly when no dot is left at an end, or the text and the fallback are such that the fallback is given both times |
| SaveNamingDots.CleaningAgainWithNeatFallback | src/app/MailSaveNaming.h:17-52 | with a fallback that cleaning does not change, exactly when no dot is left at an end or the text is dots and white space |
| ManifestGenerator.GroupRecords | tools/update_translation_model_manifest.py:68-91 | groups eligible records by direction, version and architecture; fails exactly on an unknown file type |
| ManifestGenerator.CollectDirections | tools/update_translation_model_manifest.py:93-98 | lists every complete group of named languages under its direction |
| ManifestGenerator.SelectBest | tools/update_translation_model_manifest.py:100-114 | the highest version, and there the preferred architecture |
| ManifestGenerator.ChooseCandidates | tools/update_translation_model_manifest.py:68-128 | one best candidate for each direction in order, or failure on an unknown type or a repeated file |
| ManifestGenerator.ManifestFiles | tools/update_translation_model_manifest.py:131-167 | each file once in order of type, or failure exactly when a record is not valid |
| ManifestGenerator.BuildManifest | tools/update_translation_model_manifest.py:170-209 | generates what the relation allows; the guard against a repeated direction never fires |
| ManifestGenerator.BestExists | tools/update_translation_model_manifest.py:100-128 | every direction with a complete candidate has a best one |
| ManifestTheorems.BestIsUnique | tools/update_translation_model_manifest.py:100-128 | the choice is unique when the highest candidates of each direction have one version text |
| ManifestTies.UniqueExactlyWithoutTies | tools/update_translation_model_manifest.py:100-128 | and only then |
| ManifestTies.DistinctTextsNeverTie | tools/update_translation_model_manifest.py:72-128 | so it is when the eligible version texts of a direction have distinct numbers |
| ManifestTheorems.ManifestIsStable | tools/update_translation_model_manifest.py:68-209 | without ties permuting the records changes neither the manifest nor whether generation fails |
| ManifestTies.DeterminedExactly | tools/update_translation_model_manifest.py:68-209 | the outcome is independent of the order of visiting exactly when there are no ties, or every order fails |
| ManifestTies.TiedTexts | tools/update_translation_model_manifest.py:100-114 | records with the versions `3.1` and `3.01` for which it is not |
| ManifestTheorems.SelectsTheBest | tools/update_translation_model_manifest.py:100-128 | each direction with a complete candidate appears exactly once, at a maximal version, preferring `base-memory` there |
| ManifestExactly.VersionsExactly | tools/update_translation_model_manifest.py:28-73 | only digits with dots between them are a version |
| ManifestExactly.NumbersJoined | tools/update_translation_model_manifest.py:57-58 | a dot joins the numbers of what stands before and after it |
| ManifestExactly.NumberRead | tools/update_translation_model_manifest.py:57-58 | a run of digits is read in decimal |
| ManifestExactly.BelowExactly | tools/update_translation_model_manifest.py:102 | versions compare by the first number that differs, and one that goes on is higher |
| ManifestExactly.CandidateExactly | tools/update_translation_model_manifest.py:61-98 | a candidate has named languages, major version 3, a known architecture, a model, a lexicon, and one vocabulary or a pair |
| ManifestExactly.ValidExactly | tools/update_translation_model_manifest.py:131-151 | which records can be published |
| ManifestExactly.FileExactly | tools/update_translation_model_manifest.py:154-167 | every field of a file, from its record |
| ManifestExactly.EntryExactly | tools/update_translation_model_manifest.py:177-199 | every entry describes one candidate: its languages with hyphens and all of its records as files in order of type |
| ManifestExactly.RevisionExactly | tools/update_translation_model_manifest.py:171-174 | the revision given, or the latest of any record |
| ManifestExactly.SelectsExactly | tools/update_translation_model_manifest.py:100-128 | the choice of each direction, with the comparison of versions and the architectures written out |
| ManifestExactly.FailsExactly | tools/update_translation_model_manifest.py:68-174 | generation can fail exactly without any revision, on an unknown type of a supported record, or on a repeated or invalid record of a best candidate |
| ManifestExactly.RepeatedExactly | tools/update_translation_model_manifest.py:115-126 | a repeated file is two records of the candidate with one type |

## Left out

- Codec leaves that Qt streams itself (`QString`, `QDateTime`, URLs) and floating point: only their size in bytes would enter.
- Recursive C++ types: a descriptor is a finite tree. Durations, time points, enumerations and pairs are described by what is underneath.
- Failures of a Qt output stream, which writes to memory.
- Payload sizes and digests in the replay table: one id always carries one command here.
- The daemon's delivery of terminal events after an acceptance, and retry of an acknowledgement that stays owed until the next recovery.
- Replies are not tied to the daemon's state: the client is proved against any reply, the daemon against any client.
- Requests before the greeting, which the daemon's endpoint refuses: the model lets them run, which only adds runs.
- The session's runtime-directory check, which fails without closing a connection.
- Scopes of materialization, the log stream and the performance metrics.
- The single flight of refreshes: any number may be under way here, which only adds runs.
- Revocation requests for replaced credentials, and the rebuilding of the account runtime after an update.
- Settings other than accounts, and validation by the repository, which is one outcome here.
- The participants of a cache barrier: it is one flag, whose suspension and resumption succeed or fail.
- `suggestedMailSaveFileName`, which joins a date, two cleaned components and a digest.
- `startDaemon`: it launches the daemon and then starts or reconnects; a successful bootstrap has already left recovery.
- Names longer than 32767 units, where Qt's path indices wrap.
- ManifestGenerator.SelectBest: takes the first of the sorted versions, because every version listed has a candidate and the loop over versions stops there.
- Python integers above 4300 digits in a version, and records whose fields are not text.
- Sockets, lock files, process launching, D-Bus, tray, notifications and widgets.
