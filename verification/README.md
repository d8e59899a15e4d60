# VyomDesk relay data plane and server state machines, in Dafny

VyomDesk relays a browser to an agent on a remote machine: a terminal, a desktop
stream and a file browser share one tunnel through the server, and the server runs
a few small state machines beside it. This project models the parts whose
correctness depends on every interleaving, every history or every failing
operation, and proves what they promise.

`dafny verify dfyconfig.toml` checks everything.

| file | what it models |
|---|---|
| `Download.dfy`, `DownloadProofs.dfy`, `DownloadTheorems.dfy`, `DownloadDelivery.dfy` | channel 5 downloads: the agent's handlers and sender goroutines, the page, and the two ordered pipes between them, as a machine of atomic steps; its invariant; the theorems over whole runs; from the request to the saved file |
| `Upload.dfy` | channel 5 uploads: the agent's handlers over a disk, and the page's slicing |
| `FilesSession.dfy` | `filesSession` as an object updated in place, tied to the two models above |
| `TerminalInput.dfy`, `RelayChannel.dfy` | terminal input buffered until the shell is live, under all interleavings of reader, pump, timer and close; `relayChannel` as an object, with or without a shell |
| `RelayHub.dfy` | the hub's channel numbers, and who a late close hits |
| `AlertEngine.dfy`, `AlertProofs.dfy` | the alert service as an object, and its refinement of a declarative list of alerts, one evaluation at a time |
| `AlertOverlap.dfy` | one rule on one device when evaluations overlap at their awaits |
| `SlidingWindow.dfy` | the REST limiter against one that keeps every hit |
| `MetricsLimiter.dfy` | the fixed-window limiter of `metrics.push` and its true sliding bound |
| `TunnelFrame.dfy` | the 4-byte tunnel frame, the messages in it and what must fit |
| `Recording.dfy` | the `.vyomrec` writer and reader |
| `SelfUpdate.dfy` | the agent's update over a disk whose operations fail, and a machine of updates, crashes inside them and boots |
| `Sessions.dfy` | one-time relay tokens and their sweeper |
| `QuickSupport.dfy` | quick-support codes under concurrent redeems, revokes and deletions |
| `Desktop.dfy`, `Pixels.dfy` | the JPEG descent, the automatic scale, the capture loop; the pixel loop |
| `ModeQueries.dfy` | the browser terminal's scan for private-mode queries |
| `Bytes.dfy`, `Base64.dfy`, `Wrappers.dfy` | fixed-width integers in both byte orders; base64 of section 4 of RFC 4648; `Option` and `Result` |

## How the models are cut

Where goroutines, awaits or sockets interleave, a run is a sequence of steps and a
step is what the code does without giving way: a region under a lock, one handler
of `onInput` (which runs under the channel's lock), one database statement, one
message delivered. Everything proved about such a machine holds for every sequence
of enabled steps. Where the source has one object whose methods update its fields,
the model has a class whose methods are tied, field by field, to the function the
theorems are about. What the world decides (how many bytes a read returns, whether
a rename works, what the clock says, what a JPEG encodes to) is a parameter, so a
theorem holds for every answer it may give. SHA-256, JPEG encoding and argon2 are
such parameters.

## Where the code and its comments part

The models follow the code. Each of these is proved, with the exact condition under
which it happens, and with an input or a run that shows it.

- Terminal input is not always delivered in order: the reader can write between the
  flip of `ready` and the end of the flush (`TerminalInput.OrderKeptIffNoOvertaking`,
  `TerminalInput.OrderCanBreak`).
- A shell that starts after its channel was closed is never attached and never closed
  (`TerminalInput.LateShellIsNeverClosed`, `TerminalInput.ShellCanBeLate`).
- The pump and the reaper of a shell close by channel number: a late close hits a
  newer channel exactly when the number was reopened (`RelayHub.OwnCloseHits`,
  `RelayHub.LateCloseHitsNewer`).
- A payload towards the agent must stay within 65532 bytes, not 65535: the size check
  counts the header (`TunnelFrame.ServerRoundTrip`). A longer paste is dropped whole,
  and a shell's first output of more than 65535 bytes is cut
  (`TunnelFrame.IntroAndPasteArriveIff`).
- The metrics limiter lets through up to 23 pushes in a minute, although it is named
  for 12 per minute; 24 never happen (`MetricsLimiter.MinuteBound`,
  `MetricsLimiter.MinuteBoundIsReached`).
- A relay token "must be consumed within 60s", but consuming looks only at the 4 h
  cap. With the sweeper on time a token of 90 s is still accepted, none older
  (`Sessions.RedeemedIff`, `Sessions.NinetySeconds`, `Sessions.NinetyIsReached`).
- A quick-support code's TTL is looked at once, before the password: a slow redeem
  makes its session after the code expired (`QuickSupport.TtlNotLookedAtAgain`,
  `QuickSupport.LateSession`).
- The browser may ask for JPEG quality 10 to 19, but below 20 nothing is ever encoded
  and the session ends (`Desktop.UsableIff`, `Desktop.LowQualityEndsSession`,
  `Desktop.LowQualityIsReached`). A scale the browser sets can be overwritten by a
  capture already under way (`Desktop.ScaleOverwrittenIff`, `Desktop.StaleScaleWins`).
  The comment on `captureOnce` says unchanged frames are skipped; no comparison is
  made, and the model sends every frame.
- A failed rollback leaves the agent only at `exe.old`; a further update then deletes
  it before failing (`SelfUpdate.RetryKeepsCopyIff`, `SelfUpdate.TwoUpdatesCanLoseAgent`).
- An `upload-done` for another number drops the open upload and strands its temporary
  file; a failing rename can lose the file it was to replace
  (`Upload.WrongDoneStrandsUpload`, `Upload.UploadStranded`,
  `Upload.FailedDoneKeepsTarget`). An empty path is not refused: cleaned, it is ".".
- Reloading the alert rules forgets which alerts are open: they are never resolved
  (`AlertProofs.LoadOrphansOpenAlerts`, `AlertProofs.OpenAlertLeftBehind`).
- Alert evaluations are not awaited: two that overlap can open two rows for one breach
  and lose track of the first (`AlertOverlap.OrphanIff`,
  `AlertOverlap.TwoRowsForOneBreach`).
- A mode query is answered again by every later chunk that finds it among the last 64
  units (`ModeQueries.AnsweredOnceIff`, `ModeQueries.AnsweredTwice`).

## Model

| member | source | states |
|---|---|---|
| DownloadProofs.StepInv | agent/cmd/vyomlink/files.go:186-267 | every step of agent, page, pipes and senders keeps the invariant that ties window slots, messages in flight and page state together |
| DownloadTheorems.ReachableInv | agent/cmd/vyomlink/files.go:196-253 | the invariant holds in every state reachable from an open session |
| DownloadTheorems.ByteExact | web/src/pages/device/Files.tsx:81-90 | in every reachable state the page's parts followed by the chunks in flight are the first off bytes of the opened file, and the progress bar counts them |
| DownloadTheorems.SavedWhole | web/src/pages/device/Files.tsx:208-222 | whatever is handed to the user is, whole, the file of the one run with that number |
| DownloadTheorems.EndSavesFile | web/src/pages/device/Files.tsx:200-222 | handling download-end saves exactly the opened file, and a bar still on it stands at the announced size |
| DownloadTheorems.WindowConserved | agent/cmd/vyomlink/files.go:214-241 | a window never overfills; while the page wants the download its occupancy is slot held + chunks in flight + acks in flight |
| DownloadTheorems.AckFreesOwnSlot | agent/cmd/vyomlink/files.go:255-267 | an ack in flight for the addressed run always finds a slot to free, and no ack frees a slot of another run |
| DownloadTheorems.CancelClosedOnce | agent/cmd/vyomlink/files.go:87-105 | over any downloads, cancels, restarts and shutdown each cancel channel is closed at most once, and only the last run can be uncancelled |
| DownloadTheorems.InternalLighter | agent/cmd/vyomlink/files.go:222-252 | every delivery and every move of a sender strictly lowers a measure over requests, bytes left and messages in flight |
| DownloadTheorems.InternalRunBounded | agent/cmd/vyomlink/files.go:222-252 | with no request waiting, that measure bounds the number of steps left |
| DownloadTheorems.EveryScheduleEnds | agent/cmd/vyomlink/files.go:222-252 | no infinite schedule of deliveries and sender moves exists |
| DownloadTheorems.NeverStuck | agent/cmd/vyomlink/files.go:228-234 | as long as anything is in flight or a sender has not ended, some step can be taken: no deadlock on the window |
| DownloadTheorems.QuietMeansDone | agent/cmd/vyomlink/files.go:244-251 | when nothing can move, everything was delivered, every sender ended, and every uncancelled run that read its whole file has had it saved |
| DownloadDelivery.OpenedIsSaved | agent/cmd/vyomlink/files.go:196-252 | once the agent has opened the file of the page's download, every run without a cancel, a shutdown or a failed read of it, whatever else it holds, leaves the user with exactly that file when nothing can move any more |
| DownloadDelivery.EveryFileCanBeSaved | agent/cmd/vyomlink/files.go:196-252 | from any idle page of a session that is up there is a run that downloads any file and saves it |
| DownloadDelivery.NotOpenedIsNeverSaved | agent/cmd/vyomlink/files.go:198-213 | a request whose file cannot be opened never gets anything saved, whatever follows, and does not keep the page waiting |
| DownloadDelivery.CancelledIsNeverSaved | web/src/pages/device/Files.tsx:468-477 | a download the user cancels is never saved, whatever of it is still under way, and at rest its sender has ended |
| DownloadDelivery.ShutdownIsFinal | agent/cmd/vyomlink/files.go:87-105 | after a shutdown nothing is started or addressed again, every sender has been told once to stop, and at rest every one has |
| DownloadDelivery.BarCounts | web/src/pages/device/Files.tsx:200-207 | from its download-start on the bar shows the bytes the page has of the size announced, until something else is shown or an error comes |
| DownloadDelivery.BarMoves | web/src/pages/device/Files.tsx:81-90 | while a download is under way whatever bar is shown moves by exactly the bytes that come for it, the bar of an upload too |
| FilesSession.Session.CancelActiveDownload | agent/cmd/vyomlink/files.go:186-194 | closes the active cancel channel once and forgets the window; like every handler it keeps one active download at most and the upload equal to what the page sent |
| FilesSession.Session.StartDownload | agent/cmd/vyomlink/files.go:196-220 | cancels the previous run, then either an error or a new run with its own window and the announced size |
| FilesSession.Session.DlAck | agent/cmd/vyomlink/files.go:255-267 | frees one slot of the current window, or nothing when the number is old or the window empty |
| FilesSession.Drain | agent/cmd/vyomlink/files.go:221-252 | the sender's loop: one chunk per read that worked, the next stretch of the file, and at its end an error exactly when the failing read was reached, download-end exactly when a read found the end of the file, and otherwise all eight slots taken |
| FilesSession.Session.SendUntilBlocked | agent/cmd/vyomlink/files.go:221-252 | that loop run on one sender of the session, which changes no other; a read that would fail beyond the end of the file is never reached |
| FilesSession.Session.Cancel | agent/cmd/vyomlink/files.go:396-404 | a cancel stops the download or the upload with that number and nothing else |
| FilesSession.Session.Shutdown | agent/cmd/vyomlink/files.go:87-105 | both halves are dropped and the session marked closed |
| FilesSession.Session.DropUpload | agent/cmd/vyomlink/files.go:269-281 | clears the upload fields and removes the temporary file |
| FilesSession.Session.StartUpload | agent/cmd/vyomlink/files.go:283-302 | drops the previous upload, then an error or a fresh temporary file for the cleaned path |
| FilesSession.Session.UploadData | agent/cmd/vyomlink/files.go:304-328 | appends a matching slice, reports the running total, and drops the upload on a failed write |
| FilesSession.Session.UploadDone | agent/cmd/vyomlink/files.go:330-354 | clears the active upload before comparing numbers; a matching one whose rename works puts exactly the bytes sent at the target, another failure removes the temporary file |
| FilesSession.Session.UploadCancel | agent/cmd/vyomlink/files.go:356-371 | drops the upload with that number |
| Upload.UploadTracks | agent/cmd/vyomlink/files.go:269-328 | after any messages and failures the agent's fields and temporary file are exactly the slices accepted for the open upload |
| Upload.UploadExact | agent/cmd/vyomlink/files.go:330-354 | upload-ok exactly for a matching upload-done whose rename worked; then the target is those slices in order, the size their length, the temporary name gone, every other path as before |
| Upload.DiskUntouched | agent/cmd/vyomlink/files.go:283-371 | over any run only a matching upload-done for a path, and temporary files, ever change the disk |
| Upload.RepliesTell | agent/cmd/vyomlink/files.go:283-354 | every answer says where the upload stands: acknowledged exactly when its temporary file was made, for the path asked for; progress is the number of bytes accepted so far |
| Upload.NoLitter | agent/cmd/vyomlink/files.go:269-281 | as long as no removal fails and no wrong upload-done comes, the only temporary file is that of the open upload: none is left after a done, a cancel or a close |
| Upload.FailedDoneKeepsTarget | agent/cmd/vyomlink/files.go:345-352 | a failing upload-done keeps the target if and only if there was none or its removal failed too |
| Upload.WrongDoneStrandsUpload | agent/cmd/vyomlink/files.go:336-343 | after any upload-done no upload is active, and the temporary file stays unless the number matched and it was renamed or removed |
| Upload.UploadStranded | agent/cmd/vyomlink/files.go:336-343 | a run that strands a temporary file |
| Upload.PageUploadIff | web/src/pages/device/Files.tsx:300-319 | however other messages fall between those of one uploadFile call, upload-ok comes if and only if no other request, done, close, cancel of it or failed write intervened and the rename worked; then the target is exactly the file |
| Upload.SlicesJoin | web/src/pages/device/Files.tsx:313-317 | the slices sent are the file |
| Upload.PageUploadsWholeFile | web/src/pages/device/Files.tsx:300-319 | its messages in a row, every write working, leave the whole file accepted, whatever came before |
| TerminalInput.NothingLostOrDoubled | agent/cmd/vyomlink/relay.go:81-165 | under all interleavings every item is in exactly one place, and both the buffered prefix and the direct suffix pass in arrival order |
| TerminalInput.BufferedInputGetsThrough | agent/cmd/vyomlink/relay.go:90-108 | from any reachable state of an attached open channel the flushers and the timer alone can bring all waiting input to the shell, though the shell never speaks |
| TerminalInput.OneFlusherOneClose | agent/cmd/vyomlink/relay.go:113-123 | at most one goroutine gets a non-empty batch; firstOut and closeFn run at most once although both a failed write and a close can trigger it |
| TerminalInput.ShellEndsOnce | agent/cmd/vyomlink/relay.go:156-164 | by a failed write, the hub or both, closeFn of an attached shell runs once and its input is closed once, unless it was the write that failed |
| TerminalInput.LateShellIsNeverClosed | agent/cmd/vyomlink/relay.go:81-91 | a shell is closed with its channel if and only if the channel was still open when the shell had started; a later one is never closed |
| TerminalInput.ShellCanBeLate | agent/cmd/vyomlink/relay.go:178-184 | a run that closes the channel first |
| TerminalInput.NothingWrittenAfterClose | agent/cmd/vyomlink/relay.go:126-131 | once closed, the shell never gets another byte |
| TerminalInput.FinishedIsMerge | agent/cmd/vyomlink/relay.go:93-108 | on a finished open channel exactly the resize frames were swallowed and the rest written, as a merge of two ordered sequences |
| TerminalInput.OrderKeptIffNoOvertaking | agent/cmd/vyomlink/relay.go:196-205 | the shell got its input in arrival order if and only if the reader never wrote while a flusher held earlier input |
| TerminalInput.OrderCanBreak | agent/cmd/vyomlink/relay.go:200-204 | two keystrokes can reach the shell swapped |
| TerminalInput.ShellGetsWhatWasTyped | agent/cmd/vyomlink/relay.go:81-165 | without such a write a finished open channel has given the shell exactly the bytes that were typed, in order and once, all but the resize frames |
| RelayChannel.Channel.Attach | agent/cmd/vyomlink/relay.go:81-90 | attaching changes nothing on a closed channel |
| RelayChannel.Channel.MarkReady | agent/cmd/vyomlink/relay.go:113-123 | the first caller takes the queue, later ones get nothing |
| RelayChannel.Channel.TimerTake | agent/cmd/vyomlink/relay.go:100-104 | the deferred flush takes what is left |
| RelayChannel.Channel.Deliver | agent/cmd/vyomlink/relay.go:126-165 | buffers, handles, swallows, writes or closes, branch by branch |
| RelayChannel.Channel.Flush | agent/cmd/vyomlink/relay.go:105-107 | the flush loop is deliver on each item in turn |
| RelayChannel.FlushWrites | agent/cmd/vyomlink/relay.go:105-107 | an uninterrupted flush on an open terminal logs the batch whole and in order |
| RelayChannel.DirectInOrder | agent/cmd/vyomlink/relay.go:126-145 | a desktop or files channel hands over every message that comes before its close, in order and once, and none after it; it queues nothing, and its session is shut down once |
| RelayHub.Channels.Open | agent/cmd/vyomlink/relay.go:167-176 | a number that is open stays as it is, else a new channel is registered |
| RelayHub.Channels.Close | agent/cmd/vyomlink/relay.go:263-282 | whatever is registered under the number is forgotten and closed |
| RelayHub.EachClosedOnce | agent/cmd/vyomlink/relay.go:263-282 | over any opens and closes the hub closes every channel at most once, and two channels of one number are never open together |
| RelayHub.OwnCloseHits | agent/cmd/vyomlink/relay.go:212-227 | a close by a channel's own goroutines closes it if and only if it is still open, and another channel if and only if it was closed and its number reopened |
| RelayHub.LateCloseHitsNewer | agent/cmd/vyomlink/relay.go:223-227 | open, close, open again: the first reaper closes the second channel |
| RelayChannel.Channel.Close | agent/cmd/vyomlink/relay.go:263-282 | closes once, with the shell's closeFn and stdin if attached |
| AlertEngine.AlertService.LoadRules | server/src/services/alertService.ts:73-81 | the enabled rows, each with blank state; the events table stays |
| AlertEngine.AlertService.HandleBreach | server/src/services/alertService.ts:102-129 | silent while alerted, waiting while not held long enough, else one row and one notify attempt |
| AlertEngine.AlertService.HandleRecover | server/src/services/alertService.ts:131-138 | forgets the breach and resolves the open row |
| AlertEngine.AlertService.EvaluateSample | server/src/services/alertService.ts:86-100 | one sample against every rule in order |
| AlertProofs.TableIsDeclared | server/src/services/alertService.ts:86-138 | between two loads, for every rule and device, the rows added are exactly the declared alerts: opened at the first sample of a breaching run held long enough, with its value, resolved at the next sample that does not breach |
| AlertProofs.LoadedIffEnabled | server/src/services/alertService.ts:73-81 | after a load exactly the enabled rules are evaluated, until the next |
| AlertProofs.SampleRaisesIff | server/src/services/alertService.ts:86-118 | in numbers, after any samples: a sample of v adds an alert of v if and only if v > threshold for ">", v >= threshold for ">=", v < threshold otherwise, and the rule has no duration or its run of such samples has lasted 1000 ms for every second of it |
| AlertProofs.HoldOverTwoSamples | server/src/services/alertService.ts:102-108 | of two samples above the threshold the second raises the alert if and only if it comes duration_s * 1000 ms after the first |
| AlertProofs.ActiveIsUnresolved | server/src/services/alertService.ts:103-119 | active names exactly the unresolved rows, so each rule has at most one per device |
| AlertProofs.OneAlertPerRun | server/src/services/alertService.ts:103-104 | two alerts never belong to the same breaching run |
| AlertProofs.HeldRunAlerts | server/src/services/alertService.ts:105-108 | a run held long enough does get its alert |
| AlertProofs.OneNotifyPerAlert | server/src/services/alertService.ts:120-127 | one notify attempt per row, in the order of the rows |
| AlertProofs.LoadOrphansOpenAlerts | server/src/services/alertService.ts:73-81 | after a load no evaluation ever touches an earlier row again |
| AlertProofs.OpenAlertLeftBehind | server/src/services/alertService.ts:73-81 | an alert open at a load is still unresolved after any next sample |
| AlertOverlap.OrphanIff | server/src/services/alertService.ts:102-138 | over any overlapping evaluations a row is lost track of if and only if some insert or resolve finished while active named another row that no other call was about to resolve |
| AlertOverlap.OrphanStays | server/src/services/alertService.ts:131-136 | such a row is never resolved |
| AlertOverlap.OneAtATimeKeepsTrack | server/src/services/alertService.ts:86-100 | evaluated one at a time no row is lost |
| AlertOverlap.WholeCallMirrors | server/src/services/alertService.ts:102-138 | a call that no other overlaps does in this machine what it does in the engine |
| AlertOverlap.TwoRowsForOneBreach | server/src/ws/agentSocket.ts:209-212 | two breaching samples in quick succession open two rows and lose the first |
| SlidingWindow.SlidingWindowLimiter.Prune | server/src/util/rateLimit.ts:52-63 | drops exactly the leading hits at or before the cutoff, and the key with the last |
| SlidingWindow.SlidingWindowLimiter.CheckHit | server/src/util/rateLimit.ts:35-49 | prune, then a denial or one more hit |
| SlidingWindow.SlidingWindowLimiter.Sweep | server/src/util/rateLimit.ts:66-74 | the sweep prunes every key, in any order |
| SlidingWindow.VerdictRefines | server/src/util/rateLimit.ts:35-63 | after any hits and sweeps over any keys each verdict equals that of a limiter keeping every allowed hit |
| SlidingWindow.AllowedIffRoom | server/src/util/rateLimit.ts:35-49 | a hit is allowed if and only if fewer than max allowed hits of its key lie in the window that ends with it; remaining is what is left, and only allowed hits count |
| SlidingWindow.KeptIsSmall | server/src/util/rateLimit.ts:52-63 | no key is ever stored without a hit or with more than max |
| SlidingWindow.SweptIsRecent | server/src/util/rateLimit.ts:66-74 | after a sweep exactly the keys hit within the window are stored |
| SlidingWindow.AnyWindowHoldsAtMostMax | server/src/util/rateLimit.ts:38-43 | no window, wherever it ends, holds more than max allowed hits of a key |
| SlidingWindow.RetryAfterIsExact | server/src/util/rateLimit.ts:39-40 | with any other traffic in between, a denied caller is denied before now + retryAfterMs and allowed from then on |
| MetricsLimiter.MetricsRates.Push | server/src/ws/agentSocket.ts:188-198 | one push against the device's window |
| MetricsLimiter.MinuteBound | server/src/ws/agentSocket.ts:188-198 | any closed minute holds at most 23 accepted pushes of a device, and its current window at most 12 |
| MetricsLimiter.MinuteBoundIsReached | server/src/ws/agentSocket.ts:192-198 | 23 in a closed minute do happen |
| MetricsLimiter.AcceptedIff | server/src/ws/agentSocket.ts:188-198 | whatever was dropped before, a push goes on if and only if it is the first of its device, comes more than 60 s after its window began, or finds fewer than 12 accepted in it; a window begins with an accepted push |
| TunnelFrame.WrapAgentBytes | server/src/ws/relaySocket.ts:138-144 | the frame filled byte by byte is the encoding |
| TunnelFrame.HeaderRoundTrip | shared/src/protocol.ts:41-51 | the parsed header keeps channel, flags and length modulo 65536 |
| TunnelFrame.PageRoundTrip | server/src/ws/relaySocket.ts:138-145 | towards the page a payload arrives whole if and only if it has at most 65535 bytes |
| TunnelFrame.ServerRoundTrip | server/src/ws/relaySocket.ts:110-121 | towards the agent up to 65532 bytes arrive whole and more are dropped |
| TunnelFrame.ChunkThroughTunnel | web/src/pages/device/Files.tsx:81-90 | a file chunk reaches the page with its number and bytes if and only if it leaves room for 13 bytes |
| TunnelFrame.SliceThroughTunnel | web/src/pages/device/Files.tsx:313-317 | an upload slice reaches the agent's uploadData with its number and all its bytes, through JSON text and base64, if and only if its message fits a frame; every slice the page makes does |
| Base64.RoundTrip | web/src/pages/device/Files.tsx:322-330 | any bytes encoded come back |
| TunnelFrame.FourProducersArrive | agent/cmd/vyomlink/files.go:38-44 | shell reads, JPEG frames and file chunks reach the page whole, upload messages the agent |
| TunnelFrame.IntroAndPasteArriveIff | agent/cmd/vyomlink/relay.go:189-195 | a shell's first output reaches the page whole if and only if it has at most 65535 bytes; a paste reaches the agent if and only if it has at most 65532, and is dropped otherwise |
| TunnelFrame.ResizeArrives | agent/cmd/vyomlink/relay.go:146-154 | the page's resize message is swallowed as a resize to the columns and rows it was asked for, modulo 65536 |
| Recording.ParseRecording | web/src/pages/device/Recordings.tsx:14-33 | the reader's loop, on every file whole, cut or foreign, ends and yields the frames the round trips are about |
| Recording.RoundTrip | server/src/services/recordingService.ts:109-119 | a finished recording plays back exactly its JPEG records, in order, type byte stripped |
| Recording.OnlyRecordingsParse | web/src/pages/device/Recordings.tsx:14-19 | a file is read if and only if it begins with the eight letters every recording begins with |
| Recording.CutRoundTrip | web/src/pages/device/Recordings.tsx:22-31 | a recording cut anywhere after its header plays its whole records and the tail of the one cut |
| Recording.TailIs | web/src/pages/device/Recordings.tsx:25-29 | that tail is at most one frame: the front of the first record not wholly there |
| Recording.WalksEveryRecord | web/src/pages/device/Recordings.tsx:22-31 | a reader walks exactly the records written, whether it shows them or not |
| Recording.DelaysAddUp | web/src/pages/device/Recordings.tsx:23-29 | every record shown has its frame, where the delays so far add up to its time |
| Recording.RecordingService.Start | server/src/services/recordingService.ts:62-106 | refuses a second recording of a device, else a header-only stream and its row |
| Recording.RecordingService.RecordFrame | server/src/services/recordingService.ts:108-119 | appends one record and keeps byte and frame counters equal to the stream, or throws before writing |
| Recording.RecordingService.Stop | server/src/services/recordingService.ts:122-133 | the file parses to what was recorded, and the row counts its bytes and records |
| SelfUpdate.Disk.DownloadVerified | agent/cmd/vyomlink/update.go:104-142 | the reason is the one that is true first, and none only for a complete download of 1 byte to 64 MB with the given hash; nothing but the staged file is touched |
| SelfUpdate.Disk.Replace | agent/cmd/vyomlink/update.go:91-97 | the second rename or its rollback; the previous binary is at exe or exe.old in every state on the way |
| SelfUpdate.Disk.Swap | agent/cmd/vyomlink/update.go:83-100 | the rename dance, with the same guarantee |
| SelfUpdate.Disk.ApplyUpdate | agent/cmd/vyomlink/update.go:67-100 | for every pattern of failing operations and every crash point the previous binary is at exe or exe.old, every state on the way is one of a few, and the end state is exactly determined |
| SelfUpdate.UpdateSucceedsIff | agent/cmd/vyomlink/update.go:67-142 | an update succeeds if and only if there is an agent, the answer is a whole 200 of 1 byte to 64 MB with the hash asked for, if any, and no create, write, close or rename fails; then exe is the download and exe.old the agent before it |
| SelfUpdate.ReasonIsTrue | agent/cmd/vyomlink/update.go:67-142 | whatever reason a failed update gives is what happened |
| SelfUpdate.EndOfUpdate | agent/cmd/vyomlink/update.go:83-100 | success installs a verified binary and keeps the previous one; an error leaves exe alone unless both the rename and its rollback failed; what becomes of exe.old; no other file changes |
| SelfUpdate.UpdateAndRestart | agent/cmd/vyomlink/update.go:60-161 | a good update, the restart and the boot after it: the new agent is up and no leftover is on the disk |
| SelfUpdate.UpdatesKeepAgent | agent/cmd/vyomlink/update.go:67-100 | over any sequence of updates the last installed binary stays at exe as long as no update loses rename and rollback |
| SelfUpdate.AgentSurvives | agent/cmd/vyomlink/update.go:67-161 | over any updates, crashes inside them, stops and boots, as long as no update loses rename and rollback, a genuine agent is at exe while the process is up and at exe or exe.old while it is down |
| SelfUpdate.CutBetweenRenames | agent/cmd/vyomlink/update.go:86-90 | a crash between the renames leaves only exe.old, and nothing boots to remove it |
| SelfUpdate.RetryKeepsCopyIff | agent/cmd/vyomlink/update.go:84-88 | with exe gone, an update keeps the copy at exe.old if and only if its download is refused or the removal fails |
| SelfUpdate.TwoUpdatesCanLoseAgent | agent/cmd/vyomlink/update.go:84-97 | two updates can delete the agent altogether |
| SelfUpdate.Disk.CleanupStaged | agent/cmd/vyomlink/update.go:145-161 | boot removes a leftover unless it is busy ten times, and never the agent |
| Sessions.SessionManager.Create | server/src/services/sessionManager.ts:50-71 | an offline device is refused, an unknown channel becomes the terminal |
| Sessions.SessionManager.Consume | server/src/services/sessionManager.ts:74-81 | the token is gone whether or not it was good |
| Sessions.SessionManager.Sweep | server/src/services/sessionManager.ts:97-104 | exactly the unused sessions over 60 s old go, in any order |
| Sessions.StoredIffAlive | server/src/services/sessionManager.ts:50-104 | over any run the table holds exactly the tokens created, not consumed and not found old by a sweep |
| Sessions.RedeemedIff | server/src/services/sessionManager.ts:74-81 | exactly when a consume succeeds |
| Sessions.RedeemedSession | server/src/services/sessionManager.ts:50-81 | a consume yields the device, user and rights the token was created for, on the channel asked for if it is 1, 2, 3, 4, 5 or 200 and else on 1, good for 4 h |
| Sessions.ConsumedAtMostOnce | server/src/services/sessionManager.ts:74-81 | no token is consumed twice |
| Sessions.FreshAfterSweep | server/src/services/sessionManager.ts:97-104 | right after a sweep nothing stored is over 60 s old |
| Sessions.NinetySeconds | server/src/services/sessionManager.ts:45-46 | with sweeps at most 30 s apart no consumed token is over 90 s old |
| Sessions.NinetyIsReached | server/src/services/sessionManager.ts:25-26 | and 90 s is reached |
| QuickSupport.RunInv | server/src/services/quickSupportService.ts:89-149 | every step of any redeem, revoke, deletion or clock keeps the invariant of rows, redeems, sessions and fates |
| QuickSupport.OneSessionPerCode | server/src/services/quickSupportService.ts:89-121 | under any interleaving a code makes at most one session, none once revoked, for its own device and rights, past its password and with its TTL checked |
| QuickSupport.BurnedIsAccountedFor | server/src/services/quickSupportService.ts:108-114 | a burned code made its session, is held by one redeem, or was lost to a device that went offline |
| QuickSupport.CodeCanBeLost | server/src/services/quickSupportService.ts:107-114 | a run that burns a code and makes no session for it |
| QuickSupport.FirstBurnWins | server/src/services/quickSupportService.ts:108-112 | of all redeems of a code the first to reach its burn gets it, whatever each of them read: a burn works if and only if no earlier step burned the code, revoked it, or deleted it after its expiry |
| QuickSupport.RevokedMakesNone | server/src/services/quickSupportService.ts:142-149 | a code revoked before it was used makes no session, whatever redeems of it were already under way |
| QuickSupport.TtlNotLookedAtAgain | server/src/services/quickSupportService.ts:99-114 | past its one TTL check a redeem makes its session at any later time if and only if its code is unspent and its device online |
| QuickSupport.LateSession | server/src/services/quickSupportService.ts:99-114 | a run that makes a session after its code expired |
| QuickSupport.RedeemsIff | server/src/services/quickSupportService.ts:89-121 | a redeem that nothing disturbs gets its session, on the channel asked for, if and only if an unused, unexpired row has that code, its device is online and its password, if it has one, matches a non-empty one |
| QuickSupport.ReachesBurnIff | server/src/services/quickSupportService.ts:94-108 | a wrong password, an expired or used code or an offline device burns nothing: the burn is reached, with the row untouched, if and only if all of these are right |
| QuickSupport.CleanCodeIs | server/src/services/quickSupportService.ts:152-154 | of a code as typed only the digits count, the first nine |
| Desktop.EncodeJpeg | agent/cmd/vyomlink/desktop.go:237-254 | the loop is the descent |
| Desktop.DescentIsFirstFit | agent/cmd/vyomlink/desktop.go:241-253 | a JPEG if and only if one of q, q-10, ... >= 20 fits with all above it too big; then it is that first, highest one |
| Desktop.UsableIff | agent/cmd/vyomlink/desktop.go:241 | a quality can encode anything if and only if it is at least 20 |
| Desktop.SentIsFirstFit | agent/cmd/vyomlink/desktop.go:202-254 | the frame sent is the first of qualities q, q-10, ... >= 20 within 60000 bytes of the image captured, or, when it has none, of the one captured at half the scale; else missed or too large |
| Desktop.LowQualityEndsSession | agent/cmd/vyomlink/desktop.go:202-232 | below 20 no capture sends a frame and the first image captured ends the session |
| Desktop.LowQualityIsReached | agent/cmd/vyomlink/desktop.go:285-300 | a request for quality 10 ends the session with the first capture |
| Desktop.DesktopSession.OnInput | agent/cmd/vyomlink/desktop.go:279-327 | quality, fps and scale messages and their clamps |
| Desktop.SettingsFollow | agent/cmd/vyomlink/desktop.go:285-327 | a quality is the whole part of the number within 10 to 90, a frame rate within 1 to 30, a scale the number itself within 0.25 to 1 |
| Desktop.DesktopSession.CaptureOnce | agent/cmd/vyomlink/desktop.go:202-232 | one capture: sent, sent at half the scale (kept), missed or too large |
| Desktop.SessionKeeps | agent/cmd/vyomlink/desktop.go:165-196 | under any interleaving of captures and messages: scale within [0.25, 1], at most two automatic reductions between the browser's own, every frame fits, and giving up exactly on a too-large capture or the tenth miss in a row |
| Desktop.OverForGood | agent/cmd/vyomlink/desktop.go:165-196 | a session that gave up or left captures nothing any more, whatever the browser sends |
| Desktop.CloseEnds | agent/cmd/vyomlink/desktop.go:90-92 | a close ends the loop at its next look |
| Desktop.ScaleOverwrittenIff | agent/cmd/vyomlink/desktop.go:216-230 | a scale set during a capture is overwritten if and only if nothing fitted the first image, the capture began above 0.25, something fits the image at half that scale, and the half is not what the browser asked for |
| Desktop.StaleScaleWins | agent/cmd/vyomlink/desktop.go:216-230 | a scale set during a capture can be lost to it |
| Pixels.SwizzleRow | agent/cmd/vyomlink/desktop_windows.go:241-246 | the inner loop copies one row, red and blue swapped, alpha 255, and no other byte |
| Pixels.FlipAndSwizzle | agent/cmd/vyomlink/desktop_windows.go:236-247 | the nested loops stay in bounds and flip every row |
| Pixels.PixelIs | agent/cmd/vyomlink/desktop_windows.go:236-247 | output pixel (x, y) is the RGB of source pixel (x, capH-1-y) with alpha 255 |
| Pixels.EveryByteInPixel | agent/cmd/vyomlink/desktop_windows.go:236-247 | every output byte belongs to such a pixel |
| Pixels.FlipTwice | agent/cmd/vyomlink/desktop_windows.go:236-247 | doing it twice gives back every colour byte |
| ModeQueries.Exec | web/src/pages/device/Terminal.tsx:52-54 | the first match at or after an index |
| ModeQueries.Replier.ReplyToModeQueries | web/src/pages/device/Terminal.tsx:50-59 | skipping from match to match answers every query in the text, in order, and keeps the last 64 units |
| ModeQueries.AskedIsQuery | web/src/pages/device/Terminal.tsx:42-56 | the scan answers at a position if and only if a query of a known mode stands there |
| ModeQueries.FiveModes | web/src/pages/device/Terminal.tsx:42-48 | the five modes, their queries ESC [ ? mode h and the answers ESC [ ? mode ; 2 $ y |
| ModeQueries.AnswersAre | web/src/pages/device/Terminal.tsx:50-57 | a text gets one answer for each query in it, in order, each naming its mode |
| ModeQueries.AnsweredIff | web/src/pages/device/Terminal.tsx:50-59 | for every split of the stream into chunks, which call answers which query |
| ModeQueries.EveryQueryAnswered | web/src/pages/device/Terminal.tsx:50-59 | every query is answered by the call that completes it and by none before |
| ModeQueries.AnsweredOnceIff | web/src/pages/device/Terminal.tsx:58 | answered once only if and only if no call follows or it has left the last 64 units |
| ModeQueries.AnsweredTwice | web/src/pages/device/Terminal.tsx:50-58 | a query alone in a chunk is answered again with the next |

## Left out

- Reloading or navigating the page while messages of its last session are in flight: one page and one agent session are modelled, from open to close.
- A file that changes while it is being sent: a run's content is fixed when it is opened.
- Directory listings, mkdir, delete, rename: they appear only as requests that may answer with an error; listings are not bounded by the frame limit.
- The page's promise plumbing around uploads: `uploadFile` is modelled by the messages it sends.
- Partial writes to the shell, and the terminal's 10 s timer as a duration: the deferred flush may wake at any time after attach.
- The declarative list of alerts is proved for samples evaluated one at a time; what overlapping evaluations can do is in `AlertOverlap.dfy`. A database that fails is not modelled.
- Alert rule editing and validation, broadcasts and notifier transports.
- A limit of zero hits per window: the limiter is only ever built with a positive one.
- Recording.RoundTrip: timestamps below 2^53 ms only, where the page's numbers are exact; the rounding of larger ones by the page is not modelled.
- Two recording starts racing before either has registered, and the recording's file being written asynchronously.
- Recording deletion and listing.
- Two updates at the same time, and an executable path that cannot be found or changes while the agent runs.
- Restarting after an update, and downloads whose hash function collides.
- Browser pipes of the session manager (one map entry per device), and the session log.
- Floating point in the scale: it is a real number here; halving and clamping are exact in floating point too. Frame hashes are kept but never compared by the code, so they are left out.
- A desktop that has no size when it is opened: the session then ends at once.
- Screen capture, cursor drawing, input injection and monitors: foreign calls.
- Sending replies on a socket that is not open: the terminal's replies are modelled while it is.
- Text comparison of expiry dates inside the database, and retries after a duplicate code.
- What `sessions.create` does to an unknown channel when a code is redeemed: that is in `Sessions.dfy`.
- Path cleaning: a path asked for is taken as already clean, but for the empty one.
- Listing and masking of quick-support codes, enrolment, handshakes, rights checks, configuration: short members without a property over runs.
- Wall clocks that go backwards, except in the alert engine and the tunnel, which need no order.
