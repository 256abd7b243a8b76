# MiRelay on the desktop: a verified model

MiRelay delivers files from one device to another through a relay. This project
models the receiving and sending sides that run on a Linux desktop, and proves
what they promise: files are acknowledged only when they are safely stored, a
crash at any point loses nothing, an exit is final, an interrupted upload resumes
to the same bytes, and what the user is shown is exact.

How the model is built:

- **The delivery pipeline is a log.** `Protocol.dfy` lists every durable or
  observable effect as an event (a replaced state file, a committed or quarantined
  object, an acknowledgement, a wallpaper launch) and says which event may follow
  which history. `Pipeline.dfy`, `Sync.dfy`, `Wallpaper.dfy` and `Runs.dfy` are the
  program itself, with every save, download, verification, acknowledgement and
  command failing whenever it likes; a failed save leaves the old file or the new
  one. Their methods are proved to emit only legal logs. Each prefix of a legal log
  is legal, so a crash is a log cut short, and a theorem about legal logs is a
  theorem about every run with crashes anywhere. `calm` is an environment in which
  nothing fails, used to state convergence; `savesHold` one in which at least the
  state file can be written, used to state the accounting; a `sheltered` library is one
  that nobody else changes.
- **Streaming inspection** (`Utf8.dfy`, `Storage.dfy`) works on bytes. Well-formed
  UTF-8 is stated independently, by the grammar in section 4 of RFC 3629.
- **Clean exit** (`CleanExit.dfy`) is a transition system: any number of threads,
  four locks, one file operation or request per step, and a stop or crash anywhere.
- **Resumable upload** (`Upload.dfy`) runs the sender of the tus resumable upload
  protocol 1.0.0 against an abstract relay that stores parts of a PATCH, loses
  replies, acts on late packets and forgets uploads; also against one that answers
  anything at all (`conforming` is false), and against one where nothing is lost
  (`smooth`).
- **The file list** (`Files.dfy`, `FilePages.dfy`) takes map order, unstable
  partition and unstable sort as arbitrary functions that keep only the promises of
  the standard library's documentation.
- **Sources** (`Scanning.dfy`, `HttpSource.dfy`, `FilesystemSource.dfy`,
  `Retry.dfy`, `Receiving.dfy`), **directory comparison** (`Directory.dfy`) and
  **Folder separation** (`Folders.dfy`, `FolderStore.dfy`) are methods over values
  and small classes, each proved against an independent description.

Two findings about the code, kept as it is:

- Inside the exit states the order is not kept. A second `run` that read the
  configuration before the first one recorded its cleanup takes `ExitLocalCleaned`
  or `Exited` back to `ExitPending`, because the later saves happen outside the
  registry lock. `CleanExit.RegressionHappens` is a run in which this happens, and
  `CleanExit.CleanStateRegresses` says when it can: exactly while some thread stands
  before its first save. What does hold is that the exit states as a whole are never
  left.
- Repair quarantines the content path computed from the record, not the recorded
  stored path that was verified. A quarantine has cause exactly when the two are equal
  (`Protocol.QuarantineHasCause`). The program itself only makes such records
  (`Protocol.StaysSound`), but a loaded state file is not checked for it, and
  `Protocol.FittingFileIsRemoved` is an input on which a fitting file is taken away
  and deleted: the library was moved by hand and its setting edited.

## Model

| member | source | states |
|---|---|---|
| Utf8.HeadMatchesGrammar | src/storage.rs:553-575 | the decoder takes a first character of width n exactly when those n bytes are one character of the RFC 3629 grammar, and yields its code point |
| Utf8.DecodeMatchesGrammar | src/storage.rs:553-584 | decoding completes with only plain characters exactly when the bytes can be divided into grammar characters that are all plain text |
| Utf8.DecodeContinues | src/storage.rs:553-575 | decoding a concatenation equals resuming with the bytes left over by the first part, wherever the cut falls inside a character |
| Storage.DetectionAgreesWithExtensions | src/storage.rs:419-504 | every media type that detection can answer is storable, under the same extension that content paths use |
| Storage.DetectionIsBySignature | src/storage.rs:419-504 | type by type, what a content must begin with to be taken for it (with text exactly for plain text without a signature, and binary otherwise), said of the bytes and not of the detector |
| Storage.BeginningDecides | src/storage.rs:419-504 | whatever follows, a content that begins with the signature of PNG, JPEG, GIF, WebP, PDF, 7z or WAV is of that type: no other signature can stand before it |
| Storage.HeaderSuffices | src/storage.rs:386-417 | the 512 bytes kept from the stream decide the media type as the whole file would |
| Storage.Utf8TextProbe.Observe | src/storage.rs:553-575 | after any sequence of chunks the probe's state is the decoding of everything seen; at most three bytes are carried over |
| Storage.Utf8TextProbe.IsPlainText | src/storage.rs:577-584 | the verdict is that the bytes seen are well-formed UTF-8 of plain characters, both directions |
| Storage.CopyAndInspect | src/storage.rs:359-417 | succeeds exactly when the stream ends without error with an acceptable size; then size, digest and the bytes written are those of the whole content, and the media type is the one whose signature the content begins with, or text or binary when it has none |
| Storage.SplittingIsIrrelevant | src/storage.rs:372-408 | every way of cutting a content into nonempty reads delivers that content, so inspection cannot depend on chunking |
| Model.ExtensionRoundTrip | src/storage.rs:482-504 | an extension names one media type: reading it back gives the type it was made from |
| Model.ContentPathInjective | src/storage.rs:298-310 | two content paths are equal only for the same digest and media type |
| Protocol.InspectIsFaithful | src/storage.rs:359-417 | streaming inspection, with any digest function that answers in hex, has the properties that the pipeline relies on |
| Protocol.LegalPrefix | src/state.rs:96-110 | a crash leaves a legal history: every prefix is legal and each event was allowed when it happened |
| Protocol.AckSafety | src/sync.rs:322-567 | in every history with crashes and failing saves, an acknowledgement was sent only while the durable state recorded that id with that digest and its file had matching digest, size and type |
| Protocol.LaunchSafety | src/sync.rs:684-724 | every launch comes after a save of its Running record, and when the command starts that record is durable, acknowledged, an image, and its file matches it |
| Protocol.AcknowledgedWasConfirmed | src/sync.rs:341-349 | a record is Acknowledged only because the source confirmed exactly its digest |
| Protocol.RecordsPersist | src/sync.rs:404-567 | durable records are never lost, keep digest, size, type and name, stay Acknowledged, and their attempt counter never falls |
| Protocol.LaunchBudget | src/sync.rs:617-765 | over any history a wallpaper command is launched at most once per delivery plus once per explicit retry |
| Protocol.RelaunchNeedsRetry | src/sync.rs:617-765 | between two launches of one delivery an explicit retry was begun |
| Protocol.AtMostOneAutomaticLaunch | src/sync.rs:617-765 | without explicit retries it is launched at most once, whatever crashes: no two events of the log launch it |
| Protocol.LaunchNeedsConsent | src/sync.rs:295-315 | a delivery that is found failed is launched only in a history with an explicit retry, one found uncertain or interrupted only with a retry that includes uncertain ones, one found applied never |
| Protocol.StoreInvariant | src/storage.rs:113-214 | after any history every object at a content path has the digest, type and size its name allows, and every record points at its own content path |
| Protocol.StaysSound | src/storage.rs:113-214 | whatever syncs, retries and crashes have done to a sheltered Folder that began sound, its objects, its records and their ids are sound |
| Protocol.SuspectsFailed | src/sync.rs:434-442 | at every moment of every history, a record that may be quarantined is one whose file could not be read or does not match now |
| Protocol.QuarantineHasCause | src/sync.rs:434-448 | a quarantine removes the very file that failed verification if and only if the record points to its content path |
| Protocol.OnlyQuarantineRemoves | src/storage.rs:312-344 | in a sheltered library an object disappears only by the quarantine of a record whose content path it is, with cause exactly if that record points there |
| Protocol.FittingFileIsRemoved | src/state.rs:59-94 | an input on which it has none: a record that points elsewhere, its content at the content path; the file is quarantined and deleted by the next cleanup |
| Protocol.OnlyDoubtedObjectsLeave | src/sync.rs:434-448 | where records point to their content paths, an object of a sheltered library disappears only if just before it could not be read or did not match its record in size, digest and type |
| Protocol.RepairIsShared | src/sync.rs:428-469 | records of one digest and type share one path, and one repaired object makes all of them of that size verify |
| Protocol.RetirementIsFinal | src/sync.rs:164-172 | in the log of one Folder, nothing is begun, saved, stored, acknowledged or launched after the retirement marker |
| Pipeline.Folder.Crash | src/state.rs:59-110 | memory is lost, the disk is the replay of what was written, and the result is again a valid Folder |
| Pipeline.Folder.Save | src/fsutil.rs:12-38 | success means the new state is durable; a reported failure leaves the old state or the new one, and nothing else changes |
| Pipeline.Folder.VerifyRecordedFile | src/storage.rs:224-259 | an accepted file is within the limit and has the recorded size, digest and type; a refused one could not be read or lacks one of them; without faults every such file is accepted |
| Pipeline.Folder.VerifyOrDoubt | src/sync.rs:434-442 | the same for a durable record; only a failed verification makes it suspect, and only a suspect may be quarantined |
| Pipeline.Folder.CleanupStaging | src/storage.rs:83-111 | success empties the staging area and counts it; records, objects and marker stay |
| Pipeline.Folder.Stage | src/storage.rs:125-160 | on success, which without faults is exactly when the payload is within the limit and has the announced size, digest and type, it is the newest staging file; on failure the disk is unchanged |
| Pipeline.Folder.Commit | src/storage.rs:161-213 | nothing is overwritten, even when another file appears between check and rename: only the destination can change and only from free to filled, success means that what is there cannot be told from the staged bytes, and without faults success is exactly that the place was free or held such a file |
| Pipeline.Folder.Receive | src/storage.rs:113-214 | success means the announced file is at its content path; nothing elsewhere changes and nothing is lost; without faults it succeeds exactly when the payload is what a valid announcement says and its place is free or holds a fitting file, and a failure changes no object |
| Pipeline.Folder.ReceiveWithRetry | src/sync.rs:569-615 | the same over all attempts that the source grants, and it ends |
| Pipeline.Folder.Quarantine | src/storage.rs:312-344 | at most the object at the record's content path leaves, into staging; success means nothing is there any more |
| Pipeline.Folder.Acknowledge | src/sync.rs:474-483 | callable only when the acknowledgement is safe; changes nothing on disk |
| Ordering.StringTransitive | src/sync.rs:677-677 | the order of ids is transitive |
| Ordering.FirstDifferenceDecides | src/sync.rs:677-677 | of two strings the one with the smaller character at the first difference comes first, and a prefix before what it begins |
| Ordering.KeyOrder | src/sync.rs:664-677 | keys of time and id are totally and strictly ordered |
| Ordering.SortSorts | src/sync.rs:677-677 | sorting puts no key after a greater one |
| Ordering.SortKeeps | src/sync.rs:677-677 | sorting keeps exactly the keys, and keeps them distinct |
| Sync.ReconcileInterruptedWallpapers | src/sync.rs:295-315 | exactly the Running entries become Uncertain with the interruption as their error, in memory and, on success, on disk |
| Sync.Persist | src/sync.rs:121-127 | one record is replaced; the disk has the new state, or the old one when the save was reported as failed |
| Sync.ConfirmPending | src/sync.rs:349-375 | the source is told the recorded digest; a confirmed acknowledgement turns the record Acknowledged and is counted once; a refused one leaves it pending with that error and, once saved, is reported under its id; the record is otherwise unchanged |
| Sync.ReconcileOneAck | src/sync.rs:339-396 | a record is acknowledged exactly if its file verifies, else it stays pending and is handed to repair |
| Sync.ReconcilePendingAcks | src/sync.rs:322-402 | every pending record is either handled or marked for repair, only pending records change, each that was verified and is still pending is reported as refused, and `acknowledged` grows by the number newly Acknowledged |
| Sync.AckExisting | src/sync.rs:476-507 | a verifying record is acknowledged again without changing what is settled; a new acknowledgement is counted once |
| Sync.StoreNew | src/sync.rs:508-543 | success means file and record are durable; the record carries id, name, creation time, digest, size and type as announced, and an image waits for its command; without faults it succeeds exactly when the file can be had; a failure without failing saves leaves no record |
| Sync.Repair | src/sync.rs:438-475 | without faults it succeeds exactly when the payload is what a valid announcement says, whether the file was missing or damaged; then the record points at its own place and, where records do, every record of that digest, type and size verifies again; no object elsewhere is touched; the delivery status stays; one repair is counted and durable; a failure names its cause |
| Sync.Refetch | src/sync.rs:438-462 | takes the suspect file away and receives it anew: which outcome it had, no record changed, nothing elsewhere touched, a fitting file never lost |
| Sync.ReceiveNew | src/sync.rs:508-567 | the new record is durable before it is acknowledged; counts one received and, if confirmed, one acknowledged; without faults it ends up delivered exactly when the payload is genuine and the place is free or holds a fitting file |
| Sync.ProcessKnown | src/sync.rs:413-512 | a recorded delivery is verified, repaired if need be and acknowledged; without faults it ends up delivered whatever had become of its file; counted once; nothing happens to one that is already delivered |
| Sync.ProcessDelivery | src/sync.rs:404-567 | a recorded id with another digest, size or type fails and changes nothing; otherwise at most one counter grows; a new record says what was announced; without faults a recorded delivery ends up in place even if its file was missing or damaged, and a new one exactly when it can be had; only its own place is touched |
| Sync.ProcessListed | src/sync.rs:192-224 | an id handled before is counted as stored without a further look; any other delivery is counted once or its error reported under its id, a collision as a collision |
| Sync.ProcessListing | src/sync.rs:192-224 | over the whole listing: each delivery is counted once or reported; exactly the ids that are in need of repair and not listed are handed on; only records of listed ids change and no wallpaper entry does; without faults all of an honest listing is delivered; when all is delivered already nothing changes |
| Wallpaper.SaveEntry | src/sync.rs:705-714 | one entry is replaced and saved; after it exactly a newly Running entry is armed for launch |
| Wallpaper.Apply | src/wallpaper.rs:31-112 | success and an uncertain outcome imply a launch; without a command nothing is launched |
| Wallpaper.Launch | src/sync.rs:705-757 | Running is durable before the command starts; every field of the outcome is fixed and the summary entry matches it |
| Wallpaper.ProcessCandidate | src/sync.rs:679-763 | a candidate ends as not configured, damaged, applied, failed or uncertain, with all its other fields as they were |
| Wallpaper.SortCandidates | src/sync.rs:641-677 | the queue lists each acknowledged eligible record once, oldest first, ties by id |
| Wallpaper.TakenOldestFirst | src/sync.rs:641-677 | every entry launched was due, and none was launched before one with an earlier time stamp |
| Wallpaper.ConvertNonImages | src/sync.rs:625-640 | exactly the entries of files that are no images become NotApplicable and lose error and time stamp, and the counter says how many |
| Wallpaper.ProcessWallpaperQueue | src/sync.rs:617-765 | every entry that is due by status and mode ends applied, failed or uncertain (not configured without a command) with the fields to match; files that are no images have no entry; nothing else is touched; what is launched is taken from the oldest time stamp on; the summary has one entry per candidate |
| Wallpaper.CountersAddUp | src/sync.rs:679-763 | the three counters together grow by the number of candidates, each by the number with its final status |
| Runs.Prepare | src/sync.rs:174-184 | after cleanup and reconciliation memory and disk agree, no record was lost or wrongly acknowledged, and each pending one was either verified or is in need of repair |
| Runs.ReportUnrepaired | src/sync.rs:225-233 | each record still in need of repair is reported as not listed, once each and nothing else |
| Runs.TendedFinally | src/sync.rs:617-765 | where every entry stands after an automatic run, by the status it had: with a command no acknowledged image is left Pending or NotConfigured, each of them is Applied, Failed or Uncertain; interrupted ones are Uncertain; the others keep their status |
| Runs.PendingSettled | src/sync.rs:225-233 | a pending delivery that the source does not list ends acknowledged, or refused and reported, or with a damaged file and reported as not listed; whenever its file does not verify it is reported as not listed |
| Runs.NewAreAnnounced | src/sync.rs:508-533 | every new record is that of a listed delivery, with its id, name, creation time, digest, size and type |
| Runs.SyncOnce | src/sync.rs:152-243 | one sync: refuses a retired Folder without a trace; counts or reports every listed delivery; reports every issue, and every damaged pending delivery that is not listed; when saves hold, counts acknowledgements exactly, records what was announced and leaves no image waiting for the command; delivers everything deliverable when nothing fails, damaged files included; does nothing when all is done (`Runs.Effects`) |
| Runs.SyncListed | src/sync.rs:186-243 | the same of the part that follows the scan, from any state that reconciliation leaves |
| Runs.Conclude | src/sync.rs:225-242 | reports every id that stays unrepaired as not listed, and serves the whole wallpaper queue; deliveries and their counters stay |
| Runs.RetryWallpapers | src/sync.rs:245-293 | one explicit retry: attempts exactly the acknowledged images that are Pending, NotConfigured or Failed, and those Uncertain or interrupted when these are included; each of them gets an outcome; others and all objects are left alone; the uncertain ones skipped are counted |
| Runs.RetryCount | src/sync.rs:641-677 | the queue of a retry is as long as the set of entries to be retried, said by status |
| Runs.SyncTwice | src/sync.rs:152-243 | two fault-free syncs from records that point at their own places, if everything listed can be had: the first delivers what no record bars, repairing missing and damaged files; the second receives and repairs nothing, leaves all objects, and changes nothing but wallpaper entries of what was delivered |
| Runs.PromiseSuffices | src/storage.rs:161-182 | on a sound disk everything listed can be had if and only if the source serves it, the listing gives one digest one size, and a file that stands where a new delivery belongs has the announced size |
| Runs.Converge | src/sync.rs:152-243 | convergence from every state that syncs, retries and crashes lead to on a sheltered Folder that began sound, objects missing or not, under exactly that condition |
| Runs.HistoryConverges | src/sync.rs:140-293 | the same after an explicit arbitrary history: unless it retired the Folder, one more sync delivers and another has nothing left to do |
| Runs.AnyHistory | src/sync.rs:140-293 | any number of syncs, retries, crashes, retirements and, unless sheltered, outside changes: acknowledgements and launches are safe, launches within budget with a retry between any two of one delivery, and a sheltered disk stays sound |
| Receiving.ReceiveOverHttp | src/sync.rs:152-243 | reconcile, list, sync: no page is asked for when reconciling fails; every complaint is reported under its page and position; in a fault-free run every delivery offered exactly once, and barred by no record, is in place, verified and acknowledged |
| Receiving.ReceiveFromInbox | src/sync.rs:152-243 | the same from an inbox, whose markers are those of the confirmed acknowledgements, at the scan as at the end |
| Receiving.InboxSettles | src/source.rs:241-262 | after one fault-free receive a second scan lists nothing new and nothing that was delivered, and the second receive stores and repairs nothing |
| Receiving.OffersAfterMarkers | src/source.rs:241-262 | confirmed acknowledgements end the offers of their own ids and leave those of all others as they were |
| Receiving.AcknowledgedHasMarker | src/source.rs:336-416 | whatever the state file calls acknowledged has its marker, over any history |
| Receiving.ItemNamesDiffer | src/http_source.rs:372-372 | two items of a paged scan are never reported under one name |
| Progress.FileProgress.Save | src/sync.rs:121-127 | the record to be shown is the last one whose save succeeded |
| Progress.FileProgress.Settle | src/sync.rs:129-137 | one end is announced exactly if the file was announced or went wrong, with that record |
| Progress.AnyFile | src/sync.rs:71-138 | over any sequence of phases and failing saves: announcements, then at most one end, and the record shown was durable |
| CleanExit.MoveOk | src/desktop/clean_exit.rs:70-154 | each kind of step keeps the configuration truthful and does to the others only what their locks permit |
| CleanExit.InvStep | src/desktop/clean_exit.rs:49-154 | every step of every thread keeps what all threads rely on |
| CleanExit.RetirementIsFinal | src/sync.rs:157-172 | once the marker is durable, no receive or retry saves state, stores an object or acknowledges, however stale its configuration |
| CleanExit.DirectoryRetirementIsFinal | src/directory/receiver.rs:366-375 | once the marker in the directory is durable, no directory receive writes directory state |
| CleanExit.CleanupDrainsReceives | src/desktop/clean_exit.rs:70-86 | while a receive is in progress no thread is cleaning up, and no second receive runs |
| CleanExit.ExitAcknowledgedTruthfully | src/desktop/clean_exit.rs:134-150 | the exit is acknowledged only after the marker is durable and the local state and directory state are gone for good |
| CleanExit.ExitedNeedsFullReceipt | src/desktop/clean_exit.rs:145-153 | Exited is saved only after a receipt in which the request, the server, the sender and the receiver are all recorded |
| CleanExit.ExitStatesAreClosed | src/desktop/connection.rs:60-131 | once an exit state is durable, no disconnect and no settings change leaves the exit states |
| CleanExit.CleanStateRegresses | src/desktop/clean_exit.rs:91-103 | a recorded cleanup can ever be taken back to pending, by whatever steps, if and only if some thread has read the configuration and stands before its first save |
| CleanExit.RegressionHappens | src/desktop/clean_exit.rs:89-154 | a run from an ordinary Folder reaches Exited, and its next step leaves ExitPending |
| CleanExit.RetryCompletes | src/desktop/clean_exit.rs:89-154 | whatever an earlier attempt left, every undisturbed run that cannot go on has ended, within fifteen moves, with marker written and local state gone; in Exited when all four flags of the receipt are set, and in ExitLocalCleaned when the Folder was not yet cleaned and one of them is missing |
| CleanExit.RetryCanFinish | src/desktop/clean_exit.rs:89-154 | from every point of an undisturbed run there is one that ends |
| CleanExit.DisconnectedRefuses | src/desktop/clean_exit.rs:97-97 | from Disconnected the exit refuses and changes nothing |
| CleanExit.DisconnectPassesPending | src/desktop/connection.rs:60-131 | a Folder becomes Disconnected only from DisconnectPending, by a thread that finishes a disconnect, and nothing else in its configuration changes |
| CleanExit.DisconnectCompletes | src/desktop/connection.rs:60-131 | an undisturbed disconnect of a connected Folder, or of one whose disconnect is pending, saves DisconnectPending, asks the server, and ends Disconnected |
| CleanExit.AloneIsAStep | src/desktop/clean_exit.rs:8-11 | a lone thread's moves are steps of the whole system, so the undisturbed run is one of its runs |
| Upload.MoveKeeps | src/tus_client.rs:567-598 | whatever a conforming relay does, uploads hold a prefix of the source and deliveries hold the source; uploads only grow |
| Upload.Session.Head | src/tus_client.rs:553-565 | the answer describes the upload as it is when it arrives |
| Upload.Session.Patch | src/tus_client.rs:567-598 | a conflict is settled by asking, and an accepted answer describes the upload as it is |
| Upload.Session.Create | src/tus_client.rs:535-551 | one request; whether its reply arrives or not, the relay stays faithful to the source; a reply names a new, empty upload of the given length and metadata |
| Upload.Session.Settle | src/tus_client.rs:321-331 | an answer of 404, 410 or 422 is passed on only once the resume state is gone, a failure to remove it is the error instead, and any other answer leaves it |
| Upload.Session.Confirmation | src/tus_client.rs:392-410 | the delivery id returned is one whose delivery is the source, asked for once more only when the last answer lacked it |
| Upload.Session.OpenUpload | src/tus_client.rs:276-330 | a saved upload is taken up only for the same file, name and directory version; otherwise exactly one is created, of the given name or else the file's own, and saved |
| Upload.Session.SendChunks | src/tus_client.rs:342-390 | offsets strictly rise, PATCHes are bounded by the bytes left and by `max_chunks`, equal the rounded-up quotient when chunks are taken whole, and the file is sent to the end when nothing fails |
| Upload.Session.Complete | src/tus_client.rs:342-418 | from a validated answer on: the PATCH count, the confirmed delivery, the replay without PATCH, the removal of the resume state after it unless it is to be kept and after 404, 410 or 422, and, when nothing is lost, the arrival of every byte |
| Upload.Session.Upload | src/tus_client.rs:243-418 | a confirmed delivery is the source, complete; an invalid request changes nothing; the first HEAD must speak of this file; PATCHes are bounded by what it truly reported; a replay of a confirmed upload creates and sends nothing and answers the same id; the resume state is gone after a confirmed upload unless it is to be kept, gone after 404, 410 and 422, and left by other errors; when nothing is lost all bytes reach the relay |
| Upload.SendTwice | src/tus_client.rs:243-418 | two undisturbed runs over one file: by default the second creates an upload of its own; with the completed state kept it sends nothing and answers the same delivery id |
| Upload.CeilingIsQuotient | src/tus_client.rs:350-351 | the number of whole chunks is the remaining size over the chunk size, rounded up |
| Upload.AnyCampaign | src/tus_client.rs:243-418 | over any number of runs cut short anywhere, every upload holds the source up to its offset and every delivery equals it |
| Files.PreparedIsUnique | src/desktop/files.rs:301-306 | the description of the index determines it, so an index kept record by record equals one built anew |
| Files.NewPrepared | src/desktop/files.rs:309-333 | a built index has the last position of each id, those positions in order, and matching names and kinds |
| Files.ReplacedIsPrepared | src/desktop/files.rs:366-370 | replacing a record in place and its keys keeps the index right |
| Files.AppendedIsPrepared | src/desktop/files.rs:371-379 | appending a record and its keys keeps the index right |
| Files.FileHistory.constructor | src/desktop/files.rs:338-343 | a history begins with a right index |
| Files.FileHistory.Edit | src/desktop/files.rs:352-358 | arbitrary edits drop the index, so it is never stale |
| Files.FileHistory.Index | src/desktop/files.rs:362-363 | a missing index is built; the one returned is right for the records |
| Files.FileHistory.Upsert | src/desktop/files.rs:361-380 | the last record of that id is replaced, or the record is appended when the id is new, and the index is right again |
| FilePages.CompareLaws | src/desktop/files.rs:414-438 | for every sort the comparator is antisymmetric and transitive, and only equal ids compare equal |
| FilePages.LessLaws | src/desktop/files.rs:414-438 | hence it is a strict total order on candidates with distinct ids |
| FilePages.SortedIsUnique | src/desktop/files.rs:543-543 | there is only one sorted sequence of given candidates |
| FilePages.PageIsFront | src/desktop/files.rs:533-543 | for every partition and unstable sort, partitioning, truncating and sorting gives the front of the full sort |
| FilePages.HonestLibraryExists | src/desktop/files.rs:538-543 | what is asked of partition, sort and map order can be met, for instance by insertion sort |
| FilePages.Overlay | src/desktop/files.rs:493-503 | the live map holds the last live entry of each id, and exactly the saved ones it hides are masked |
| FilePages.OverlayIsShown | src/desktop/files.rs:493-531 | what the masks let through is the naive overlay: last live entry per id, else last saved |
| FilePages.GatherSaved | src/desktop/files.rs:519-527 | of the saved entries exactly those that pass the filters become candidates, each once |
| FilePages.GatherLive | src/desktop/files.rs:528-534 | of the live entries likewise, in whatever order the map gives them |
| FilePages.Front | src/desktop/files.rs:535-543 | the page is the first `limit` of the full sort, which exists |
| FilePages.SelectPage | src/desktop/files.rs:487-549 | the page is the front of the full sort of the filtered overlay and `total` is that list's length |
| FilePages.Page | src/desktop/files.rs:382-404 | the same through a history whose index may have been dropped; and entry by entry: exactly the shown entries that meet filter, kind and pattern, active transfers first, then by time, size or name in the direction asked for |
| FilePages.FullSortIsList | src/desktop/files.rs:414-438 | the full sort of the candidates is that list: which fields each filter asks for, and which of two entries stands first under each order |
| Directory.JoinSplit | src/directory.rs:242-242 | splitting a path at slashes and joining gives it back |
| Directory.ComponentsDecide | src/directory.rs:237-257 | a path is accepted exactly when it is short enough and each component is: not empty, not a dot name, no control character, colon or backslash, no name of this program's own |
| Directory.AncestorIsSlashPrefix | src/directory.rs:158-165 | the text before some slash is an entry exactly when that entry is a proper component prefix |
| Directory.AnySlashPrefix | src/directory.rs:159-164 | finds a collision exactly when some entry is an ancestor of the path |
| Directory.CheckTree | src/directory.rs:158-165 | accepts exactly the sets in which no path is an ancestor of another |
| Directory.Validate | src/directory.rs:138-167 | accepts exactly the valid inventories: identity, size limit, valid distinct entries, no file above another |
| Directory.Compare | src/directory.rs:23-63 | succeeds exactly on valid inventories whose union is a tree, says which check failed otherwise, and classifies every path, listing them in source order |
| Directory.ComparisonConserves | src/directory.rs:11-16 | identical, missing and different make up the source; identical, different and destination-only make up the receiver |
| Directory.SecondComparison | src/directory.rs:23-63 | after writing missing and different entries over the receiver it has every source path with the source's digest and size and every other path as before, and a second comparison finds everything identical |
| Directory.OverwrittenIsValid | src/directory.rs:138-167 | the overwritten receiver is a valid inventory if and only if it stays within the entry limit |
| Directory.PendingWins | src/directory.rs:79-88 | a version still under way decides its path; other paths are as published |
| Directory.CompareRemote | src/directory.rs:69-97 | equals comparing with the receiver after all pending versions, and succeeds exactly when that is a valid tree within the limit |
| Scanning.TallyStep | src/http_source.rs:402-423 | one more item keeps the loop's maps equal to what the items say: first delivery per id, repeated ids, complaints |
| Scanning.Finish | src/http_source.rs:442-455 | lists exactly the deliveries that are alone under their id, those created earlier first |
| Scanning.ScanConserves | src/http_source.rs:362-456 | items seen are deliveries listed plus conflicting ids plus complaints |
| Scanning.ListedOnce | src/http_source.rs:442-455 | no id is listed twice |
| Scanning.ItemByItem | src/http_source.rs:402-455 | an item refused is a complaint; an offer alone under its id is listed; of two offers under one id neither is listed and the later one is a complaint |
| Scanning.ScanIsUnique | src/http_source.rs:442-455 | the items alone determine the result, order included |
| HttpSource.EndsOnce | src/http_source.rs:425-440 | the pages of a server end at one place |
| HttpSource.EndsMeansChain | src/http_source.rs:319-360 | a scan over n pages can end exactly if the server's answers form a chain: each of version 1 and no longer than asked for, each but the last with a sensible new cursor, the last with none |
| HttpSource.ListedAsSent | src/http_source.rs:371-424 | an acceptable descriptor that no other item shares its id with is listed with everything as sent; any other item is a complaint under its page and number |
| HttpSource.NothingElseIsListed | src/http_source.rs:371-424 | whatever is listed is an acceptable descriptor of some page, as it was sent |
| HttpSource.LoadGrows | src/http_source.rs:418-423 | the quantity that the delivery limit bounds never falls |
| HttpSource.AddPage | src/http_source.rs:371-424 | a page is refused exactly when the limit is exceeded, else its items are all accounted for |
| HttpSource.ScanPending | src/http_source.rs:362-456 | stops within a hundred fetches for every server; succeeds exactly when pages end with valid, unrepeated cursors and few enough ids, and then lists what the items determine |
| Retry.NewPolicy | src/http_source.rs:57-78 | accepts exactly the policies within the limits |
| Retry.CeilingDoubles | src/http_source.rs:90-95 | capped exponent and saturation change nothing: the ceiling is base times two to the failures before, at most the maximum |
| Retry.CeilingGrows | src/http_source.rs:90-95 | the ceiling never falls and never exceeds the maximum |
| Retry.DelayAfter | src/http_source.rs:81-104 | no delay after the last attempt or a permanent failure; Retry-After cut to the maximum; else between half the ceiling and the ceiling at millisecond granularity |
| Retry.WithRetry | src/http_source.rs:275-297 | at most `max_attempts` attempts, stopping at the first that is not a transient failure; total sleep at most one maximum per retry, and within the sum of ceilings without Retry-After |
| Retry.HttpBodyReader.Read | src/http_source.rs:149-181 | counts what it delivers, and end of file is an error until the expected size has come |
| Retry.ReadAll | src/http_source.rs:149-181 | a body that is cut short or breaks never reads as whole, however it is divided |
| FilesystemSource.FilesystemSource.ScanPending | src/source.rs:183-305 | lists exactly the deliveries that are valid, not acknowledged and alone under their id, and says of every path what is found there; every other manifest is a complaint |
| FilesystemSource.ManifestByManifest | src/source.rs:183-305 | path by path: links and unreadable manifests are complaints, as are unacceptable metadata and markers that do not fit; a delivery with its own marker is not listed; an acceptable one without a marker is, unless its id is used again |
| FilesystemSource.FilesystemSource.Acknowledge | src/source.rs:336-416 | succeeds exactly for a valid id and digest with no conflicting marker, found or published meanwhile by another process, and no write fault; an existing marker is never changed |
| FilesystemSource.AcknowledgedIsNotListed | src/source.rs:241-262 | once a marker exists the delivery is not listed again, and the listing of all others is unchanged |
| FilesystemSource.SortingPaths | src/source.rs:217-217 | manifests are visited in the order of their names, each of them |
| Folders.NormalizeAbsolutePath | src/desktop.rs:4695-4716 | fails exactly for relative paths and for those that climb above the root at some point; else it is where the walk ends |
| Folders.WalkPlain | src/desktop.rs:4695-4716 | a normalized path is its own normal form |
| Folders.WalkAppend | src/desktop.rs:4695-4716 | walks compose |
| Folders.OverlapIsIntersection | src/desktop.rs:981-983 | two paths overlap exactly when their subtrees have a path in common |
| Folders.ResourceProblemIsSymmetric | src/desktop.rs:906-979 | the conflict found does not depend on the order of the Folders |
| Folders.ResourceProblemIsExact | src/desktop.rs:906-979 | no conflict is found exactly when no place, device id or receive queue is shared |
| Folders.SelfProblemIsExact | src/desktop.rs:875-904 | no conflict is found exactly when inbox and directory state stay out of the library and the state file out of library and inbox |
| FolderStore.OwnPlacesApart | src/desktop.rs:529-549 | for a valid configuration that leaves no overlap among a Folder's own places, unless a link leads its state file into its directory state |
| FolderStore.FitsMeans | src/desktop.rs:809-834 | a candidate fits exactly if its configuration is tidy and shares no place, device or server queue with any other, all of which can be read |
| FolderStore.AddingKeepsApart | src/desktop.rs:3874-3877 | registering a Folder that fits keeps all Folders apart |
| FolderStore.ReplacingKeepsApart | src/desktop.rs:3914-3919 | replacing a configuration that fits beside the others keeps all Folders apart |
| FolderStore.Store.EnsureResourcesUnique | src/desktop.rs:809-834 | accepts exactly a candidate that fits beside every readable other Folder, with none unreadable |
| FolderStore.Store.CreateBridge | src/desktop.rs:3833-3879 | refused without effect unless creatable; registers only what fits under the lock, whatever others did in between; never overwrites a configuration |
| FolderStore.Store.ImportConfig | src/desktop.rs:768-807 | registers an existing configuration exactly when it fits |
| FolderStore.Store.UpdateBridge | src/desktop.rs:3881-3926 | goes ahead exactly for a connected Folder whose new server is permitted and fits; either file may be old or new after a write fault, nothing else changes |
| FolderStore.Store.RemoveBridge | src/desktop.rs:3986-4000 | goes ahead exactly for a readable Folder that is unscoped, disconnected or exited |
| FolderStore.Store.SetConnection | src/desktop/connection.rs:60-131 | changing the connection state keeps all Folders apart |
| FolderStore.Store.AnyHistory | src/desktop.rs:3833-3926 | after any history of creates, imports, edits, removals and failing writes, no two configurations share a library, inbox, state file, directory of state, device id or server queue, and none overlaps itself |

## Left out

- The relay server, the directory receiver and the directory sender: the relay is an
  environment with arbitrary replies, and directory transfer between inventories is a
  predicate on its result.
- User interface: widgets, dialogs, drawing, and the code that turns sync events into
  rows.
- HTTP, TLS, URL, JSON and TOML handling: decoded values are inputs; URL normalisation,
  the test for scoped credentials and the remaining configuration checks are function
  parameters (`FolderStore.Environment`).
- SHA-256: an arbitrary function of the content; only its answer's shape is assumed.
- Unicode lower-casing, trimming and the classification of MIME types in the file list:
  function parameters (`Files.Text`, `FilePages.Library`).
- File system detail: symbolic and hard links, permissions, inode flags and
  canonicalisation; paths are component sequences, and resolution of links is a
  parameter where Folders are compared.
- Process spawning, timeouts and signals of the wallpaper command: a launch with an
  outcome.
- Error messages: reduced to their kind.
- Clocks: time stamps are arbitrary numbers.
- Library lock and state lock inside one sync: a sync is one operation on the log; their
  interplay with retirement is in `CleanExit.dfy`.
- Pipeline.Folder.VerifyRecordedFile: the kinds of read errors are not distinguished.
- The sender's half of directory synchronisation during an exit, and a command-line
  directory receive that is pointed at a Folder's own state directory before it exists.
- Storage.CopyAndInspect: does not say which of several size errors is reported.
- Checks of upload names, upload URLs, timeouts and directory versions before sending:
  single branches.
- Upload.Session.Upload: a relay that never confirms a complete upload leaves the sender
  with an error; what is promised without loss is that all bytes are stored.
- Receiving.ReceiveFromInbox: a fault-free run is one in which the inbox accepts every
  acknowledgement, so no marker conflicts with a pending record.
- Retry.ReadAll: stands for the read loop of the store, reduced to byte counts.
- Progress.FileProgress.Save: announcements are modelled on their own and not woven into
  the pipeline's methods.
- FilesystemSource.FilesystemSource.Acknowledge: an acknowledgement directory that is not a
  directory, and a marker that disappears while it is compared.
- Publishing into an inbox (`enqueue`) and opening payloads: no property beyond
  inspection.
- Bridge selection, renaming rules and the registry's file format; forgetting receipts
  after a Folder is removed.
- Pairing, configuration defaults and the command line: single checks.
