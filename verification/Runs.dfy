/** Whole operations (src/sync.rs) and arbitrary histories of them. */
module Runs {
  import opened Wrappers
  import opened Utf8
  import opened Model
  import opened Storage
  import opened Protocol
  import opened Pipeline
  import opened Sync
  import opened Ordering
  import opened Wallpaper

  /** Everything about a record but its wallpaper entry. */
  predicate SameDelivery(a: DeliveryRecord, b: DeliveryRecord) {
    b == a.(wallpaperStatus := b.wallpaperStatus, wallpaperAttempts := b.wallpaperAttempts,
            wallpaperError := b.wallpaperError, importedAt := b.importedAt)
  }

  function AllRecovered(records: Records): Records {
    map id | id in records :: Recovered(records[id])
  }

  lemma RecoveryFacts(setup: Setup, records: Records)
    requires IdsMatch(records)
    ensures var m := AllRecovered(records);
            && IdsMatch(m) && Persists(records, m) && NewlyAcked(records, m) == {}
            && (Canonical(setup, records) ==> Canonical(setup, m))
  {
  }

  lemma BeganFacts(disk: Disk, w: World, mode: Mode)
    requires w.disk == disk
    ensures var w' := Step(w, Began(mode));
            w'.disk == disk && w'.mode == mode && QueueUntouched(w', disk.records)
  {
  }

  lemma OnlyStagingChanged(w: World, w': World, memory: Records)
    requires QueueUntouched(w, memory) && w' == w.(disk := w'.disk) && w'.disk.records == w.disk.records
    ensures QueueUntouched(w', memory)
  {
  }

  /** What reconciling acknowledgements means for the rest of the run. */
  lemma ReconciledFacts(setup: Setup, objects: map<Path, Bytes>, start: Records, before: Records, after: Records,
                        handled: set<string>, doubted: set<string>, calm: bool)
    requires IdsMatch(before) && Persists(start, before) && NewlyAcked(start, before) == {}
    requires AckFrame(before, after, PendingAcks(before)) && Verdicts(setup, objects, after, handled, doubted, calm)
    ensures IdsMatch(after) && Persists(start, after)
    ensures Canonical(setup, before) ==> Canonical(setup, after)
    ensures NewlyAcked(start, after) == NewlyAcked(before, after)
  {
    assert forall id :: id in NewlyAcked(start, before) <==> IsAcked(before, id) && !IsAcked(start, id);
  }

  lemma NewlyAckedAdds(a: Records, b: Records, c: Records)
    requires Persists(a, b) && Persists(b, c)
    ensures |NewlyAcked(a, c)| == |NewlyAcked(a, b)| + |NewlyAcked(b, c)|
  {
    assert NewlyAcked(a, c) == NewlyAcked(a, b) + NewlyAcked(b, c);
    assert NewlyAcked(a, b) * NewlyAcked(b, c) == {};
  }

  lemma JoinablePersists(start: Records, after: Records, d: Delivery)
    requires Persists(start, after)
    ensures Joinable(after, d) ==> Joinable(start, d)
    ensures d.id in start ==> Joinable(start, d) == Joinable(after, d)
  {
  }

  lemma QueueKeepsAcks(before: Records, after: Records)
    requires QueueFrame(before, after, before.Keys)
    ensures forall start :: NewlyAcked(start, after) == NewlyAcked(start, before)
    ensures Persists(before, after)
  {
    forall start ensures NewlyAcked(start, after) == NewlyAcked(start, before) {
      assert forall id :: IsAcked(after, id) == IsAcked(before, id);
    }
  }

  lemma QueueKeepsDelivered(setup: Setup, objects: map<Path, Bytes>, before: Records, after: Records, d: Delivery)
    requires QueueFrame(before, after, before.Keys) && ErrorsKept(setup, objects, before, after)
    requires Delivered(setup, objects, before, d)
    ensures Delivered(setup, objects, after, d) && SameDelivery(before[d.id], after[d.id])
  {
  }

  lemma ReconcilingKeepsDelivered(setup: Setup, objects: map<Path, Bytes>, start: Records, after: Records, d: Delivery)
    requires AckFrame(AllRecovered(start), after, PendingAcks(AllRecovered(start)))
    requires Joinable(start, d) ==> Delivered(setup, objects, start, d)
    ensures Joinable(after, d) == Joinable(start, d)
    ensures Joinable(start, d) ==> Delivered(setup, objects, after, d) && SameDelivery(start[d.id], after[d.id])
  {
    if Joinable(start, d) {
      assert d.id !in PendingAcks(AllRecovered(start));
    } else {
      assert d.id in AllRecovered(start);
    }
  }

  lemma StillNothingToDo(setup: Setup, objects: map<Path, Bytes>, start: Records, after: Records, listing: seq<Delivery>)
    requires AckFrame(AllRecovered(start), after, PendingAcks(AllRecovered(start)))
    requires NothingToDo(setup, objects, start, listing)
    ensures NothingToDo(setup, objects, after, listing)
  {
    forall d | d in listing && Joinable(after, d) ensures Delivered(setup, objects, after, d) {
      IdleAt(setup, objects, start, listing, d);
      ReconcilingKeepsDelivered(setup, objects, start, after, d);
    }
  }

  lemma SameMode(a: World, b: World)
    requires WorldFrame(a, b)
    ensures a.mode == b.mode
  {
  }

  /** The acknowledgement count of a whole run. */
  lemma Totals(start: Records, reconciled: Records, processed: Records, end: Records)
    requires Persists(start, reconciled) && Persists(reconciled, processed) && QueueFrame(processed, end, processed.Keys)
    requires IdsMatch(processed)
    ensures |NewlyAcked(start, end)| == |NewlyAcked(start, reconciled)| + |NewlyAcked(reconciled, processed)|
    ensures Persists(start, end) && IdsMatch(end)
  {
    NewlyAckedAdds(start, reconciled, processed);
    QueueKeepsAcks(processed, end);
  }

  lemma StillJoinable(start: Records, recovered: Records, reconciled: Records, d: Delivery)
    requires recovered == AllRecovered(start) && AckFrame(recovered, reconciled, PendingAcks(recovered))
    requires Joinable(start, d)
    ensures Joinable(reconciled, d)
  {
  }

  lemma SameDeliveryTransitive(a: Records, b: Records, c: Records, d: Delivery)
    requires d.id in a && d.id in b && d.id in c
    requires SameDelivery(a[d.id], b[d.id]) && SameDelivery(b[d.id], c[d.id])
    ensures SameDelivery(a[d.id], c[d.id])
  {
  }

  /** Deliveries that could not be repaired because the source did not list them. */
  method ReportUnrepaired(summary: SyncSummary, ids: set<string>) returns (s: SyncSummary)
    ensures s == summary.(failures := s.failures) && summary.failures <= s.failures
    ensures |s.failures| == |summary.failures| + |ids|
    ensures forall id | id in ids :: SyncFailure(id, NotListed) in s.failures
    ensures forall i | |summary.failures| <= i < |s.failures| :: s.failures[i].item in ids && s.failures[i].message == NotListed
  {
    var order := Enumerate(ids);
    s := summary;
    for i := 0 to |order|
      invariant s == summary.(failures := s.failures) && summary.failures <= s.failures
      invariant |s.failures| == |summary.failures| + i
      invariant forall j | 0 <= j < i :: s.failures[|summary.failures| + j] == SyncFailure(order[j], NotListed)
    {
      s := s.(failures := s.failures + [SyncFailure(order[i], NotListed)]);
    }
    forall id | id in ids ensures SyncFailure(id, NotListed) in s.failures {
      var j :| 0 <= j < |order| && order[j] == id;
      assert s.failures[|summary.failures| + j] == SyncFailure(id, NotListed);
    }
    forall i | |summary.failures| <= i < |s.failures| ensures s.failures[i].item in ids && s.failures[i].message == NotListed {
      assert s.failures[i] == s.failures[|summary.failures| + (i - |summary.failures|)];
      assert order[i - |summary.failures|] in order;
    }
  }

  lemma FailuresGrow(before: seq<SyncFailure>, after: seq<SyncFailure>, id: string)
    requires before <= after && HasFailure(before, id)
    ensures HasFailure(after, id)
  {
    var i :| 0 <= i < |before| && before[i].item == id;
    assert after[i].item == id;
  }

  lemma IssuesReported(earlier: seq<SyncFailure>, issues: seq<SyncFailure>, reported: seq<SyncFailure>, failures: seq<SyncFailure>)
    requires reported == earlier + issues && reported <= failures
    ensures forall issue | issue in issues :: issue in failures
  {
    assert forall i | 0 <= i < |issues| :: failures[|earlier| + i] == issues[i];
  }

  lemma AccountedGrows(counted: nat, before: seq<SyncFailure>, after: seq<SyncFailure>, listing: seq<Delivery>, missed: set<string>)
    requires Accounted(counted, before, listing, |listing|, missed) && before <= after
    ensures Accounted(counted, after, listing, |listing|, missed)
  {
    forall id | id in missed ensures HasFailure(after, id) {
      FailuresGrow(before, after, id);
    }
  }

  /** Memory, disk and summary when everything before the scan is done. */
  ghost predicate Reconciled(setup: Setup, before: Disk, w: World, m: Records, handled: set<string>, doubted: set<string>,
                             calm: bool, s: SyncSummary) {
    && !before.retired && !w.disk.retired && w.disk.objects == before.objects
    && w.disk.records == m && QueueUntouched(w, m) && w.mode == Automatic
    && IdsMatch(m) && Persists(before.records, m)
    && Verdicts(setup, w.disk.objects, m, handled, doubted, calm) && handled !! doubted
    && handled + doubted == PendingAcks(AllRecovered(before.records)) && RefusalsReported(m, handled, s.failures)
    && AckFrame(AllRecovered(before.records), m, PendingAcks(AllRecovered(before.records)))
    && (Canonical(setup, before.records) ==> Canonical(setup, m))
    && Counted(s) == 0 && s.acknowledged == |NewlyAcked(before.records, m)|
  }

  /** Everything before the scan: staging cleanup, interrupted commands, pending acknowledgements. */
  method Prepare(f: Folder)
    returns (r: Result<SyncSummary, Problem>, m: Records, handled: set<string>, repairNeeded: set<string>)
    requires f.Valid() && !f.disk.retired && IdsMatch(f.disk.records)
    modifies f`disk, f`log
    ensures f.Valid() && old(f.log) <= f.log && !f.disk.retired && f.disk.objects == old(f.disk.objects)
    ensures f.calm ==> r.Ok?
    ensures r.Ok? ==> Reconciled(f.setup, old(f.disk), f.Now(), m, handled, repairNeeded, f.calm, r.value)
  {
    hide Legal, Replay, Saveable, QueueUntouched, RecordMove, Faithful, Step, WorldFrame, Canonical, NewlyAcked, IdsMatch,
      Verdicts, Persists, AckFrame, PendingAcks, Recovered, RefusalsReported;
    ghost var start := f.disk.records;
    m, handled, repairNeeded := f.disk.records, {}, {};
    BeganFacts(f.disk, f.Now(), Automatic);
    f.Emit(Began(Automatic));
    ghost var w := f.Now();
    var cleaned := f.CleanupStaging();
    OnlyStagingChanged(w, f.Now(), m);
    if cleaned.Err? {
      return Err(cleaned.error), m, handled, repairNeeded;
    }
    var s := EMPTY_SUMMARY.(staleStagingFilesRemoved := cleaned.value);
    var ok;
    RecoveryFacts(f.setup, m);
    ok, m := ReconcileInterruptedWallpapers(f, m);
    if !ok {
      return Err(SaveFailed), m, handled, repairNeeded;
    }
    ghost var recovered, w1 := m, f.Now();
    ok, m, s, handled, repairNeeded := ReconcilePendingAcks(f, m, s);
    if !ok {
      return Err(SaveFailed), m, handled, repairNeeded;
    }
    SameMode(w1, f.Now());
    ReconciledFacts(f.setup, f.disk.objects, start, recovered, m, handled, repairNeeded, f.calm);
    r := Ok(s);
  }

  /** The new records are those of listed deliveries, and carry what these announced. */
  ghost predicate Announced(before: Records, after: Records, listing: seq<Delivery>) {
    && (forall id | id in after && id !in before :: exists d :: d in listing && d.id == id)
    && forall d | d in listing && d.id !in before && d.id in after ::
         var r := after[d.id];
         && r.id == d.id && r.originalName == d.originalName && r.sourceCreatedAt == d.createdAt
         && r.sha256 == d.sha256 && r.size == d.size && r.mediaType == d.mediaType
  }

  /** Where each wallpaper entry stands after a sync: an acknowledged image never waits, and others keep their status. */
  predicate Tended(before: Records, after: Records, hasCommand: bool) {
    forall id | id in after :: TendedEntry(before, after, id, hasCommand)
  }

  predicate TendedEntry(before: Records, after: Records, id: string, hasCommand: bool)
    requires id in after
  {
    var (was, r) := (if id in before then before[id].wallpaperStatus else Pending, after[id]);
    if r.mediaType !in {Png, Jpeg, Gif, Webp, Avif} then r.wallpaperStatus == NotApplicable
    else
      match was
      case Pending | NotConfigured =>
        if r.deliveryStatus == AckPending then r.wallpaperStatus == was
        else if hasCommand then r.wallpaperStatus in {Applied, Failed, Uncertain}
        else r.wallpaperStatus == NotConfigured
      case Running => r.wallpaperStatus == Uncertain
      case _ => r.wallpaperStatus == was
  }

  /**
   What becomes of a delivery whose acknowledgement was pending and that the source does
   not list. It is acknowledged again; or the source refuses, which is recorded and
   reported; or its file failed verification, and then it is reported as not listed and so
   not repaired. A damaged file always ends in that report.
   */
  ghost predicate LeftPending(setup: Setup, calm: bool, saved: bool, before: Disk, after: Records, listing: seq<Delivery>,
                              failures: seq<SyncFailure>) {
    forall id | id in before.records && before.records[id].deliveryStatus == AckPending
                && forall d | d in listing :: d.id != id ::
      && (!Verifies(setup, before.objects, before.records[id]) ==> SyncFailure(id, NotListed) in failures)
      && (saved ==> id in after && PendingOutcome(id, after[id], failures))
      && (saved && calm ==>
            (after[id].deliveryStatus == Acknowledged <==> Verifies(setup, before.objects, before.records[id])))
  }

  predicate PendingOutcome(id: string, r: DeliveryRecord, failures: seq<SyncFailure>) {
    match r.deliveryStatus
    case Acknowledged => true
    case AckPending =>
      || (r.deliveryError == Some(AckFailed) && SyncFailure(id, AckFailed) in failures)
      || (r.deliveryError == Some(FileDamaged) && SyncFailure(id, NotListed) in failures)
  }

  /**
   What a completed sync has done. The clauses say, in order: each listed delivery is
   counted once or reported; every issue of the source is reported; when saves hold,
   `acknowledged` counts the records that turned Acknowledged on disk, nothing is
   forgotten, new records say what was announced, and no wallpaper entry waits for the
   command; a pending delivery that the source does not list is confirmed or reported; an
   undisturbed run delivers everything that can be delivered; and when everything already
   is, it receives and repairs nothing and changes no delivery.
   */
  ghost predicate Effects(setup: Setup, payload: string -> Bytes, calm: bool, savesHold: bool, before: Disk, after: Disk,
                          listing: seq<Delivery>, issues: seq<SyncFailure>, hasCommand: bool, s: SyncSummary, missed: set<string>) {
    && Accounted(Counted(s), s.failures, listing, |listing|, missed)
    && (forall issue | issue in issues :: issue in s.failures)
    && (calm || savesHold ==>
          && s.acknowledged == |NewlyAcked(before.records, after.records)|
          && Persists(before.records, after.records) && IdsMatch(after.records)
          && Announced(before.records, after.records, listing) && Tended(before.records, after.records, hasCommand))
    && LeftPending(setup, calm, calm || savesHold, before, after.records, listing, s.failures)
    && (calm && Canonical(setup, before.records) && Honest(setup, payload, before.objects, before.records, listing) ==>
          forall d | d in listing && Joinable(before.records, d) :: Delivered(setup, after.objects, after.records, d))
    && (calm && NothingToDo(setup, before.objects, before.records, listing) ==>
          && s.received == 0 && s.repaired == 0 && after.objects == before.objects
          && forall d | d in listing && Joinable(before.records, d) ::
               d.id in before.records && d.id in after.records && SameDelivery(before.records[d.id], after.records[d.id]))
  }

  /** One synchronisation. `listing` is what the source answers to the scan, if it answers. */
  method SyncOnce(f: Folder, listing: Option<seq<Delivery>>, issues: seq<SyncFailure>, hasCommand: bool)
    returns (r: Result<SyncSummary, Problem>, ghost missed: set<string>)
    requires f.Valid() && (listing.Some? ==> DistinctIds(listing.value))
    modifies f`disk, f`log
    ensures f.Valid() && old(f.log) <= f.log && f.disk.retired == old(f.disk.retired)
    ensures old(f.disk.retired) ==> r.Err? && f.log == old(f.log)
    ensures f.calm && !old(f.disk.retired) && IdsMatch(old(f.disk.records)) && listing.Some? ==> r.Ok?
    ensures r.Ok? ==>
              listing.Some? && Effects(f.setup, f.payload, f.calm, f.savesHold, old(f.disk), f.disk, listing.value, issues,
                                       hasCommand, r.value, missed)
  {
    hide Legal, Replay, Faithful, IdsMatch, Reconciled, Effects, DistinctIds;
    missed := {};
    if f.disk.retired {
      return Err(FolderRetired), missed;
    }
    if !IdsMatch(f.disk.records) {
      return Err(StateUnreadable), missed;
    }
    ghost var before := f.disk;
    var prepared, m, handled, repairNeeded := Prepare(f);
    if prepared.Err? {
      return Err(prepared.error), missed;
    }
    if listing.None? {
      return Err(ScanFailed), missed;
    }
    r, missed := SyncListed(f, before, prepared.value, m, handled, repairNeeded, listing.value, issues, hasCommand);
  }

  /** After the listing: report what could not be repaired, and run the wallpaper queue. */
  method Conclude(f: Folder, memory: Records, summary: SyncSummary, repairNeeded: set<string>, hasCommand: bool)
    returns (ok: bool, m: Records, s: SyncSummary)
    requires f.Valid() && !f.disk.retired && Saveable(f.setup, f.Now(), memory) && QueueUntouched(f.Now(), memory)
    requires f.Now().mode == Automatic
    modifies f`disk, f`log
    ensures f.Valid() && old(f.log) <= f.log && f.disk == old(f.disk).(records := f.disk.records)
    ensures f.calm || f.savesHold ==> ok
    ensures ok && old(f.disk.records) == memory ==> f.disk.records == m
    ensures QueueFrame(memory, m, memory.Keys) && (f.calm ==> ErrorsKept(f.setup, f.disk.objects, memory, m))
    ensures ok ==> Served(memory, m, Automatic, hasCommand)
    ensures forall id | id in repairNeeded :: SyncFailure(id, NotListed) in s.failures
    ensures summary.failures <= s.failures && s.acknowledged == summary.acknowledged
    ensures s.received == summary.received && s.repaired == summary.repaired && s.alreadyStored == summary.alreadyStored
  {
    hide Legal, Replay, Saveable, QueueUntouched, RecordMove, Faithful, Step, Verifies, QueueFrame, ErrorsKept, Served,
      QueueOrder, LaunchOrder, LaunchedIds, EnteredAll, LegacyNonImages, RetireAll, Candidates;
    s := ReportUnrepaired(summary, repairNeeded);
    ghost var reported := s.failures;
    ghost var order, taken;
    ok, m, s, order, taken := ProcessWallpaperQueue(f, memory, Automatic, s, hasCommand);
    FailuresStay(reported, s.failures, repairNeeded);
  }

  lemma FailuresStay(before: seq<SyncFailure>, after: seq<SyncFailure>, ids: set<string>)
    requires before <= after && forall id | id in ids :: SyncFailure(id, NotListed) in before
    ensures forall id | id in ids :: SyncFailure(id, NotListed) in after
  {
    forall id | id in ids ensures SyncFailure(id, NotListed) in after {
      assert SyncFailure(id, NotListed) in before;
    }
  }

  /** The part of a sync that follows the scan. `before` is the disk at its beginning. */
  method SyncListed(f: Folder, ghost before: Disk, prepared: SyncSummary, memory: Records, handled: set<string>,
                    doubted: set<string>, listing: seq<Delivery>, issues: seq<SyncFailure>, hasCommand: bool)
    returns (r: Result<SyncSummary, Problem>, ghost missed: set<string>)
    requires f.Valid() && DistinctIds(listing) && Reconciled(f.setup, before, f.Now(), memory, handled, doubted, f.calm, prepared)
    modifies f`disk, f`log
    ensures f.Valid() && old(f.log) <= f.log && !f.disk.retired
    ensures f.calm || f.savesHold ==> r.Ok?
    ensures r.Ok? ==>
              Effects(f.setup, f.payload, f.calm, f.savesHold, before, f.disk, listing, issues, hasCommand, r.value, missed)
  {
    hide Served, RecordedUpTo, Announced, Tended, LeftPending, RefusalsReported, Due, Treated;
    hide Legal, Replay, Saveable, QueueUntouched, RecordMove, Faithful, Step, WorldFrame, ContentPath, Verifies, Deliverable,
      Canonical, Accounted, Honest, Delivered, NewlyAcked, Joinable, NothingToDo, IdsMatch, Verdicts, Persists, IsAcked,
      AckFrame, PendingAcks, QueueFrame, ErrorsKept, SameDelivery, Recovered, DistinctIds;
    ghost var objects, start, w := before.objects, before.records, f.Now();
    var s := prepared.(failures := prepared.failures + issues);
    ghost var reported := s.failures;
    ghost var converging := f.calm && Canonical(f.setup, start) && Honest(f.setup, f.payload, objects, start, listing);
    ghost var idle := f.calm && NothingToDo(f.setup, objects, start, listing);
    if converging {
      StillHonest(f.setup, f.payload, objects, start, memory, listing);
    }
    if idle {
      StillNothingToDo(f.setup, objects, start, memory, listing);
    }
    HandledOnly(f.setup, f.disk.objects, memory, handled, doubted, f.calm);
    var m, repairNeeded;
    m, s, repairNeeded, missed := ProcessListing(f, memory, s, listing, handled, doubted);
    ghost var failures, processed := s.failures, m;
    SameMode(w, f.Now());
    var ok;
    ok, m, s := Conclude(f, m, s, repairNeeded, hasCommand);
    if !ok {
      return Err(SaveFailed), missed;
    }
    r := Ok(s);
    AccountedGrows(Counted(s), failures, s.failures, listing, missed);
    IssuesReported(prepared.failures, issues, reported, s.failures);
    Totals(start, memory, processed, m);
    NewAreAnnounced(start, memory, processed, m, listing, hasCommand);
    TendedFinally(start, memory, processed, m, listing, hasCommand);
    PendingSettled(f.setup, before, memory, processed, m, handled, doubted, repairNeeded, f.calm, hasCommand, listing,
                   prepared.failures, s.failures);
    PendingOnDisk(f.setup, f.calm, f.calm || f.savesHold, before, m, f.disk.records, listing, s.failures);
    if converging {
      ConvergedFinally(f.setup, f.disk.objects, start, memory, processed, m, listing);
    }
    if idle {
      IdleFinally(f.setup, objects, start, memory, m, listing);
    }
  }

  lemma HandledOnly(setup: Setup, objects: map<Path, Bytes>, records: Records, handled: set<string>, doubted: set<string>, calm: bool)
    requires Verdicts(setup, objects, records, handled, doubted, calm)
    ensures Verdicts(setup, objects, records, handled, {}, calm)
  {
  }

  lemma NewAreAnnounced(start: Records, reconciled: Records, processed: Records, end: Records, listing: seq<Delivery>,
                        hasCommand: bool)
    requires AckFrame(AllRecovered(start), reconciled, PendingAcks(AllRecovered(start)))
    requires RecordedUpTo(reconciled, processed, listing, |listing|) && QueueFrame(processed, end, processed.Keys)
    ensures Announced(start, end, listing)
  {
    hide PendingAcks, Recovered;
    RecordedDone(reconciled, processed, listing);
    assert reconciled.Keys == AllRecovered(start).Keys == start.Keys;
  }

  /** How one entry fares from the loaded state to the end of the queue. */
  lemma TendedFinally(start: Records, reconciled: Records, processed: Records, end: Records, listing: seq<Delivery>,
                      hasCommand: bool)
    requires AckFrame(AllRecovered(start), reconciled, PendingAcks(AllRecovered(start)))
    requires Persists(reconciled, processed)
    requires RecordedUpTo(reconciled, processed, listing, |listing|) && Served(processed, end, Automatic, hasCommand)
    ensures Tended(start, end, hasCommand)
  {
    hide PendingAcks, RecordedUpTo, AckFrame, Served, Recovered, Persists, QueuedAs, TendedEntry;
    RecordedDone(reconciled, processed, listing);
    ReconciledKeys(start, reconciled);
    ServedKeys(processed, end, hasCommand);
    forall id | id in end ensures TendedEntry(start, end, id, hasCommand) {
      ServedEntry(processed, end, hasCommand, id);
      if id in start {
        ReconciledEntry(start, reconciled, id);
        PersistsAt(reconciled, processed, id);
      } else {
        var d :| d in listing && d.id == id;
      }
      EntryTended(start, processed, end, hasCommand, id);
    }
  }

  lemma ReconciledKeys(start: Records, reconciled: Records)
    requires AckFrame(AllRecovered(start), reconciled, PendingAcks(AllRecovered(start)))
    ensures reconciled.Keys == start.Keys
  {
    assert AllRecovered(start).Keys == start.Keys;
  }

  lemma ReconciledEntry(start: Records, reconciled: Records, id: string)
    requires AckFrame(AllRecovered(start), reconciled, PendingAcks(AllRecovered(start))) && id in start
    ensures id in reconciled && reconciled[id].mediaType == start[id].mediaType
    ensures reconciled[id].wallpaperStatus == if start[id].wallpaperStatus == Running then Uncertain else start[id].wallpaperStatus
  {
    assert id in AllRecovered(start);
  }

  lemma PersistsAt(before: Records, after: Records, id: string)
    requires Persists(before, after) && id in before
    ensures id in after && after[id].mediaType == before[id].mediaType
  {
  }

  lemma ServedKeys(before: Records, after: Records, hasCommand: bool)
    requires Served(before, after, Automatic, hasCommand)
    ensures after.Keys == before.Keys
  {
  }

  /** What the automatic queue makes of one entry, by its status. */
  predicate QueuedAs(a: DeliveryRecord, b: DeliveryRecord, hasCommand: bool) {
    && b.mediaType == a.mediaType && b.deliveryStatus == a.deliveryStatus
    && if a.mediaType !in {Png, Jpeg, Gif, Webp, Avif} then b.wallpaperStatus == NotApplicable
       else if a.deliveryStatus == Acknowledged && a.wallpaperStatus in {Pending, NotConfigured} then
         b.wallpaperStatus in (if hasCommand then {Applied, Failed, Uncertain} else {NotConfigured})
       else b.wallpaperStatus == a.wallpaperStatus
  }

  lemma ServedEntry(before: Records, after: Records, hasCommand: bool, id: string)
    requires Served(before, after, Automatic, hasCommand) && id in before
    ensures id in after && QueuedAs(before[id], after[id], hasCommand)
  {
  }

  lemma EntryTended(start: Records, processed: Records, end: Records, hasCommand: bool, id: string)
    requires id in processed && id in end && QueuedAs(processed[id], end[id], hasCommand)
    requires id in start ==>
               processed[id].wallpaperStatus == if start[id].wallpaperStatus == Running then Uncertain else start[id].wallpaperStatus
    requires id !in start ==>
               processed[id].wallpaperStatus == if processed[id].mediaType in {Png, Jpeg, Gif, Webp, Avif} then Pending else NotApplicable
    ensures TendedEntry(start, end, id, hasCommand)
  {
  }

  /** The pending deliveries that are not listed, from reconciliation to the end of the sync. */
  lemma PendingSettled(setup: Setup, before: Disk, reconciled: Records, processed: Records, end: Records, handled: set<string>,
                       doubted: set<string>, unrepaired: set<string>, calm: bool, hasCommand: bool, listing: seq<Delivery>,
                       early: seq<SyncFailure>, failures: seq<SyncFailure>)
    requires AckFrame(AllRecovered(before.records), reconciled, PendingAcks(AllRecovered(before.records)))
    requires Verdicts(setup, before.objects, reconciled, handled, doubted, calm)
    requires handled + doubted == PendingAcks(AllRecovered(before.records)) && RefusalsReported(reconciled, handled, early)
    requires RecordedUpTo(reconciled, processed, listing, |listing|) && Served(processed, end, Automatic, hasCommand)
    requires forall id :: id in unrepaired <==> id in doubted && forall j | 0 <= j < |listing| :: listing[j].id != id
    requires early <= failures && forall id | id in unrepaired :: SyncFailure(id, NotListed) in failures
    ensures LeftPending(setup, calm, true, before, end, listing, failures)
  {
    hide PendingAcks, RecordedUpTo, Served, Verifies, Verdicts, RefusalsReported, AckFrame, Recovered;
    RecordedDone(reconciled, processed, listing);
    forall id | id in before.records && before.records[id].deliveryStatus == AckPending && forall d | d in listing :: d.id != id
      ensures !Verifies(setup, before.objects, before.records[id]) ==> SyncFailure(id, NotListed) in failures
      ensures id in end && PendingOutcome(id, end[id], failures)
      ensures calm ==> (end[id].deliveryStatus == Acknowledged <==> Verifies(setup, before.objects, before.records[id]))
    {
      assert SameAt(reconciled, processed, id);
      assert id in doubted && (forall j | 0 <= j < |listing| :: listing[j] in listing) ==> id in unrepaired;
      VerdictOn(setup, before, reconciled, handled, doubted, calm, early, id);
      QueueLeavesPending(processed, end, hasCommand, id);
    }
  }

  /** What reconciliation decided about one pending delivery. */
  lemma VerdictOn(setup: Setup, before: Disk, reconciled: Records, handled: set<string>, doubted: set<string>, calm: bool,
                  early: seq<SyncFailure>, id: string)
    requires AckFrame(AllRecovered(before.records), reconciled, PendingAcks(AllRecovered(before.records)))
    requires Verdicts(setup, before.objects, reconciled, handled, doubted, calm)
    requires handled + doubted == PendingAcks(AllRecovered(before.records)) && RefusalsReported(reconciled, handled, early)
    requires id in before.records && before.records[id].deliveryStatus == AckPending
    ensures id in reconciled && (id in handled || id in doubted)
    ensures id in handled ==> Verifies(setup, before.objects, before.records[id])
    ensures id in doubted && calm ==> !Verifies(setup, before.objects, before.records[id])
    ensures id in doubted ==> reconciled[id].deliveryStatus == AckPending && reconciled[id].deliveryError == Some(FileDamaged)
    ensures id in handled && reconciled[id].deliveryStatus == AckPending ==>
              reconciled[id].deliveryError == Some(AckFailed) && SyncFailure(id, AckFailed) in early
    ensures id in handled && calm ==> reconciled[id].deliveryStatus == Acknowledged
  {
    assert id in AllRecovered(before.records);
    assert id in PendingAcks(AllRecovered(before.records));
  }

  /** The queue neither acknowledges a delivery nor touches one that is still pending. */
  lemma QueueLeavesPending(before: Records, after: Records, hasCommand: bool, id: string)
    requires Served(before, after, Automatic, hasCommand) && id in before
    ensures id in after && after[id].deliveryStatus == before[id].deliveryStatus
    ensures before[id].deliveryStatus == AckPending ==> after[id].deliveryError == before[id].deliveryError
  {
  }

  /** What was shown of memory holds of the disk when saves hold. */
  lemma PendingOnDisk(setup: Setup, calm: bool, saved: bool, before: Disk, m: Records, after: Records, listing: seq<Delivery>,
                      failures: seq<SyncFailure>)
    requires LeftPending(setup, calm, true, before, m, listing, failures) && (saved ==> after == m)
    ensures LeftPending(setup, calm, saved, before, after, listing, failures)
  {
    hide Verifies, PendingOutcome;
  }

  /** Reconciliation adds and removes no record, so what can be had stays so. */
  lemma StillHonest(setup: Setup, payload: string -> Bytes, objects: map<Path, Bytes>, start: Records, reconciled: Records,
                    listing: seq<Delivery>)
    requires Honest(setup, payload, objects, start, listing)
    requires AckFrame(AllRecovered(start), reconciled, PendingAcks(AllRecovered(start)))
    ensures Honest(setup, payload, objects, reconciled, listing)
  {
    hide Genuine, Unobstructed, PendingAcks, Recovered;
    assert reconciled.Keys == AllRecovered(start).Keys == start.Keys;
    forall i | 0 <= i < |listing| ensures Deliverable(setup, objects, reconciled, listing[i], payload(listing[i].id)) {
      assert Deliverable(setup, objects, start, listing[i], payload(listing[i].id));
    }
  }

  lemma ConvergedFinally(setup: Setup, objects: map<Path, Bytes>, start: Records, reconciled: Records, processed: Records,
                         end: Records, listing: seq<Delivery>)
    requires AckFrame(AllRecovered(start), reconciled, PendingAcks(AllRecovered(start)))
    requires forall d | d in listing && Joinable(reconciled, d) :: Delivered(setup, objects, processed, d)
    requires QueueFrame(processed, end, processed.Keys) && ErrorsKept(setup, objects, processed, end)
    ensures forall d | d in listing && Joinable(start, d) :: Delivered(setup, objects, end, d)
  {
    hide Joinable, Delivered, AckFrame, QueueFrame, ErrorsKept, PendingAcks, Recovered, SameDelivery;
    forall d | d in listing && Joinable(start, d) ensures Delivered(setup, objects, end, d) {
      StillJoinable(start, AllRecovered(start), reconciled, d);
      QueueKeepsDelivered(setup, objects, processed, end, d);
    }
  }

  lemma IdleFinally(setup: Setup, objects: map<Path, Bytes>, start: Records, reconciled: Records, end: Records,
                    listing: seq<Delivery>)
    requires AckFrame(AllRecovered(start), reconciled, PendingAcks(AllRecovered(start)))
    requires NothingToDo(setup, objects, start, listing)
    requires QueueFrame(reconciled, end, reconciled.Keys) && ErrorsKept(setup, objects, reconciled, end)
    ensures forall d | d in listing && Joinable(start, d) ::
              d.id in start && d.id in end && SameDelivery(start[d.id], end[d.id])
  {
    hide Joinable, AckFrame, QueueFrame, ErrorsKept, PendingAcks, Recovered, SameDelivery, NothingToDo;
    forall d | d in listing && Joinable(start, d)
      ensures d.id in start && d.id in end && SameDelivery(start[d.id], end[d.id])
    {
      IdleAt(setup, objects, start, listing, d);
      ReconcilingKeepsDelivered(setup, objects, start, reconciled, d);
      QueueKeepsDelivered(setup, objects, reconciled, end, d);
      SameDeliveryTransitive(start, reconciled, end, d);
    }
  }

  datatype RetrySummary = RetrySummary(
    attempted: nat, applied: nat, notConfigured: nat, skippedUncertain: nat, failures: seq<SyncFailure>)

  /** Entries whose last command did not end cleanly, recorded as such or not yet. */
  function Interrupted(records: Records): set<string> {
    set id | id in records && records[id].wallpaperStatus in {Uncertain, Running}
  }

  /** The entries that an explicit retry attempts; an interrupted command counts as an uncertain one. */
  function Retried(records: Records, includeUncertain: bool): set<string> {
    set id | id in records && records[id].deliveryStatus == Acknowledged
          && records[id].mediaType in {Png, Jpeg, Gif, Webp, Avif}
          && (|| records[id].wallpaperStatus in {Pending, NotConfigured, Failed}
              || (includeUncertain && records[id].wallpaperStatus in {Uncertain, Running}))
  }

  /** What an explicit retry leaves: every entry it attempted has an outcome, and the others are as they were. */
  predicate AfterRetry(before: Records, after: Records, includeUncertain: bool, hasCommand: bool) {
    && after.Keys == before.Keys
    && forall id | id in before ::
         var a := if before[id].wallpaperStatus == Running
                  then before[id].(wallpaperStatus := Uncertain, wallpaperError := Some(CommandInterrupted))
                  else before[id];
         if a.mediaType !in {Png, Jpeg, Gif, Webp, Avif} then after[id] == WithoutEntry(a)
         else if id in Retried(before, includeUncertain) then Treated(a, after[id], hasCommand)
         else after[id] == a
  }

  /** Starting from recovered records, the queue of a retry takes up exactly the entries to be retried. */
  lemma RetriedAreDue(before: Records, includeUncertain: bool)
    ensures var m := AllRecovered(before);
            forall id | id in before :: Due(ExplicitRetry(includeUncertain), m[id]) == (id in Retried(before, includeUncertain))
  {
  }

  lemma RetryServed(before: Records, after: Records, includeUncertain: bool, hasCommand: bool)
    requires Served(AllRecovered(before), after, ExplicitRetry(includeUncertain), hasCommand)
    ensures AfterRetry(before, after, includeUncertain, hasCommand)
  {
    hide Due, Treated, Retried;
    RetriedAreDue(before, includeUncertain);
    forall id | id in before
      ensures AllRecovered(before)[id] == if before[id].wallpaperStatus == Running
                then before[id].(wallpaperStatus := Uncertain, wallpaperError := Some(CommandInterrupted))
                else before[id]
    {
    }
  }

  lemma RetryCount(before: Records, includeUncertain: bool, order: seq<Key>)
    requires var m := AllRecovered(before);
             QueueOrder(RetireAll(m, LegacyNonImages(m)), ExplicitRetry(includeUncertain), order)
    ensures |order| == |Retried(before, includeUncertain)|
  {
    hide Due, Retried, Candidates, LegacyNonImages, RetireAll, QueueOrder;
    var m := AllRecovered(before);
    var open := RetireAll(m, LegacyNonImages(m));
    CandidatesAreDue(m, ExplicitRetry(includeUncertain));
    RetriedAreDue(before, includeUncertain);
    RetriedHaveRecords(before, includeUncertain);
    assert Candidates(open, ExplicitRetry(includeUncertain)) == Retried(before, includeUncertain);
    QueueLength(open, ExplicitRetry(includeUncertain), order);
  }

  lemma RetriedHaveRecords(before: Records, includeUncertain: bool)
    ensures Retried(before, includeUncertain) <= before.Keys
  {
  }

  lemma QueueLength(records: Records, mode: Mode, order: seq<Key>)
    requires QueueOrder(records, mode, order)
    ensures |order| == |Candidates(records, mode)|
  {
  }

  /** The user asks for wallpaper commands to be tried again. */
  method RetryWallpapers(f: Folder, includeUncertain: bool, hasCommand: bool) returns (r: Result<RetrySummary, Problem>)
    requires f.Valid()
    modifies f`disk, f`log
    ensures f.Valid() && old(f.log) <= f.log && f.disk.objects == old(f.disk.objects)
    ensures old(f.disk.retired) ==> r.Err? && f.log == old(f.log)
    ensures (f.calm || f.savesHold) && !old(f.disk.retired) && IdsMatch(old(f.disk.records)) ==> r.Ok?
    ensures r.Ok? ==> r.value.skippedUncertain == if includeUncertain then 0 else |Interrupted(old(f.disk.records))|
    ensures r.Ok? ==> r.value.attempted == r.value.applied + r.value.notConfigured + |r.value.failures|
    ensures r.Ok? ==> r.value.attempted == |Retried(old(f.disk.records), includeUncertain)|
    ensures r.Ok? ==> AfterRetry(old(f.disk.records), f.disk.records, includeUncertain, hasCommand)
  {
    hide Legal, Replay, Saveable, QueueUntouched, RecordMove, Faithful, Step, QueueFrame, ErrorsKept, Served, QueueOrder,
      LaunchOrder, LaunchedIds, EnteredAll, HowMany, LegacyNonImages, RetireAll, Candidates, AfterRetry, Retried, Due, OldestFirst;
    if f.disk.retired {
      return Err(FolderRetired);
    }
    if !IdsMatch(f.disk.records) {
      return Err(StateUnreadable);
    }
    var m := f.disk.records;
    BeganFacts(f.disk, f.Now(), ExplicitRetry(includeUncertain));
    f.Emit(Began(ExplicitRetry(includeUncertain)));
    var ok;
    ok, m := ReconcileInterruptedWallpapers(f, m);
    if !ok {
      return Err(SaveFailed);
    }
    var uncertain := set id | id in m && m[id].wallpaperStatus == Uncertain;
    assert uncertain == Interrupted(old(f.disk.records));
    SyncedIsSaveable(f.setup, f.Now());
    var s;
    ghost var open := m;
    ghost var order, taken;
    ok, m, s, order, taken := ProcessWallpaperQueue(f, m, ExplicitRetry(includeUncertain), EMPTY_SUMMARY, hasCommand);
    if !ok {
      return Err(SaveFailed);
    }
    CountersAddUp(Converted(EMPTY_SUMMARY, open), m, order);
    RetryServed(old(f.disk.records), m, includeUncertain, hasCommand);
    RetryCount(old(f.disk.records), includeUncertain, order);
    r := Ok(RetrySummary(s.wallpaperApplied + s.wallpaperNotConfigured + |s.failures|, s.wallpaperApplied,
                         s.wallpaperNotConfigured, if includeUncertain then 0 else |uncertain|, s.failures));
  }

  /**
   Two undisturbed runs over the same listing, from records that point at their own
   places. If everything listed can be had, the first delivers all that no record bars,
   repairing missing and damaged files, and the second receives and repairs nothing and
   changes no delivery. `between` is the disk after the first.
   */
  method SyncTwice(f: Folder, listing: seq<Delivery>, hasCommand: bool)
    returns (first: Result<SyncSummary, Problem>, second: Result<SyncSummary, Problem>, ghost between: Disk)
    requires f.Valid() && f.calm && !f.disk.retired && DistinctIds(listing)
    requires Canonical(f.setup, f.disk.records) && IdsMatch(f.disk.records)
    modifies f`disk, f`log
    ensures f.Valid() && first.Ok? && second.Ok?
    ensures Honest(f.setup, f.payload, old(f.disk.objects), old(f.disk.records), listing) ==>
              && second.value.received == 0 && second.value.repaired == 0
              && Converged(f.setup, old(f.disk.records), between, f.disk, listing)
  {
    hide Legal, Replay, Faithful, Accounted, Canonical, Honest, NewlyAcked, IdsMatch, DistinctIds, SameDelivery,
      Delivered, Joinable, Persists, NothingToDo, Candidates;
    ghost var start, objects := f.disk.records, f.disk.objects;
    ghost var missed;
    first, missed := SyncOnce(f, Some(listing), [], hasCommand);
    between := f.disk;
    second, missed := SyncOnce(f, Some(listing), [], hasCommand);
    if Honest(f.setup, f.payload, objects, start, listing) {
      NothingLeft(f.setup, between.objects, start, between.records, listing);
      forall d | d in listing && Joinable(start, d)
        ensures d.id in between.records && d.id in f.disk.records && SameDelivery(between.records[d.id], f.disk.records[d.id])
        ensures Delivered(f.setup, f.disk.objects, f.disk.records, d)
      {
        DeliveredJoins(f.setup, between.objects, between.records, d);
        SameIsDelivered(f.setup, between.objects, between.records, f.disk.records, d);
      }
    }
  }

  /** After the first run everything deliverable is delivered, and the second leaves files and deliveries alone. */
  predicate Converged(setup: Setup, start: Records, between: Disk, end: Disk, listing: seq<Delivery>) {
    && end.objects == between.objects
    && forall d | d in listing && Joinable(start, d) ::
         && Delivered(setup, between.objects, between.records, d) && Delivered(setup, end.objects, end.records, d)
         && d.id in between.records && d.id in end.records
         && SameDelivery(between.records[d.id], end.records[d.id])
  }

  /**
   The source serves what it lists, the listing gives one digest one size, and so does
   the store: a file that stands where a new delivery belongs has the announced size.
   */
  predicate Promised(setup: Setup, payload: string -> Bytes, disk: Disk, listing: seq<Delivery>) {
    && (forall d | d in listing :: Genuine(setup, d, payload(d.id)))
    && SizesAgree(listing)
    && forall d | d in listing && d.id !in disk.records ::
         var place := Place(setup, d); place.Some? && place.value in disk.objects ==> |disk.objects[place.value]| == d.size
  }

  /** On a sound disk, a new delivery finds its place free or filled by a fitting file exactly if the size there is right. */
  lemma SoundnessLeavesTheSize(setup: Setup, disk: Disk, d: Delivery)
    requires SoundDisk(setup, disk)
    ensures var place := Place(setup, d);
            Unobstructed(setup, disk.objects, d) <==>
              (place.Some? && place.value in disk.objects ==> |disk.objects[place.value]| == d.size)
  {
  }

  /** On a sound disk the promise is all that delivery needs. */
  lemma PromiseSuffices(setup: Setup, payload: string -> Bytes, disk: Disk, listing: seq<Delivery>)
    requires SoundDisk(setup, disk)
    ensures Promised(setup, payload, disk, listing) <==> Honest(setup, payload, disk.objects, disk.records, listing)
  {
    hide Genuine, Unobstructed, SoundDisk, ContentPath, SizesAgree;
    forall d | d in listing && d.id !in disk.records
      ensures var place := Place(setup, d);
              Unobstructed(setup, disk.objects, d) <==>
                (place.Some? && place.value in disk.objects ==> |disk.objects[place.value]| == d.size)
    {
      SoundnessLeavesTheSize(setup, disk, d);
    }
    if Honest(setup, payload, disk.objects, disk.records, listing) {
      forall d | d in listing ensures Deliverable(setup, disk.objects, disk.records, d, payload(d.id)) {
        var i :| 0 <= i < |listing| && listing[i] == d;
        assert Deliverable(setup, disk.objects, disk.records, listing[i], payload(listing[i].id));
      }
    }
    if Promised(setup, payload, disk, listing) {
      forall i | 0 <= i < |listing| ensures Deliverable(setup, disk.objects, disk.records, listing[i], payload(listing[i].id)) {
        assert listing[i] in listing;
      }
    }
  }

  /**
   Convergence. After any history of syncs, retries and crashes on a sheltered Folder
   that began sound, objects missing or not: if nothing fails from now on and the source
   keeps its promise, one sync delivers every listed delivery that no record bars, and a
   second one has nothing left to do.
   */
  method Converge(f: Folder, listing: seq<Delivery>, hasCommand: bool)
    returns (first: Result<SyncSummary, Problem>, second: Result<SyncSummary, Problem>, ghost between: Disk)
    requires f.Valid() && f.setup.sheltered && SoundDisk(f.setup, f.initial)
    requires f.calm && !f.disk.retired && DistinctIds(listing)
    modifies f`disk, f`log
    ensures f.Valid() && first.Ok? && second.Ok?
    ensures Promised(f.setup, f.payload, old(f.disk), listing) ==>
              && second.value.received == 0 && second.value.repaired == 0
              && Converged(f.setup, old(f.disk.records), between, f.disk, listing)
  {
    hide Legal, Replay, Faithful, Honest, DistinctIds, Promised, StoreSound, Canonical, IdsMatch, Converged;
    StaysSound(f.setup, f.initial, f.log);
    PromiseSuffices(f.setup, f.payload, f.disk, listing);
    first, second, between := SyncTwice(f, listing, hasCommand);
  }

  /** The two put together: a history, and then convergence. `start` is the disk that the history leaves. */
  method HistoryConverges(f: Folder, operations: nat, listing: seq<Delivery>, hasCommand: bool)
    returns (done: Option<SyncSummary>, ghost start: Disk, ghost between: Disk)
    requires f.Valid() && f.log == [] && f.setup.sheltered && SoundDisk(f.setup, f.initial) && DistinctIds(listing)
    modifies f
    ensures f.Valid() && (done.None? ==> f.disk.retired) && SoundDisk(f.setup, start)
    ensures done.Some? && Promised(f.setup, f.payload, start, listing) ==>
              && done.value.received == 0 && done.value.repaired == 0
              && Converged(f.setup, start.records, between, f.disk, listing)
  {
    hide Legal, Replay, Faithful, DistinctIds, Promised, SoundDisk, Converged;
    AnyHistory(f, operations);
    start, between := f.disk, f.disk;
    if f.disk.retired {
      return None, start, between;
    }
    f.calm := true;
    var first, second;
    first, second, between := Converge(f, listing, hasCommand);
    done := Some(second.value);
  }

  lemma NothingLeft(setup: Setup, objects: map<Path, Bytes>, start: Records, after: Records, listing: seq<Delivery>)
    requires Persists(start, after)
    requires forall d | d in listing && Joinable(start, d) :: Delivered(setup, objects, after, d)
    ensures NothingToDo(setup, objects, after, listing)
  {
    forall d | d in listing && Joinable(after, d) ensures Delivered(setup, objects, after, d) {
      JoinablePersists(start, after, d);
    }
  }

  lemma DeliveredJoins(setup: Setup, objects: map<Path, Bytes>, records: Records, d: Delivery)
    requires Delivered(setup, objects, records, d)
    ensures Joinable(records, d) && d.id in records
  {
  }

  lemma SameIsDelivered(setup: Setup, objects: map<Path, Bytes>, before: Records, after: Records, d: Delivery)
    requires Delivered(setup, objects, before, d) && d.id in after && SameDelivery(before[d.id], after[d.id])
    ensures Delivered(setup, objects, after, d)
  {
  }

  /**
   Any number of operations in any order: syncs against any listing, explicit
   retries, process deaths inside the latest operation, retirement, and outside
   changes to the library. Whatever fails on the way, the theorems about legal logs
   hold of what happened.
   */
  method AnyHistory(f: Folder, operations: nat)
    requires f.Valid() && f.log == []
    modifies f
    ensures f.Valid()
    ensures forall n | 0 <= n < |f.log| && f.log[n].Acked? ::
              AckedAfterVerification(f.setup, Replay(Start(f.initial), f.log[..n]).disk, f.log[n])
    ensures forall n | 0 <= n < |f.log| && f.log[n].Launched? ::
              LaunchedAfterVerification(f.setup, Replay(Start(f.initial), f.log[..n]).disk, f.log[n])
    ensures forall id :: Launches(f.log, id) <= 1 + Retries(f.log)
    ensures forall i, j | 0 <= i < j < |f.log| && f.log[i].Launched? && f.log[j] == f.log[i] ::
              exists k :: i < k < j && f.log[k].Began? && f.log[k].mode.ExplicitRetry?
    ensures f.setup.sheltered && SoundDisk(f.setup, f.initial) ==> SoundDisk(f.setup, f.disk)
  {
    hide SoundDisk;
    for i := 0 to operations
      invariant f.Valid()
    {
      f.calm, f.savesHold := *, *;
      var before := |f.log|;
      var choice: int := *;
      var hasCommand: bool := *;
      if choice == 0 {
        var listing: Option<seq<Delivery>> := *;
        if listing.Some? && !DistinctIds(listing.value) {
          listing := None; // no source lists an id twice
        }
        var issues: seq<SyncFailure> := *;
        var _, _ := SyncOnce(f, listing, issues, hasCommand);
      } else if choice == 1 {
        var includeUncertain: bool := *;
        var _ := RetryWallpapers(f, includeUncertain, hasCommand);
      } else if choice == 2 {
        f.Emit(Retired);
      } else if choice == 3 && !f.setup.sheltered {
        var objects: map<Path, Bytes> := *;
        f.Emit(Disturbed(objects));
      }
      var died: bool := *;
      var kept: int := *;
      if died && before <= kept <= |f.log| {
        f.Crash(kept);
      }
    }
    forall n | 0 <= n < |f.log| && f.log[n].Acked?
      ensures AckedAfterVerification(f.setup, Replay(Start(f.initial), f.log[..n]).disk, f.log[n])
    {
      AckSafety(f.setup, Start(f.initial), f.log, n);
    }
    forall n | 0 <= n < |f.log| && f.log[n].Launched?
      ensures LaunchedAfterVerification(f.setup, Replay(Start(f.initial), f.log[..n]).disk, f.log[n])
    {
      LaunchSafety(f.setup, f.initial, f.log, n);
    }
    if f.setup.sheltered && SoundDisk(f.setup, f.initial) {
      StaysSound(f.setup, f.initial, f.log);
    }
    forall i, j | 0 <= i < j < |f.log| && f.log[i].Launched? && f.log[j] == f.log[i]
      ensures exists k :: i < k < j && f.log[k].Began? && f.log[k].mode.ExplicitRetry?
    {
      RelaunchNeedsRetry(f.setup, f.initial, f.log, f.log[i].id, i, j);
    }
    forall id ensures Launches(f.log, id) <= 1 + Retries(f.log) {
      LaunchBudget(f.setup, f.initial, f.log, id);
    }
  }
}
