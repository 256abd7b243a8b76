/** The wallpaper queue (src/sync.rs) and the launch of its command (src/wallpaper.rs). */
module Wallpaper {
  import opened Wrappers
  import opened Utf8
  import opened Model
  import opened Storage
  import opened Protocol
  import opened Pipeline
  import opened Ordering
  import opened Sync

  /** Memory and disk hold the same wallpaper entries. */
  predicate EntriesAgree(records: Records, memory: Records) {
    forall id | id in records :: id in memory && SameWallpaper(records[id], memory[id])
  }

  /** A change that the queue makes: the wallpaper fields, and the error noted or cleared on verification. */
  predicate WallpaperEdit(a: DeliveryRecord, b: DeliveryRecord) {
    b == a.(wallpaperStatus := b.wallpaperStatus, wallpaperAttempts := b.wallpaperAttempts,
            wallpaperError := b.wallpaperError, importedAt := b.importedAt, deliveryError := b.deliveryError)
  }

  predicate QueueFrame(before: Records, after: Records, ids: set<string>) {
    && after.Keys == before.Keys
    && forall id | id in before :: WallpaperEdit(before[id], after[id]) && (id !in ids ==> after[id] == before[id])
  }

  lemma EditEntry(setup: Setup, w: World, memory: Records, id: string, r: DeliveryRecord)
    requires Saveable(setup, w, memory) && EntriesAgree(w.disk.records, memory)
    requires id in memory && id in w.disk.records && WallpaperEdit(memory[id], r)
    requires WallpaperMove(w, id, memory[id], r)
    ensures Saveable(setup, w, memory[id := r])
  {
    assert RecordMove(setup, w, id, w.disk.records[id], memory[id]);
    UpdateSaveable(setup, w, memory, id, r);
  }

  /** After the save, at most this entry is armed: exactly when it became Running. */
  lemma SavedEntry(w: World, memory: Records, id: string, r: DeliveryRecord)
    requires EntriesAgree(w.disk.records, memory) && id in memory && id in w.disk.records && w.armed <= {id}
    ensures var m := memory[id := r];
            var w' := Step(w, Saved(m));
            && w'.armed == (if r.wallpaperStatus == Running
                               && (id in w.armed || memory[id].wallpaperStatus != Running) then {id} else {})
            && w.moved <= w'.moved <= w.moved + {id} && w'.fired == w.fired && w'.mode == w.mode
            && w'.disk == w.disk.(records := m)
  {
    var m := memory[id := r];
    assert TakenUp(w, m) <= {id};
    if r.wallpaperStatus == Running && (id in w.armed || memory[id].wallpaperStatus != Running) {
      assert StillArmed(w, m) == {id};
    } else {
      assert StillArmed(w, m) == {};
    }
  }

  method SaveEntry(f: Folder, memory: Records, id: string, r: DeliveryRecord) returns (ok: bool, m: Records)
    requires f.Valid() && !f.disk.retired && Saveable(f.setup, f.Now(), memory)
    requires EntriesAgree(f.disk.records, memory) && f.Now().armed <= {id}
    requires id in memory && id in f.disk.records && WallpaperEdit(memory[id], r)
    requires WallpaperMove(f.Now(), id, memory[id], r)
    modifies f`disk, f`log
    ensures m == memory[id := r]
    ensures f.Valid() && old(f.log) <= f.log && f.disk == old(f.disk).(records := f.disk.records)
    ensures ok ==> f.disk.records == m && f.Now().mode == old(f.Now().mode) && f.Now().fired == old(f.Now().fired)
                   && f.Now().moved <= old(f.Now().moved) + {id}
                   && f.Now().armed == (if r.wallpaperStatus == Running
                        && (id in old(f.Now().armed) || memory[id].wallpaperStatus != Running) then {id} else {})
    ensures f.calm || f.savesHold ==> ok
    ensures LaunchedIds(f.log) == LaunchedIds(old(f.log))
  {
    hide Legal, Replay, Saveable, RecordMove, Faithful, WallpaperMove, WallpaperEdit, EntriesAgree, Step, LaunchedIds;
    m := memory[id := r];
    EditEntry(f.setup, f.Now(), memory, id, r);
    SavedEntry(f.Now(), memory, id, r);
    LaunchedStep(f.log, Saved(m));
    ok := f.Save(m);
  }

  /** Which entries the command was launched for, in order. */
  function LaunchedIds(log: seq<Event>): seq<string> {
    if log == [] then []
    else
      var front, last := LaunchedIds(log[..|log| - 1]), log[|log| - 1];
      if last.Launched? then front + [last.id] else front
  }

  lemma LaunchedStep(log: seq<Event>, e: Event)
    ensures LaunchedIds(log + [e]) == LaunchedIds(log) + if e.Launched? then [e.id] else []
  {
    assert (log + [e])[..|log|] == log;
  }

  datatype Outcome = CommandApplied | NothingConfigured | CommandError(uncertain: bool)

  /** Run the command for an entry whose Running status is durable. */
  method Apply(f: Folder, id: string, hasCommand: bool) returns (o: Outcome)
    requires f.Valid() && Allowed(f.setup, f.Now(), Launched(id)) && f.Now().armed == {id}
    modifies f`disk, f`log
    ensures f.Valid() && old(f.log) <= f.log && f.disk == old(f.disk)
    ensures f.Now() == old(f.Now()) || f.Now() == Step(old(f.Now()), Launched(id))
    ensures o.CommandApplied? ==> f.Now() == Step(old(f.Now()), Launched(id))
    ensures o.NothingConfigured? <==> !hasCommand
    ensures o.NothingConfigured? ==> f.Now() == old(f.Now())
    ensures o.CommandApplied? || o == CommandError(true) ==> LaunchedIds(f.log) == LaunchedIds(old(f.log)) + [id]
    ensures LaunchedIds(f.log) == LaunchedIds(old(f.log)) || LaunchedIds(f.log) == LaunchedIds(old(f.log)) + [id]
  {
    hide LaunchedIds;
    LaunchedStep(f.log, Launched(id));
    if !hasCommand {
      return NothingConfigured;
    }
    var started: bool := *; // the deadline may overflow, the spawn may fail
    if !started {
      return CommandError(false);
    }
    f.Emit(Launched(id));
    var success: bool := *;
    var uncertain: bool := *; // timed out and killed, or could not be waited for
    o := if success then CommandApplied else CommandError(uncertain);
  }

  function Queued(r: DeliveryRecord, status: WallpaperStatus, error: Option<Problem>): DeliveryRecord {
    r.(wallpaperStatus := status, wallpaperError := error)
  }

  function Attempted(r: DeliveryRecord): DeliveryRecord {
    r.(deliveryError := None, wallpaperStatus := Running, wallpaperError := None,
       wallpaperAttempts := if r.wallpaperAttempts < MAX_ATTEMPTS then r.wallpaperAttempts + 1 else r.wallpaperAttempts)
  }

  function AfterCommand(r: DeliveryRecord, o: Outcome, now: nat): DeliveryRecord {
    match o
    case CommandApplied => Queued(r, Applied, None).(importedAt := Some(now))
    case NothingConfigured => r.(wallpaperStatus := NotConfigured)
    case CommandError(uncertain) => Queued(r, if uncertain then Uncertain else Failed, Some(CommandFailed))
  }

  /** What becomes of a candidate: every field is accounted for. */
  predicate Treated(a: DeliveryRecord, b: DeliveryRecord, hasCommand: bool) {
    if !hasCommand then b == a.(wallpaperStatus := NotConfigured, wallpaperError := None)
    else
      || b == a.(wallpaperStatus := Failed, wallpaperError := Some(FileDamaged), deliveryError := Some(FileDamaged))
      || (&& b == a.(wallpaperStatus := b.wallpaperStatus, wallpaperError := b.wallpaperError, importedAt := b.importedAt,
                     deliveryError := None, wallpaperAttempts := b.wallpaperAttempts)
          && b.wallpaperAttempts == (if a.wallpaperAttempts < 0xFFFF_FFFF then a.wallpaperAttempts + 1 else a.wallpaperAttempts)
          && (|| (b.wallpaperStatus == Applied && b.wallpaperError == None && b.importedAt.Some?)
              || (&& b.wallpaperStatus in {Failed, Uncertain} && b.wallpaperError == Some(CommandFailed)
                  && b.importedAt == a.importedAt)))
  }

  /** An entry that the queue takes up: of an acknowledged image, and in a status that the mode asks for. */
  predicate Due(mode: Mode, r: DeliveryRecord) {
    && r.deliveryStatus == Acknowledged && r.mediaType in {Png, Jpeg, Gif, Webp, Avif}
    && match mode
       case Automatic => r.wallpaperStatus in {Pending, NotConfigured}
       case ExplicitRetry(true) => r.wallpaperStatus in {Pending, NotConfigured, Failed, Uncertain}
       case ExplicitRetry(false) => r.wallpaperStatus in {Pending, NotConfigured, Failed}
  }

  /** The record without a wallpaper entry, which only images have. */
  function WithoutEntry(r: DeliveryRecord): DeliveryRecord {
    if r.wallpaperStatus == NotApplicable then r
    else r.(wallpaperStatus := NotApplicable, wallpaperError := None, importedAt := None)
  }

  /** The summary with one candidate entered under what became of it. */
  function Entered(s: SyncSummary, id: string, b: DeliveryRecord): SyncSummary {
    match b.wallpaperStatus
    case Applied => s.(wallpaperApplied := s.wallpaperApplied + 1)
    case NotConfigured => s.(wallpaperNotConfigured := s.wallpaperNotConfigured + 1)
    case _ => s.(failures := s.failures + [SyncFailure(id, if b.wallpaperError.Some? then b.wallpaperError.value else CommandFailed)])
  }

  lemma CommandTreats(a: DeliveryRecord, o: Outcome, now: nat, s: SyncSummary, id: string)
    ensures var b := AfterCommand(Attempted(a), o, now);
            && (!o.NothingConfigured? ==> Treated(a, b, true))
            && Entered(s, id, b) == match o
                 case CommandApplied => s.(wallpaperApplied := s.wallpaperApplied + 1)
                 case NothingConfigured => s.(wallpaperNotConfigured := s.wallpaperNotConfigured + 1)
                 case _ => s.(failures := s.failures + [SyncFailure(id, CommandFailed)])
  {
  }

  lemma AttemptMoves(w: World, id: string, r: DeliveryRecord)
    requires Eligible(w.mode, r.wallpaperStatus) && id !in w.moved && r.deliveryStatus == Acknowledged
    ensures WallpaperMove(w, id, r, Attempted(r)) && r.wallpaperStatus != Running
  {
  }

  lemma MayLaunch(setup: Setup, w: World, id: string)
    requires !w.disk.retired && w.armed == {id} && id in w.disk.records
    requires var r := w.disk.records[id];
             && r.wallpaperStatus == Running && r.deliveryStatus == Acknowledged
             && IsImageMediaType(r.mediaType) && Verifies(setup, w.disk.objects, r)
    ensures Allowed(setup, w, Launched(id))
  {
  }

  lemma LaunchFacts(w: World, id: string)
    ensures var w' := Step(w, Launched(id));
            w'.disk == w.disk && w'.mode == w.mode && w'.moved == w.moved && w'.armed == w.armed - {id} && id in w'.fired
  {
  }

  lemma OutcomeMoves(w: World, w': World, id: string, r: DeliveryRecord, o: Outcome, now: nat)
    requires r.wallpaperStatus == Running && w.armed == {id}
    requires w' == w || w' == Step(w, Launched(id))
    requires o.CommandApplied? ==> w' == Step(w, Launched(id))
    requires o.NothingConfigured? ==> w' == w
    ensures WallpaperMove(w', id, r, AfterCommand(r, o, now)) && WallpaperEdit(r, AfterCommand(r, o, now))
  {
  }

  lemma OneEntry(memory: Records, id: string, r: DeliveryRecord)
    requires id in memory && WallpaperEdit(memory[id], r)
    ensures QueueFrame(memory, memory[id := r], {id})
  {
  }

  /** Make Running durable, launch, and record the outcome. */
  method Launch(f: Folder, memory: Records, summary: SyncSummary, id: string, hasCommand: bool)
    returns (ok: bool, m: Records, s: SyncSummary)
    requires f.Valid() && !f.disk.retired && Saveable(f.setup, f.Now(), memory)
    requires EntriesAgree(f.disk.records, memory) && f.Now().armed == {} && id !in f.Now().moved
    requires id in memory && id in f.disk.records && IsImageMediaType(memory[id].mediaType)
    requires memory[id].deliveryStatus == Acknowledged && Eligible(f.Now().mode, memory[id].wallpaperStatus)
    requires Verifies(f.setup, f.disk.objects, memory[id])
    modifies f`disk, f`log
    ensures f.Valid() && old(f.log) <= f.log && f.disk == old(f.disk).(records := f.disk.records)
    ensures QueueFrame(memory, m, {id}) && m[id].deliveryError == None
    ensures ok ==> (hasCommand ==> Treated(memory[id], m[id], true)) && s == Entered(summary, id, m[id])
    ensures LaunchedIds(f.log) == LaunchedIds(old(f.log)) || LaunchedIds(f.log) == LaunchedIds(old(f.log)) + [id]
    ensures ok && (m[id].wallpaperStatus.Applied? || m[id].wallpaperStatus.Uncertain?) ==>
              LaunchedIds(f.log) == LaunchedIds(old(f.log)) + [id]
    ensures ok ==> f.disk.records == m && f.Now().mode == old(f.Now().mode) && f.Now().armed == {}
                   && f.Now().moved <= old(f.Now().moved) + {id}
    ensures f.calm || f.savesHold ==> ok
    ensures SummaryGrows(summary, s)
  {
    hide Legal, Replay, Saveable, RecordMove, Faithful, EntriesAgree, Verifies, WallpaperMove, Step, Allowed, QueueFrame,
      LaunchedIds, Treated, Entered;
    s := summary;
    AttemptMoves(f.Now(), id, memory[id]);
    ok, m := SaveEntry(f, memory, id, Attempted(memory[id]));
    OneEntry(memory, id, Attempted(memory[id]));
    if !ok {
      return;
    }
    SyncedEntries(f.setup, f.Now());
    SameFile(f.setup, f.disk.objects, memory[id], m[id]);
    MayLaunch(f.setup, f.Now(), id);
    ghost var w := f.Now();
    var o := Apply(f, id, hasCommand);
    LaunchFacts(w, id);
    SyncedEntries(f.setup, f.Now());
    var now: nat := *;
    var r := AfterCommand(m[id], o, now);
    OutcomeMoves(w, f.Now(), id, m[id], o, now);
    CommandTreats(memory[id], o, now, s, id);
    OneEntry(memory, id, r);
    assert m[id := r] == memory[id := r];
    ok, m := SaveEntry(f, m, id, r);
    if ok {
      s := match o
        case CommandApplied => s.(wallpaperApplied := s.wallpaperApplied + 1)
        case NothingConfigured => s.(wallpaperNotConfigured := s.wallpaperNotConfigured + 1)
        case CommandError(_) => s.(failures := s.failures + [SyncFailure(id, CommandFailed)]);
    }
  }

  predicate SummaryGrows(a: SyncSummary, b: SyncSummary) {
    && b == a.(wallpaperApplied := b.wallpaperApplied, wallpaperNotConfigured := b.wallpaperNotConfigured,
               wallpaperNotApplicable := b.wallpaperNotApplicable, failures := b.failures)
    && a.failures <= b.failures
  }

  lemma SyncedEntries(setup: Setup, w: World)
    ensures Saveable(setup, w, w.disk.records) && EntriesAgree(w.disk.records, w.disk.records)
  {
  }

  lemma SameFile(setup: Setup, objects: map<Path, Bytes>, a: DeliveryRecord, b: DeliveryRecord)
    requires WallpaperEdit(a, b)
    ensures Verifies(setup, objects, a) == Verifies(setup, objects, b)
  {
  }

  // ------------------------------------------------------------------ the queue

  /** Take up one candidate: note that nothing is configured, or verify the file and launch. */
  method ProcessCandidate(f: Folder, memory: Records, summary: SyncSummary, id: string, hasCommand: bool)
    returns (ok: bool, m: Records, s: SyncSummary)
    requires f.Valid() && !f.disk.retired && Saveable(f.setup, f.Now(), memory)
    requires EntriesAgree(f.disk.records, memory) && f.Now().armed == {} && id !in f.Now().moved
    requires id in memory && id in f.disk.records && IsImageMediaType(memory[id].mediaType)
    requires memory[id].deliveryStatus == Acknowledged && Eligible(f.Now().mode, memory[id].wallpaperStatus)
    modifies f`disk, f`log
    ensures f.Valid() && old(f.log) <= f.log && f.disk == old(f.disk).(records := f.disk.records)
    ensures QueueFrame(memory, m, {id})
    ensures ok ==> f.disk.records == m && f.Now().mode == old(f.Now().mode) && f.Now().armed == {}
                   && f.Now().moved <= old(f.Now().moved) + {id}
    ensures f.calm || f.savesHold ==> ok
    ensures f.calm && Verifies(f.setup, f.disk.objects, memory[id]) ==>
              m[id].deliveryError == None || m[id].deliveryError == memory[id].deliveryError
    ensures SummaryGrows(summary, s)
    ensures ok ==> Treated(memory[id], m[id], hasCommand) && s == Entered(summary, id, m[id])
    ensures LaunchedIds(f.log) == LaunchedIds(old(f.log)) || LaunchedIds(f.log) == LaunchedIds(old(f.log)) + [id]
    ensures ok && (m[id].wallpaperStatus.Applied? || m[id].wallpaperStatus.Uncertain?) ==>
              LaunchedIds(f.log) == LaunchedIds(old(f.log)) + [id]
  {
    hide Legal, Replay, Saveable, RecordMove, Faithful, EntriesAgree, Verifies, WallpaperMove, Step, QueueFrame, LaunchedIds, Attempted;
    s := summary;
    if !hasCommand {
      var r := Queued(memory[id], NotConfigured, None);
      CandidateMoves(f.Now(), id, memory[id], r);
      OneEntry(memory, id, r);
      ok, m := SaveEntry(f, memory, id, r);
      if ok {
        s := s.(wallpaperNotConfigured := s.wallpaperNotConfigured + 1);
      }
      return;
    }
    var verified, _ := f.VerifyRecordedFile(memory[id]);
    if !verified {
      var r := Queued(memory[id], Failed, Some(FileDamaged)).(deliveryError := Some(FileDamaged));
      CandidateMoves(f.Now(), id, memory[id], r);
      OneEntry(memory, id, r);
      ok, m := SaveEntry(f, memory, id, r);
      if ok {
        s := s.(failures := s.failures + [SyncFailure(id, FileDamaged)]);
      }
      return;
    }
    ok, m, s := Launch(f, memory, s, id, hasCommand);
  }

  lemma CandidateMoves(w: World, id: string, r: DeliveryRecord, r': DeliveryRecord)
    requires Eligible(w.mode, r.wallpaperStatus) && id !in w.moved && r.deliveryStatus == Acknowledged
    requires r'.wallpaperStatus in {NotConfigured, Failed}
    requires r'.wallpaperAttempts == r.wallpaperAttempts && r'.deliveryStatus == r.deliveryStatus
    ensures WallpaperMove(w, id, r, r')
  {
  }

  function Candidates(records: Records, mode: Mode): set<string> {
    set id | id in records && records[id].deliveryStatus == Acknowledged && Eligible(mode, records[id].wallpaperStatus)
  }

  function QueueKey(records: Records, id: string): Key
    requires id in records
  {
    (if records[id].sourceCreatedAt.Some? then records[id].sourceCreatedAt.value else records[id].receivedAt, id)
  }

  /** The candidates of these records, each once, oldest first, ties broken by id. */
  ghost predicate QueueOrder(records: Records, mode: Mode, order: seq<Key>) {
    && Sorted(order) && |order| == |Candidates(records, mode)|
    && (forall k <- order :: k.1 in records)
    && (forall k :: k in order <==> k.1 in Candidates(records, mode) && k == QueueKey(records, k.1))
    && forall i, j | 0 <= i < j < |order| :: order[i].1 != order[j].1
  }

  method SortCandidates(records: Records, mode: Mode) returns (order: seq<Key>)
    ensures QueueOrder(records, mode, order)
  {
    var ids := Enumerate(Candidates(records, mode));
    assert forall i | 0 <= i < |ids| :: ids[i] in ids;
    var keys := KeysOf(records, ids);
    order := Sort(keys);
    SortedQueue(records, mode, ids);
  }

  lemma SortedQueue(records: Records, mode: Mode, ids: seq<string>)
    requires (forall x :: x in ids <==> x in Candidates(records, mode)) && |ids| == |Candidates(records, mode)|
    requires forall i, j | 0 <= i < j < |ids| :: ids[i] != ids[j]
    requires forall i | 0 <= i < |ids| :: ids[i] in records
    ensures QueueOrder(records, mode, Sort(KeysOf(records, ids)))
  {
    hide Sort, Sorted, KeysOf, QueueKey;
    var keys := KeysOf(records, ids);
    KeysOfFacts(records, ids);
    SortSorts(keys);
    SortKeeps(keys);
    var order := Sort(keys);
    assert forall k | k in order :: k in keys;
    hide Candidates;
    forall i, j | 0 <= i < j < |order| ensures order[i].1 != order[j].1 {
      assert order[i] in order && order[j] in order;
    }
  }

  function KeysOf(records: Records, ids: seq<string>): (keys: seq<Key>)
    requires forall i | 0 <= i < |ids| :: ids[i] in records
    ensures |keys| == |ids| && forall i | 0 <= i < |ids| :: keys[i] == QueueKey(records, ids[i])
  {
    seq(|ids|, i requires 0 <= i < |ids| => QueueKey(records, ids[i]))
  }

  lemma KeysOfFacts(records: Records, ids: seq<string>)
    requires forall i | 0 <= i < |ids| :: ids[i] in records
    requires forall i, j | 0 <= i < j < |ids| :: ids[i] != ids[j]
    ensures var keys := KeysOf(records, ids);
            && |keys| == |ids| && (forall k :: k in keys <==> k.1 in ids && k == QueueKey(records, k.1))
            && forall i, j | 0 <= i < j < |keys| :: keys[i] != keys[j]
  {
    var keys := KeysOf(records, ids);
    forall k: Key | k.1 in ids && k == QueueKey(records, k.1) ensures k in keys {
      var i :| 0 <= i < |ids| && ids[i] == k.1;
      assert keys[i] == k;
    }
  }

  function LegacyNonImages(records: Records): set<string> {
    set id | id in records && !IsImageMediaType(records[id].mediaType) && records[id].wallpaperStatus != NotApplicable
  }

  function Elements(q: seq<string>): set<string> {
    set id | id in q
  }

  function Retire(r: DeliveryRecord): DeliveryRecord {
    r.(wallpaperStatus := NotApplicable, wallpaperError := None, importedAt := None)
  }

  function RetireAll(records: Records, ids: set<string>): Records {
    map id | id in records :: if id in ids then Retire(records[id]) else records[id]
  }

  /** The queue may start: nothing is armed, and only non-images were taken up. */
  predicate QueueOpen(w: World, memory: Records) {
    && w.armed == {} && EntriesAgree(w.disk.records, memory)
    && forall id | id in w.moved :: id in memory && !IsImageMediaType(memory[id].mediaType)
  }

  lemma RetireAllSaveable(setup: Setup, w: World, memory: Records)
    requires Saveable(setup, w, memory) && QueueUntouched(w, memory)
    ensures var m := RetireAll(memory, LegacyNonImages(memory));
            var w' := Step(w, Saved(m));
            && Saveable(setup, w, m)
            && QueueOpen(w', m) && w'.mode == w.mode && LegacyNonImages(m) == {}
  {
    var m := RetireAll(memory, LegacyNonImages(memory));
    forall id | id in w.disk.records ensures RecordMove(setup, w, id, w.disk.records[id], m[id]) {
      assert RecordMove(setup, w, id, w.disk.records[id], memory[id]);
    }
    assert StillArmed(w, m) == {};
  }

  /** Older states may hold wallpaper entries for files that are not images. */
  method ConvertNonImages(f: Folder, memory: Records, summary: SyncSummary)
    returns (ok: bool, m: Records, s: SyncSummary)
    requires f.Valid() && !f.disk.retired && Saveable(f.setup, f.Now(), memory) && QueueUntouched(f.Now(), memory)
    modifies f`disk, f`log
    ensures f.Valid() && old(f.log) <= f.log && f.disk == old(f.disk).(records := f.disk.records)
    ensures m == RetireAll(memory, LegacyNonImages(memory))
    ensures ok ==> Saveable(f.setup, f.Now(), m) && QueueOpen(f.Now(), m) && f.Now().mode == old(f.Now().mode)
    ensures ok && old(f.disk.records) == memory ==> f.disk.records == m
    ensures f.calm || f.savesHold ==> ok
    ensures s == summary.(wallpaperNotApplicable := summary.wallpaperNotApplicable + |LegacyNonImages(memory)|)
    ensures OnlyImagesKeepEntries(memory, m, LegacyNonImages(memory))
    ensures LaunchedIds(f.log) == LaunchedIds(old(f.log))
  {
    hide Legal, Replay, Saveable, RecordMove, Faithful, Step, QueueUntouched, QueueOpen, LaunchedIds, RetireAll, LegacyNonImages,
      OnlyImagesKeepEntries;
    var legacy := Enumerate(LegacyNonImages(memory));
    m, s := memory, summary;
    LegacyHaveEntries(memory);
    if legacy == [] {
      NothingToRetire(memory, legacy);
      OpenUntouched(f.Now(), memory);
      return true, m, s;
    }
    RetireAllSaveable(f.setup, f.Now(), memory);
    m, s := RetireEach(memory, summary, legacy);
    SavedIsSaveable(f.setup, f.Now(), m);
    LaunchedStep(f.log, Saved(m));
    ok := f.Save(m);
  }

  /** The loop over the entries that have to go. */
  method RetireEach(memory: Records, summary: SyncSummary, legacy: seq<string>) returns (m: Records, s: SyncSummary)
    requires forall id :: id in legacy <==> id in LegacyNonImages(memory)
    requires forall i, j | 0 <= i < j < |legacy| :: legacy[i] != legacy[j]
    ensures m == RetireAll(memory, LegacyNonImages(memory))
    ensures s == summary.(wallpaperNotApplicable := summary.wallpaperNotApplicable + |legacy|)
  {
    hide RetireAll, LegacyNonImages;
    m, s := memory, summary;
    RetireNone(memory);
    assert Elements(legacy) == LegacyNonImages(memory) && Elements(legacy[..0]) == {};
    for i := 0 to |legacy|
      invariant m == RetireAll(memory, Elements(legacy[..i]))
      invariant s == summary.(wallpaperNotApplicable := summary.wallpaperNotApplicable + i)
    {
      var id := legacy[i];
      assert id in legacy && id !in legacy[..i];
      RetireOne(memory, Elements(legacy[..i]), id);
      m := m[id := Retire(m[id])];
      assert Elements(legacy[..i + 1]) == Elements(legacy[..i]) + {id};
      s := s.(wallpaperNotApplicable := s.wallpaperNotApplicable + 1);
    }
    assert legacy[..|legacy|] == legacy;
  }

  lemma NothingToRetire(memory: Records, legacy: seq<string>)
    requires legacy == [] && forall id :: id in legacy <==> id in LegacyNonImages(memory)
    ensures LegacyNonImages(memory) == {} && RetireAll(memory, LegacyNonImages(memory)) == memory
  {
    assert LegacyNonImages(memory) == {};
    RetireNone(memory);
  }

  lemma RetireNone(memory: Records)
    ensures RetireAll(memory, {}) == memory
  {
  }

  lemma RetireOne(memory: Records, ids: set<string>, id: string)
    requires id in LegacyNonImages(memory) && id !in ids
    ensures id in memory && id in RetireAll(memory, ids)
    ensures var m := RetireAll(memory, ids); m[id := Retire(m[id])] == RetireAll(memory, ids + {id})
  {
  }

  /** The files that are no images lost their entries, and `converted` are those that had one. */
  ghost predicate OnlyImagesKeepEntries(before: Records, after: Records, converted: set<string>) {
    && after.Keys == before.Keys
    && (forall id | id in before ::
          after[id] == if before[id].mediaType in {Png, Jpeg, Gif, Webp, Avif} then before[id] else WithoutEntry(before[id]))
    && forall id :: id in converted <==>
         (id in before && before[id].mediaType !in {Png, Jpeg, Gif, Webp, Avif} && before[id].wallpaperStatus != NotApplicable)
  }

  lemma LegacyHaveEntries(memory: Records)
    ensures OnlyImagesKeepEntries(memory, RetireAll(memory, LegacyNonImages(memory)), LegacyNonImages(memory))
  {
  }

  lemma OpenUntouched(w: World, memory: Records)
    requires QueueUntouched(w, memory)
    ensures QueueOpen(w, memory)
  {
  }

  predicate ErrorsKept(setup: Setup, objects: map<Path, Bytes>, before: Records, after: Records) {
    forall id | id in before && id in after && Verifies(setup, objects, before[id]) ::
      after[id].deliveryError == None || after[id].deliveryError == before[id].deliveryError
  }

  /** The entries launched are candidates, taken from the oldest on. */
  ghost predicate LaunchOrder(records: Records, mode: Mode, ids: seq<string>) {
    && (forall i | 0 <= i < |ids| :: ids[i] in Candidates(records, mode))
    && forall i, j | 0 <= i < j < |ids| :: KeyLess(QueueKey(records, ids[i]), QueueKey(records, ids[j]))
  }

  /** Every entry that is due was dealt with, files that are no images have no entry, and nothing else was touched. */
  predicate Served(before: Records, after: Records, mode: Mode, hasCommand: bool) {
    && after.Keys == before.Keys
    && forall id | id in before ::
         if before[id].mediaType !in {Png, Jpeg, Gif, Webp, Avif} then after[id] == WithoutEntry(before[id])
         else if Due(mode, before[id]) then Treated(before[id], after[id], hasCommand)
         else after[id] == before[id]
  }

  /** The candidates are the entries that are due, once files that are no images have none. */
  lemma CandidatesAreDue(memory: Records, mode: Mode)
    ensures var open := RetireAll(memory, LegacyNonImages(memory));
            && (forall id :: id in Candidates(open, mode) <==> id in memory && Due(mode, memory[id]))
            && forall id | id in memory ::
                 open[id] == if memory[id].mediaType in {Png, Jpeg, Gif, Webp, Avif} then memory[id] else WithoutEntry(memory[id])
  {
  }

  /** The summary with these candidates entered in turn. */
  function EnteredAll(s: SyncSummary, m: Records, order: seq<Key>): SyncSummary
    requires forall k <- order :: k.1 in m
  {
    if order == [] then s
    else
      var last := order[|order| - 1].1;
      Entered(EnteredAll(s, m, order[..|order| - 1]), last, m[last])
  }

  /** What was launched is among the first `i` of the queue. */
  ghost predicate AmongFirst(order: seq<Key>, i: nat, ids: seq<string>)
    requires i <= |order|
  {
    forall n | 0 <= n < |ids| :: exists j :: 0 <= j < i && order[j].1 == ids[n]
  }

  /** The first `i` of the queue are done, with `taken` launched on the way. */
  ghost predicate Underway(open: Records, mode: Mode, m: Records, order: seq<Key>, i: nat, hasCommand: bool,
                           start: SyncSummary, s: SyncSummary, taken: seq<string>) {
    && QueueOrder(open, mode, order) && i <= |order| && m.Keys == open.Keys
    && (forall j | 0 <= j < i :: Treated(open[order[j].1], m[order[j].1], hasCommand))
    && (forall id | id in open && NotAmong(order, i, id) :: m[id] == open[id])
    && s == EnteredAll(start, m, order[..i])
    && LaunchOrder(open, mode, taken) && AmongFirst(order, i, taken)
  }

  predicate NotAmong(order: seq<Key>, i: nat, id: string)
    requires i <= |order|
  {
    forall j | 0 <= j < i :: order[j].1 != id
  }

  lemma {:induction false} EnteredElsewhere(s: SyncSummary, before: Records, after: Records, order: seq<Key>, id: string)
    requires forall k <- order :: k.1 in before && k.1 != id
    requires after.Keys == before.Keys && forall x | x in before && x != id :: after[x] == before[x]
    ensures EnteredAll(s, after, order) == EnteredAll(s, before, order)
  {
    if order != [] {
      EnteredElsewhere(s, before, after, order[..|order| - 1], id);
      assert order[|order| - 1] in order;
    }
  }

  /** The next of the queue is still as it was found. */
  lemma NextCandidate(open: Records, mode: Mode, m: Records, order: seq<Key>, i: nat, hasCommand: bool,
                      start: SyncSummary, s: SyncSummary, taken: seq<string>)
    requires Underway(open, mode, m, order, i, hasCommand, start, s, taken) && i < |order|
    ensures var id := order[i].1;
            && id in Candidates(open, mode) && id in m && m[id] == open[id]
            && m[id].deliveryStatus == Acknowledged && Eligible(mode, m[id].wallpaperStatus)
            && forall j | i < j < |order| :: order[j].1 != id
  {
    hide Sorted, Treated, EnteredAll, LaunchOrder, AmongFirst;
    assert order[i] in order;
    assert NotAmong(order, i, order[i].1);
  }

  lemma LaunchedNext(open: Records, mode: Mode, order: seq<Key>, i: nat, taken: seq<string>)
    requires QueueOrder(open, mode, order) && i < |order| && LaunchOrder(open, mode, taken) && AmongFirst(order, i, taken)
    ensures LaunchOrder(open, mode, taken + [order[i].1])
    ensures AmongFirst(order, i + 1, taken + [order[i].1]) && AmongFirst(order, i + 1, taken)
  {
    hide KeyLess;
    assert order[i] in order;
    assert order[i] == QueueKey(open, order[i].1);
    forall n | 0 <= n < |taken| ensures KeyLess(QueueKey(open, taken[n]), order[i]) {
      var j :| 0 <= j < i && order[j].1 == taken[n];
      assert order[j] in order;
      KeyOrder(order[j], order[i]);
    }
    var all := taken + [order[i].1];
    assert forall n | 0 <= n < |taken| :: all[n] == taken[n];
  }

  lemma UnderwayStep(open: Records, mode: Mode, before: Records, after: Records, order: seq<Key>, i: nat, hasCommand: bool,
                     start: SyncSummary, s: SyncSummary, taken: seq<string>, taken': seq<string>)
    requires Underway(open, mode, before, order, i, hasCommand, start, s, taken) && i < |order|
    requires taken' == taken || taken' == taken + [order[i].1]
    requires QueueFrame(before, after, {order[i].1})
    ensures LaunchOrder(open, mode, taken')
    ensures Treated(before[order[i].1], after[order[i].1], hasCommand) ==>
              Underway(open, mode, after, order, i + 1, hasCommand, start, Entered(s, order[i].1, after[order[i].1]), taken')
  {
    hide Treated, WallpaperEdit, Entered, LaunchOrder, AmongFirst, QueueOrder, EnteredAll;
    var id := order[i].1;
    LaunchedNext(open, mode, order, i, taken);
    NextCandidate(open, mode, before, order, i, hasCommand, start, s, taken);
    EnteredNext(open, mode, before, after, order, i, start);
    forall x | x in open && NotAmong(order, i + 1, x) ensures after[x] == open[x] {
      assert NotAmong(order, i, x) && x != id;
    }
  }

  lemma EnteredNext(open: Records, mode: Mode, before: Records, after: Records, order: seq<Key>, i: nat, start: SyncSummary)
    requires QueueOrder(open, mode, order) && i < |order| && before.Keys == open.Keys
    requires QueueFrame(before, after, {order[i].1})
    ensures (forall k <- order :: k.1 in after) && (forall j | 0 <= j < i :: after[order[j].1] == before[order[j].1])
    ensures EnteredAll(start, after, order[..i + 1]) ==
            Entered(EnteredAll(start, before, order[..i]), order[i].1, after[order[i].1])
  {
    hide WallpaperEdit, Entered, Sorted, Candidates, QueueKey;
    assert forall k <- order[..i] :: k in order;
    EnteredElsewhere(start, before, after, order[..i], order[i].1);
    assert order[..i + 1][..i] == order[..i];
  }

  lemma UnderwayEnds(open: Records, mode: Mode, m: Records, order: seq<Key>, hasCommand: bool, start: SyncSummary, s: SyncSummary,
                     taken: seq<string>)
    requires Underway(open, mode, m, order, |order|, hasCommand, start, s, taken)
    ensures QueueOrder(open, mode, order) && m.Keys == open.Keys
    ensures forall id | id in open ::
              if id in Candidates(open, mode) then Treated(open[id], m[id], hasCommand) else m[id] == open[id]
    ensures (forall k | k in order :: k.1 in m) && s == EnteredAll(start, m, order)
  {
    hide Treated, Sorted, Entered, EnteredAll, LaunchOrder, AmongFirst;
    assert order[..|order|] == order;
    forall id | id in open
      ensures if id in Candidates(open, mode) then Treated(open[id], m[id], hasCommand) else m[id] == open[id]
    {
      if id in Candidates(open, mode) {
        assert QueueKey(open, id) in order;
        var j :| 0 <= j < |order| && order[j] == QueueKey(open, id);
      } else {
        assert forall j | 0 <= j < |order| :: order[j] in order;
        assert NotAmong(order, |order|, id);
      }
    }
  }

  lemma AllServed(memory: Records, m: Records, mode: Mode, hasCommand: bool)
    requires var open := RetireAll(memory, LegacyNonImages(memory));
             && m.Keys == open.Keys
             && forall id | id in open ::
                  if id in Candidates(open, mode) then Treated(open[id], m[id], hasCommand) else m[id] == open[id]
    ensures Served(memory, m, mode, hasCommand)
  {
    hide Treated, Due, Candidates, RetireAll, LegacyNonImages;
    CandidatesAreDue(memory, mode);
    RetireKeeps(memory);
    var open := RetireAll(memory, LegacyNonImages(memory));
    forall id | id in memory
      ensures if memory[id].mediaType !in {Png, Jpeg, Gif, Webp, Avif} then m[id] == WithoutEntry(memory[id])
              else if Due(mode, memory[id]) then Treated(memory[id], m[id], hasCommand)
              else m[id] == memory[id]
    {
      OnlyImagesAreDue(mode, memory[id]);
      assert if id in Candidates(open, mode) then Treated(open[id], m[id], hasCommand) else m[id] == open[id];
    }
  }

  lemma RetireKeeps(memory: Records)
    ensures var open := RetireAll(memory, LegacyNonImages(memory)); open.Keys == memory.Keys
  {
  }

  lemma OnlyImagesAreDue(mode: Mode, r: DeliveryRecord)
    ensures Due(mode, r) ==> r.mediaType in {Png, Jpeg, Gif, Webp, Avif}
  {
  }

  lemma UnderwayStarts(open: Records, mode: Mode, order: seq<Key>, hasCommand: bool, start: SyncSummary)
    requires QueueOrder(open, mode, order)
    ensures Underway(open, mode, open, order, 0, hasCommand, start, start, [])
  {
  }

  /** What the counters mean: one entry for each candidate, under its final status. */
  lemma {:induction false} CountersAddUp(s: SyncSummary, m: Records, order: seq<Key>)
    requires forall k <- order :: k.1 in m
    ensures var e := EnteredAll(s, m, order);
            && e.wallpaperApplied - s.wallpaperApplied + (e.wallpaperNotConfigured - s.wallpaperNotConfigured)
               + (|e.failures| - |s.failures|) == |order|
            && e.wallpaperApplied == s.wallpaperApplied + HowMany(m, order, Applied)
            && e.wallpaperNotConfigured == s.wallpaperNotConfigured + HowMany(m, order, NotConfigured)
  {
    if order != [] {
      CountersAddUp(s, m, order[..|order| - 1]);
    }
  }

  /** How many of these entries have the given status. */
  function HowMany(m: Records, order: seq<Key>, status: WallpaperStatus): nat
    requires forall k <- order :: k.1 in m
  {
    if order == [] then 0
    else HowMany(m, order[..|order| - 1], status) + if m[order[|order| - 1].1].wallpaperStatus == status then 1 else 0
  }

  /**
   The queue. Every candidate is taken up once, from the oldest on, and ends as one of
   the documented outcomes; nothing else changes; the summary has one entry for each.
   `order` and `taken` are the queue and what was launched from it.
   */
  method ProcessWallpaperQueue(f: Folder, memory: Records, mode: Mode, summary: SyncSummary, hasCommand: bool)
    returns (ok: bool, m: Records, s: SyncSummary, ghost order: seq<Key>, ghost taken: seq<string>)
    requires f.Valid() && !f.disk.retired && Saveable(f.setup, f.Now(), memory) && QueueUntouched(f.Now(), memory)
    requires f.Now().mode == mode
    modifies f`disk, f`log
    ensures f.Valid() && old(f.log) <= f.log && f.disk == old(f.disk).(records := f.disk.records)
    ensures QueueFrame(memory, m, memory.Keys)
    ensures f.calm || f.savesHold ==> ok
    ensures ok && old(f.disk.records) == memory ==> f.disk.records == m
    ensures f.calm ==> ErrorsKept(f.setup, f.disk.objects, memory, m)
    ensures SummaryGrows(summary, s)
    ensures ok ==> Served(memory, m, mode, hasCommand)
    ensures forall i | 0 <= i < |taken| :: taken[i] in memory && Due(mode, memory[taken[i]])
    ensures forall i, j | 0 <= i < j < |taken| :: OldestFirst(memory[taken[i]], memory[taken[j]])
    ensures var open := RetireAll(memory, LegacyNonImages(memory));
            && LaunchOrder(open, mode, taken) && LaunchedIds(f.log) == LaunchedIds(old(f.log)) + taken
            && (ok ==> QueueOrder(open, mode, order) && (forall k | k in order :: k.1 in m)
                       && s == EnteredAll(Converted(summary, memory), m, order))
  {
    hide Legal, Replay, Saveable, RecordMove, Faithful, Step, QueueUntouched, QueueOpen, EntriesAgree, QueueFrame,
      Verifies, RetireAll, ErrorsKept, WallpaperEdit, LaunchedIds, LaunchOrder, Underway, Treated, Entered, EnteredAll,
      Served, Candidates, QueueOrder, SummaryGrows, LegacyNonImages, Converted, Due, OldestFirst,
      OnlyImagesKeepEntries;
    order, taken := [], [];
    NothingLaunched(RetireAll(memory, LegacyNonImages(memory)), mode);
    ok, m, s := ConvertNonImages(f, memory, summary);
    ghost var open, start := m, s;
    ConvertedGrows(summary, memory);
    RetireFrame(f.setup, f.disk.objects, memory);
    if !ok {
      TakenOldestFirst(memory, mode, taken);
      return;
    }
    OpenFacts(f.Now(), m);
    var queue := SortCandidates(m, mode);
    order := queue;
    UnmovedYet(m, f.Now(), queue);
    UnderwayStarts(open, mode, queue, hasCommand, start);
    for i := 0 to |queue|
      invariant f.Valid() && old(f.log) <= f.log && f.disk == old(f.disk).(records := f.disk.records)
      invariant Saveable(f.setup, f.Now(), m) && EntriesAgree(f.disk.records, m)
      invariant f.Now().mode == mode && f.Now().armed == {}
      invariant forall j | i <= j < |queue| :: queue[j].1 !in f.Now().moved
      invariant QueueFrame(memory, m, memory.Keys)
      invariant old(f.disk.records) == memory ==> f.disk.records == m
      invariant f.calm ==> ErrorsKept(f.setup, f.disk.objects, memory, m)
      invariant SummaryGrows(summary, s)
      invariant Underway(open, mode, m, queue, i, hasCommand, start, s, taken)
      invariant LaunchOrder(open, mode, taken) && LaunchedIds(f.log) == LaunchedIds(old(f.log)) + taken
    {
      var id := queue[i].1;
      NextCandidate(open, mode, m, queue, i, hasCommand, start, s, taken);
      AckedIsDurable(f.setup, f.Now(), m, id);
      ghost var m0, s0, log, before := m, s, f.log, taken;
      ok, m, s := ProcessCandidate(f, m, s, id, hasCommand);
      CandidateFrame(f.setup, f.disk.objects, memory, m0, m, id, f.calm);
      if LaunchedIds(f.log) != LaunchedIds(log) {
        taken := taken + [id];
      }
      GrowsFurther(summary, s0, s);
      UnderwayStep(open, mode, m0, m, queue, i, hasCommand, start, s0, before, taken);
      if !ok {
        TakenOldestFirst(memory, mode, taken);
        return;
      }
      SyncedEntries(f.setup, f.Now());
    }
    ok := true;
    UnderwayEnds(open, mode, m, queue, hasCommand, start, s, taken);
    AllServed(memory, m, mode, hasCommand);
    TakenOldestFirst(memory, mode, taken);
  }

  /** The source's time stamp of the delivery, or else the time of its receipt, is not later. */
  predicate OldestFirst(a: DeliveryRecord, b: DeliveryRecord) {
    (if a.sourceCreatedAt.Some? then a.sourceCreatedAt.value else a.receivedAt)
    <= (if b.sourceCreatedAt.Some? then b.sourceCreatedAt.value else b.receivedAt)
  }

  lemma TakenOldestFirst(memory: Records, mode: Mode, taken: seq<string>)
    requires LaunchOrder(RetireAll(memory, LegacyNonImages(memory)), mode, taken)
    ensures forall i | 0 <= i < |taken| :: taken[i] in memory && Due(mode, memory[taken[i]])
    ensures forall i, j | 0 <= i < j < |taken| :: OldestFirst(memory[taken[i]], memory[taken[j]])
  {
    hide Due, Candidates, RetireAll, LegacyNonImages;
    CandidatesAreDue(memory, mode);
    RetireKeeps(memory);
    var open := RetireAll(memory, LegacyNonImages(memory));
    forall i, j | 0 <= i < j < |taken| ensures OldestFirst(memory[taken[i]], memory[taken[j]]) {
      assert KeyLess(QueueKey(open, taken[i]), QueueKey(open, taken[j]));
    }
  }

  lemma ConvertedGrows(s: SyncSummary, memory: Records)
    ensures SummaryGrows(s, Converted(s, memory))
    ensures Converted(s, memory) == s.(wallpaperNotApplicable := s.wallpaperNotApplicable + |LegacyNonImages(memory)|)
  {
  }

  lemma GrowsFurther(a: SyncSummary, b: SyncSummary, c: SyncSummary)
    requires SummaryGrows(a, b) && SummaryGrows(b, c)
    ensures SummaryGrows(a, c)
  {
  }

  lemma UnmovedYet(records: Records, w: World, order: seq<Key>)
    requires QueueOrder(records, w.mode, order)
    requires forall id | id in Candidates(records, w.mode) :: id !in w.moved && IsImageMediaType(records[id].mediaType)
    ensures forall j | 0 <= j < |order| :: order[j].1 !in w.moved && IsImageMediaType(records[order[j].1].mediaType)
  {
    hide Candidates, Sorted, QueueKey;
    assert forall j | 0 <= j < |order| :: order[j] in order;
  }

  function Converted(s: SyncSummary, memory: Records): SyncSummary {
    s.(wallpaperNotApplicable := s.wallpaperNotApplicable + |LegacyNonImages(memory)|)
  }

  lemma NothingLaunched(records: Records, mode: Mode)
    ensures LaunchOrder(records, mode, [])
  {
  }

  lemma OpenFacts(w: World, memory: Records)
    requires QueueOpen(w, memory) && LegacyNonImages(memory) == {}
    ensures w.armed == {} && EntriesAgree(w.disk.records, memory)
    ensures forall id | id in Candidates(memory, w.mode) :: id !in w.moved && IsImageMediaType(memory[id].mediaType)
  {
    forall id | id in Candidates(memory, w.mode) ensures IsImageMediaType(memory[id].mediaType) {
      assert id !in LegacyNonImages(memory);
    }
  }

  /** A record that is acknowledged in memory has been saved before. */
  lemma AckedIsDurable(setup: Setup, w: World, memory: Records, id: string)
    requires Saveable(setup, w, memory) && IsAcked(memory, id)
    ensures id in w.disk.records
  {
  }

  lemma RetireFrame(setup: Setup, objects: map<Path, Bytes>, memory: Records)
    ensures var m := RetireAll(memory, LegacyNonImages(memory));
            QueueFrame(memory, m, memory.Keys) && ErrorsKept(setup, objects, memory, m) && LegacyNonImages(m) == {}
  {
  }

  lemma CandidateFrame(setup: Setup, objects: map<Path, Bytes>, start: Records, before: Records, after: Records,
                       id: string, calm: bool)
    requires QueueFrame(start, before, start.Keys) && QueueFrame(before, after, {id}) && id in before
    requires calm ==> ErrorsKept(setup, objects, start, before)
    requires calm && Verifies(setup, objects, before[id]) ==>
               after[id].deliveryError == None || after[id].deliveryError == before[id].deliveryError
    ensures QueueFrame(start, after, start.Keys)
    ensures calm ==> ErrorsKept(setup, objects, start, after)
    ensures forall x | x != id :: SameAt(before, after, x)
  {
    hide Verifies;
    forall x | x in start ensures Verifies(setup, objects, start[x]) == Verifies(setup, objects, before[x]) {
      SameFile(setup, objects, start[x], before[x]);
    }
  }
}
