/**
 The durable protocol of a delivery Folder.

 Everything that survives a crash, or that the outside world can observe, is an
 event: a state file that was replaced, an object that was committed or
 quarantined, an acknowledgement, a wallpaper launch. `Allowed` says which event
 may follow which history, and `Legal` asks it of every event in a log. The
 pipeline in Sync.dfy is proved to emit only legal logs. Because every prefix of a
 legal log is legal, a crash is a log that was cut short; the theorems below
 therefore cover crashes at every point of every run.
 */
module Protocol {
  import opened Wrappers
  import opened Utf8
  import opened Model
  import opened Storage

  /**
   What stays the same over all runs: the library, the size limit, file inspection,
   and whether the library is sheltered: nobody but this program changes it.
   */
  datatype Setup = Setup(library: Path, maxFileSize: nat, inspect: Bytes -> FileInspection, sheltered: bool)

  /** The facts about inspection that Storage.dfy proves of `Inspect`. */
  ghost predicate Faithful(setup: Setup) {
    forall c {:trigger setup.inspect(c)} ::
      var i := setup.inspect(c);
      i.size == |c| && ValidSha256(i.sha256) && ExtensionForMediaType(i.mediaType) == Some(i.extension)
  }

  lemma InspectIsFaithful(hash: Bytes -> string, library: Path, maxFileSize: nat, sheltered: bool)
    requires forall c :: ValidSha256(hash(c))
    ensures Faithful(Setup(library, maxFileSize, c => Storage.Inspect(hash, c), sheltered))
  {
    forall c: Bytes ensures var i := Storage.Inspect(hash, c);
                            i.size == |c| && ValidSha256(i.sha256) && ExtensionForMediaType(i.mediaType) == Some(i.extension)
    {
      DetectionAgreesWithExtensions(c, PlainText(c));
    }
  }

  type Records = map<string, DeliveryRecord>

  datatype Disk = Disk(records: Records, objects: map<Path, Bytes>, staging: seq<Bytes>, retired: bool)

  datatype Mode = Automatic | ExplicitRetry(includeUncertain: bool)

  datatype Event =
    | Began(mode: Mode) // an operation took the locks, found no retirement marker and loaded the state
    | Saved(records: Records) // the state file was replaced
    | Staged(bytes: Bytes)
    | Unstaged
    | Swept(count: nat)
    | Committed(path: Path) // the newest staging file was renamed to a content path
    | Doubted(id: string, unreadable: bool) // the recorded file of `id` could not be read, or does not match its record
    | Quarantined(id: string, path: Path)
    | Acked(id: string, sha256: string, confirmed: bool)
    | Launched(id: string)
    | Retired
    | Disturbed(objects: map<Path, Bytes>) // someone else changed the library between operations

  /** The disk, and what the operation in progress has done so far. */
  datatype World = World(
    disk: Disk,
    mode: Mode,
    moved: set<string>, // wallpaper entries this operation has already taken up
    armed: set<string>, // Running is durable and the command has not been launched for it
    fired: set<string>, // launched by this operation
    suspect: map<string, bool>, // records doubted since the last save or commit; true: the file could not be read
    confirmed: set<(string, string)>)

  function Start(disk: Disk): World {
    World(disk, Automatic, {}, {}, {}, map[], {})
  }

  predicate Eligible(mode: Mode, status: WallpaperStatus) {
    match mode
    case Automatic => status in {Pending, NotConfigured}
    case ExplicitRetry(includeUncertain) =>
      status in {Pending, NotConfigured, Failed} || (includeUncertain && status == Uncertain)
  }

  predicate Verifies(setup: Setup, objects: map<Path, Bytes>, r: DeliveryRecord) {
    && r.storedPath in objects
    && var content := objects[r.storedPath];
    && 0 < |content| <= setup.maxFileSize
    && var i := setup.inspect(content);
    && i.size == r.size && i.sha256 == r.sha256 && i.mediaType == r.mediaType
  }

  // ------------------------------------------------------------------ events

  function ApplyToDisk(disk: Disk, e: Event): Disk {
    match e
    case Saved(records) => disk.(records := records)
    case Staged(bytes) => disk.(staging := disk.staging + [bytes])
    case Unstaged => if disk.staging == [] then disk else disk.(staging := disk.staging[..|disk.staging| - 1])
    case Swept(count) => if count > |disk.staging| then disk else disk.(staging := disk.staging[count..])
    case Committed(path) =>
      if disk.staging == [] then disk
      else
        var last := |disk.staging| - 1;
        disk.(staging := disk.staging[..last], objects := disk.objects[path := disk.staging[last]])
    case Quarantined(_, path) =>
      if path !in disk.objects then disk
      else disk.(staging := disk.staging + [disk.objects[path]], objects := disk.objects - {path})
    case Retired => disk.(retired := true)
    case Disturbed(objects) => disk.(objects := objects)
    case _ => disk
  }

  function Step(w: World, e: Event): World {
    var w' := w.(disk := ApplyToDisk(w.disk, e));
    match e
    case Began(mode) => World(w.disk, mode, {}, {}, {}, map[], {})
    case Saved(records) =>
      w'.(moved := w.moved + TakenUp(w, records), armed := StillArmed(w, records), suspect := map[])
    case Committed(_) => w'.(suspect := map[])
    case Disturbed(_) => w'.(suspect := map[])
    case Doubted(id, unreadable) => w'.(suspect := w.suspect[id := unreadable])
    case Acked(id, sha256, true) => w'.(confirmed := w.confirmed + {(id, sha256)})
    case Launched(id) => w'.(armed := w.armed - {id}, fired := w.fired + {id})
    case _ => w'
  }

  function TakenUp(w: World, records: Records): set<string> {
    set id | id in w.disk.records && id in records
          && w.disk.records[id].wallpaperStatus != records[id].wallpaperStatus
          && Eligible(w.mode, w.disk.records[id].wallpaperStatus)
  }

  function StillArmed(w: World, records: Records): set<string> {
    set id | id in w.disk.records && id in records && records[id].wallpaperStatus == Running
          && (id in w.armed || w.disk.records[id].wallpaperStatus != Running)
  }

  function Replay(w: World, log: seq<Event>): World {
    if log == [] then w else Step(Replay(w, log[..|log| - 1]), log[|log| - 1])
  }

  // ------------------------------------------------------------- legality

  const MAX_ATTEMPTS: nat := 0xFFFF_FFFF

  /** What may change in the durable wallpaper status of one record. */
  predicate WallpaperMove(w: World, id: string, a: DeliveryRecord, b: DeliveryRecord) {
    var (s, t) := (a.wallpaperStatus, b.wallpaperStatus);
    && b.wallpaperAttempts == (if s != Running && t == Running && a.wallpaperAttempts < MAX_ATTEMPTS
                               then a.wallpaperAttempts + 1 else a.wallpaperAttempts)
    && (|| s == t
        || (t == NotApplicable && !IsImageMediaType(a.mediaType))
        || (s == Running && t == Uncertain)
        || (s == Running && t == Applied && id in w.fired)
        || (s == Running && t == Failed && (id in w.fired || id in w.armed))
        || (s == Running && t == NotConfigured && id in w.armed)
        || (Eligible(w.mode, s) && id !in w.moved && t in {NotConfigured, Failed, Running} && b.deliveryStatus == Acknowledged))
  }

  /** What may change in one durable record. */
  predicate RecordMove(setup: Setup, w: World, id: string, a: DeliveryRecord, b: DeliveryRecord) {
    && b.id == a.id && b.sha256 == a.sha256 && b.size == a.size
    && b.mediaType == a.mediaType && b.originalName == a.originalName
    && (b.storedPath == a.storedPath || Some(b.storedPath) == ContentPath(setup.library, b.sha256, b.mediaType))
    && (a.deliveryStatus == Acknowledged ==> b.deliveryStatus == Acknowledged)
    && (a.deliveryStatus != b.deliveryStatus ==> (id, b.sha256) in w.confirmed)
    && WallpaperMove(w, id, a, b)
  }

  /** How a record first becomes durable. */
  predicate FreshRecord(setup: Setup, id: string, r: DeliveryRecord) {
    && r.id == id
    && r.deliveryStatus == AckPending
    && r.wallpaperStatus == (if IsImageMediaType(r.mediaType) then Pending else NotApplicable)
    && r.wallpaperAttempts == 0
    && Some(r.storedPath) == ContentPath(setup.library, r.sha256, r.mediaType)
  }

  predicate Saveable(setup: Setup, w: World, records: Records) {
    && (forall id | id in w.disk.records :: id in records && RecordMove(setup, w, id, w.disk.records[id], records[id]))
    && (forall id | id in records && id !in w.disk.records :: FreshRecord(setup, id, records[id]))
  }

  predicate Allowed(setup: Setup, w: World, e: Event) {
    match e
    case Began(_) => !w.disk.retired
    case Saved(records) => !w.disk.retired && Saveable(setup, w, records)
    case Staged(_) => !w.disk.retired
    case Unstaged => w.disk.staging != []
    case Swept(count) => count <= |w.disk.staging|
    case Committed(path) =>
      && !w.disk.retired && w.disk.staging != [] && path !in w.disk.objects
      && Named(setup, path, w.disk.staging[|w.disk.staging| - 1])
    case Doubted(id, unreadable) =>
      id in w.disk.records && (unreadable || !Verifies(setup, w.disk.objects, w.disk.records[id]))
    case Disturbed(_) => !setup.sheltered
    case Quarantined(id, path) =>
      && !w.disk.retired && id in w.suspect && id in w.disk.records && path in w.disk.objects
      && Some(path) == ContentPath(setup.library, w.disk.records[id].sha256, w.disk.records[id].mediaType)
    case Acked(id, sha256, _) =>
      && !w.disk.retired && id in w.disk.records && w.disk.records[id].id == id
      && w.disk.records[id].sha256 == sha256 && Verifies(setup, w.disk.objects, w.disk.records[id])
    case Launched(id) =>
      && !w.disk.retired && id in w.armed && id in w.disk.records
      && var r := w.disk.records[id];
      && r.wallpaperStatus == Running && r.deliveryStatus == Acknowledged
      && IsImageMediaType(r.mediaType) && Verifies(setup, w.disk.objects, r)
    case _ => true
  }

  /** The object's place names its digest and its type. */
  predicate Named(setup: Setup, path: Path, content: Bytes) {
    && 0 < |content| <= setup.maxFileSize
    && var i := setup.inspect(content);
    && Some(path) == ContentPath(setup.library, i.sha256, i.mediaType)
  }

  predicate Legal(setup: Setup, w: World, log: seq<Event>) {
    log == []
    || (Legal(setup, w, log[..|log| - 1]) && Allowed(setup, Replay(w, log[..|log| - 1]), log[|log| - 1]))
  }

  lemma LegalExtend(setup: Setup, w: World, log: seq<Event>, e: Event)
    requires Legal(setup, w, log) && Allowed(setup, Replay(w, log), e)
    ensures Legal(setup, w, log + [e]) && Replay(w, log + [e]) == Step(Replay(w, log), e)
  {
    assert (log + [e])[..|log + [e]| - 1] == log;
  }

  /** A crash cuts the log: what was written before it is legal, and each event was allowed when it happened. */
  lemma {:induction false} LegalPrefix(setup: Setup, w: World, log: seq<Event>, n: nat)
    requires Legal(setup, w, log) && n <= |log|
    ensures Legal(setup, w, log[..n])
    ensures n < |log| ==> Allowed(setup, Replay(w, log[..n]), log[n])
    ensures n < |log| ==> Replay(w, log[..n + 1]) == Step(Replay(w, log[..n]), log[n])
  {
    if n == |log| {
      assert log[..n] == log;
    } else if n == |log| - 1 {
      assert log[..n + 1] == log;
    } else {
      var front := log[..|log| - 1];
      LegalPrefix(setup, w, front, n);
      assert front[..n] == log[..n] && front[..n + 1] == log[..n + 1];
    }
  }

  // ------------------------------------------------- theorem: acknowledgements

  /** The durable record carries the acknowledged digest, and its file matches digest, size and media type. */
  predicate AckedAfterVerification(setup: Setup, disk: Disk, e: Event)
    requires e.Acked?
  {
    && e.id in disk.records
    && var r := disk.records[e.id];
    && r.id == e.id && r.sha256 == e.sha256 && r.storedPath in disk.objects
    && var i := setup.inspect(disk.objects[r.storedPath]);
    && i.sha256 == r.sha256 && i.size == r.size && i.mediaType == r.mediaType
  }

  /** Ack safety. An acknowledgement was sent only when its record was durable and its file in place. */
  lemma AckSafety(setup: Setup, w: World, log: seq<Event>, n: nat)
    requires Legal(setup, w, log) && n < |log| && log[n].Acked?
    ensures AckedAfterVerification(setup, Replay(w, log[..n]).disk, log[n])
  {
    LegalPrefix(setup, w, log, n);
  }

  /** The command is about to start for a durable Running record of an acknowledged image whose file matches it. */
  predicate LaunchedAfterVerification(setup: Setup, disk: Disk, e: Event)
    requires e.Launched?
  {
    && e.id in disk.records
    && var r := disk.records[e.id];
    && r.wallpaperStatus == Running && r.deliveryStatus == Acknowledged && r.mediaType in {Png, Jpeg, Gif, Webp, Avif}
    && r.storedPath in disk.objects
    && var i := setup.inspect(disk.objects[r.storedPath]);
    && i.sha256 == r.sha256 && i.size == r.size && i.mediaType == r.mediaType
  }

  predicate SavedRunning(e: Event, id: string) {
    e.Saved? && id in e.records && e.records[id].wallpaperStatus == Running
  }

  /** Launch safety. Every launch comes after a save of its Running record, which is durable when the command starts. */
  lemma LaunchSafety(setup: Setup, disk: Disk, log: seq<Event>, n: nat)
    requires Legal(setup, Start(disk), log) && n < |log| && log[n].Launched?
    ensures LaunchedAfterVerification(setup, Replay(Start(disk), log[..n]).disk, log[n])
    ensures exists m :: 0 <= m < n && SavedRunning(log[m], log[n].id)
  {
    LegalPrefix(setup, Start(disk), log, n);
    ArmedWasSaved(disk, log[..n], log[n].id);
  }

  lemma {:induction false} ArmedWasSaved(disk: Disk, log: seq<Event>, id: string)
    requires id in Replay(Start(disk), log).armed
    ensures exists m :: 0 <= m < |log| && SavedRunning(log[m], id)
  {
    var front, e := log[..|log| - 1], log[|log| - 1];
    if e.Saved? {
      assert SavedRunning(log[|log| - 1], id);
    } else {
      ArmedWasSaved(disk, front, id);
      var m :| 0 <= m < |front| && SavedRunning(front[m], id);
      assert SavedRunning(log[m], id);
    }
  }

  /** A record that turned Acknowledged did so because the source confirmed exactly its digest. */
  lemma {:induction false} AcknowledgedWasConfirmed(setup: Setup, disk: Disk, log: seq<Event>, id: string)
    requires Legal(setup, Start(disk), log)
    requires var d := Replay(Start(disk), log).disk;
             id in d.records && d.records[id].deliveryStatus == Acknowledged
    requires id in disk.records ==> disk.records[id].deliveryStatus == AckPending
    ensures Acked(id, Replay(Start(disk), log).disk.records[id].sha256, true) in log
  {
    hide Allowed, Step;
    var front, e := log[..|log| - 1], log[|log| - 1];
    var before := Replay(Start(disk), front);
    assert forall x | x in front :: x in log;
    BecomesAcknowledged(setup, before, e, id);
    if id in before.disk.records && before.disk.records[id].deliveryStatus == Acknowledged {
      AcknowledgedWasConfirmed(setup, disk, front, id);
    } else {
      ConfirmedWasAcked(setup, Start(disk), front, id, Replay(Start(disk), log).disk.records[id].sha256);
    }
  }

  lemma BecomesAcknowledged(setup: Setup, w: World, e: Event, id: string)
    requires Allowed(setup, w, e)
    requires id in Step(w, e).disk.records && Step(w, e).disk.records[id].deliveryStatus == Acknowledged
    ensures var sha256 := Step(w, e).disk.records[id].sha256;
            if id in w.disk.records && w.disk.records[id].deliveryStatus == Acknowledged then w.disk.records[id].sha256 == sha256
            else (id, sha256) in w.confirmed
  {
    hide ContentPath, Verifies, Named, TakenUp, StillArmed, WallpaperMove;
    if e.Saved? && id in w.disk.records {
      assert RecordMove(setup, w, id, w.disk.records[id], e.records[id]);
    }
  }

  lemma {:induction false} ConfirmedWasAcked(setup: Setup, w: World, log: seq<Event>, id: string, sha256: string)
    requires Legal(setup, w, log) && w.confirmed == {}
    requires (id, sha256) in Replay(w, log).confirmed
    ensures Acked(id, sha256, true) in log
  {
    var front, e := log[..|log| - 1], log[|log| - 1];
    assert e in log && forall x | x in front :: x in log;
    if e != Acked(id, sha256, true) {
      ConfirmedWasAcked(setup, w, front, id, sha256);
    }
  }

  /** `b` is a later version of `a`: same digest, size, type and name, still acknowledged, no fewer attempts. */
  predicate Continues(a: DeliveryRecord, b: DeliveryRecord) {
    && b.sha256 == a.sha256 && b.size == a.size && b.mediaType == a.mediaType && b.originalName == a.originalName
    && (a.deliveryStatus == Acknowledged ==> b.deliveryStatus == Acknowledged)
    && a.wallpaperAttempts <= b.wallpaperAttempts
  }

  lemma RecordPersists(setup: Setup, w: World, e: Event, id: string)
    requires Allowed(setup, w, e) && id in w.disk.records
    ensures id in Step(w, e).disk.records && Continues(w.disk.records[id], Step(w, e).disk.records[id])
  {
    hide ContentPath, Verifies, Named, TakenUp, StillArmed;
    if e.Saved? {
      assert RecordMove(setup, w, id, w.disk.records[id], e.records[id]);
    }
  }

  /** Nothing durable is forgotten: records stay, with the same digest, size, type and name, and stay acknowledged. */
  lemma {:induction false} RecordsPersist(setup: Setup, w: World, log: seq<Event>, id: string)
    requires Legal(setup, w, log) && id in w.disk.records
    ensures var now := Replay(w, log).disk.records; id in now && Continues(w.disk.records[id], now[id])
  {
    if log != [] {
      hide Allowed, Step;
      var front := log[..|log| - 1];
      RecordsPersist(setup, w, front, id);
      RecordPersists(setup, Replay(w, front), log[|log| - 1], id);
    }
  }

  // ------------------------------------------------------ theorem: wallpapers

  function Launches(log: seq<Event>, id: string): nat {
    if log == [] then 0 else Launches(log[..|log| - 1], id) + if log[|log| - 1] == Launched(id) then 1 else 0
  }

  predicate IsRetry(e: Event) {
    e.Began? && e.mode.ExplicitRetry?
  }

  function Retries(log: seq<Event>): nat {
    if log == [] then 0 else Retries(log[..|log| - 1]) + if IsRetry(log[|log| - 1]) then 1 else 0
  }

  /** One when the entry may still be launched without a further explicit retry. */
  function Credit(w: World, id: string): nat {
    if id !in w.disk.records then 1
    else
      var status := w.disk.records[id].wallpaperStatus;
      if status in {Pending, NotConfigured} || (status == Running && id in w.armed) then 1
      else if w.mode.ExplicitRetry? && id !in w.moved && status in {Failed, Uncertain, Running} then 1
      else 0
  }

  /** What this operation armed, it has taken up, and the durable status of it is Running. */
  predicate ArmedEntry(w: World, id: string) {
    id in w.armed ==> id in w.moved && id in w.disk.records && w.disk.records[id].wallpaperStatus == Running
  }

  lemma ArmedStep(setup: Setup, w: World, e: Event, id: string)
    requires Allowed(setup, w, e) && ArmedEntry(w, id)
    ensures ArmedEntry(Step(w, e), id)
  {
    if e.Saved? && id in w.disk.records {
      assert RecordMove(setup, w, id, w.disk.records[id], e.records[id]);
    }
  }

  lemma CreditStep(setup: Setup, w: World, e: Event, id: string)
    requires Allowed(setup, w, e) && ArmedEntry(w, id)
    ensures Credit(Step(w, e), id) + (if e == Launched(id) then 1 else 0)
         <= Credit(w, id) + (if IsRetry(e) then 1 else 0)
  {
    if e.Saved? && id in w.disk.records {
      assert RecordMove(setup, w, id, w.disk.records[id], e.records[id]);
    }
  }

  lemma {:induction false} ArmedAlways(setup: Setup, disk: Disk, log: seq<Event>, id: string)
    requires Legal(setup, Start(disk), log)
    ensures ArmedEntry(Replay(Start(disk), log), id)
  {
    if log != [] {
      var front := log[..|log| - 1];
      ArmedAlways(setup, disk, front, id);
      ArmedStep(setup, Replay(Start(disk), front), log[|log| - 1], id);
    }
  }

  /**
   Launch budget. Over every history of automatic syncs, explicit retries and
   crashes, a delivery is launched at most once plus once per explicit retry.
   */
  lemma {:induction false} LaunchBudget(setup: Setup, disk: Disk, log: seq<Event>, id: string)
    requires Legal(setup, Start(disk), log)
    ensures Launches(log, id) + Credit(Replay(Start(disk), log), id) <= 1 + Retries(log)
  {
    if log != [] {
      var front := log[..|log| - 1];
      LaunchBudget(setup, disk, front, id);
      ArmedAlways(setup, disk, front, id);
      CreditStep(setup, Replay(Start(disk), front), log[|log| - 1], id);
    }
  }

  lemma AtMostOneAutomaticLaunch(setup: Setup, disk: Disk, log: seq<Event>, id: string)
    requires Legal(setup, Start(disk), log)
    requires forall e | e in log && e.Began? :: e.mode == Automatic
    ensures Launches(log, id) <= 1
    ensures forall i, j | 0 <= i < j < |log| :: !(log[i] == Launched(id) && log[j] == Launched(id))
  {
    LaunchBudget(setup, disk, log, id);
    NoRetries(log);
    assert forall k | 0 <= k < |log| :: log[k] in log;
    forall i, j | 0 <= i < j < |log| && log[i] == Launched(id) ensures log[j] != Launched(id) {
      if log[j] == Launched(id) {
        RelaunchNeedsRetry(setup, disk, log, id, i, j);
      }
    }
  }

  /** Between two launches of one delivery somebody asked for a retry. */
  lemma RelaunchNeedsRetry(setup: Setup, disk: Disk, log: seq<Event>, id: string, i: nat, j: nat)
    requires Legal(setup, Start(disk), log) && i < j < |log| && log[i] == Launched(id) && log[j] == Launched(id)
    ensures exists k :: i < k < j && log[k].Began? && log[k].mode.ExplicitRetry?
  {
    if forall k | i < k < j :: !(log[k].Began? && log[k].mode.ExplicitRetry?) {
      SpentStays(setup, disk, log, id, i, j);
      LegalPrefix(setup, Start(disk), log, j);
      ArmedAlways(setup, disk, log[..j], id);
      CreditStep(setup, Replay(Start(disk), log[..j]), log[j], id);
      assert false;
    }
  }

  /** A launch uses the entry's credit up, and only an explicit retry renews it. */
  lemma {:induction false} SpentStays(setup: Setup, disk: Disk, log: seq<Event>, id: string, i: nat, k: nat)
    requires Legal(setup, Start(disk), log) && i < k <= |log| && log[i] == Launched(id)
    requires forall n | i < n < k :: !(log[n].Began? && log[n].mode.ExplicitRetry?)
    ensures Credit(Replay(Start(disk), log[..k]), id) == 0
  {
    LegalPrefix(setup, Start(disk), log, k - 1);
    ArmedAlways(setup, disk, log[..k - 1], id);
    CreditStep(setup, Replay(Start(disk), log[..k - 1]), log[k - 1], id);
    if i < k - 1 {
      SpentStays(setup, disk, log, id, i, k - 1);
    }
  }

  lemma {:induction false} NoRetries(log: seq<Event>)
    requires forall e | e in log && e.Began? :: e.mode == Automatic
    ensures Retries(log) == 0
  {
    if log != [] {
      assert log[|log| - 1] in log;
      NoRetries(log[..|log| - 1]);
    }
  }

  /** The consent that a launch needs when it follows the given durable status. */
  predicate Consents(status: WallpaperStatus, mode: Mode) {
    match status
    case Failed => mode.ExplicitRetry?
    case Uncertain => mode == ExplicitRetry(true)
    case Running => mode == ExplicitRetry(true)
    case Applied => false
    case _ => true
  }

  ghost predicate Consented(status: WallpaperStatus, log: seq<Event>) {
    exists e :: e in log && e.Began? && Consents(status, e.mode)
  }

  /**
   Consent. Between operations, a delivery whose durable status is Failed is not
   launched again before an explicit retry; one that is Uncertain, or whose command
   was interrupted (Running), not before an explicit retry with `include_uncertain`;
   one that was Applied never again.
   */
  lemma LaunchNeedsConsent(setup: Setup, disk: Disk, log: seq<Event>, id: string)
    requires Legal(setup, Start(disk), log)
    requires id in disk.records && disk.records[id].wallpaperStatus in {Failed, Uncertain, Running, Applied}
    requires Launched(id) in log
    ensures disk.records[id].wallpaperStatus != Applied
    ensures disk.records[id].wallpaperStatus == Failed ==>
              Began(ExplicitRetry(false)) in log || Began(ExplicitRetry(true)) in log
    ensures disk.records[id].wallpaperStatus in {Uncertain, Running} ==> Began(ExplicitRetry(true)) in log
  {
    if !Consented(disk.records[id].wallpaperStatus, log) {
      var n :| 0 <= n < |log| && log[n] == Launched(id);
      LegalPrefix(setup, Start(disk), log, n);
      WithoutConsent(setup, disk, log[..n], id);
      assert false;
    }
    var e :| e in log && e.Began? && Consents(disk.records[id].wallpaperStatus, e.mode);
    assert e == Began(ExplicitRetry(false)) || e == Began(ExplicitRetry(true));
  }

  /** Without consent the status never reaches one that leads to a launch. */
  predicate Stuck(origin: WallpaperStatus, w: World, id: string) {
    && id in w.disk.records && id !in w.armed && id !in w.fired
    && !Consents(origin, w.mode)
    && var status := w.disk.records[id].wallpaperStatus;
    || status == NotApplicable || status == origin || (origin == Running && status == Uncertain)
  }

  lemma StuckStep(setup: Setup, origin: WallpaperStatus, w: World, e: Event, id: string)
    requires origin in {Failed, Uncertain, Running, Applied}
    requires Allowed(setup, w, e) && Stuck(origin, w, id)
    requires e.Began? ==> !Consents(origin, e.mode)
    ensures Stuck(origin, Step(w, e), id) && e != Launched(id)
  {
    hide ContentPath, Verifies, Named, TakenUp;
    if e.Saved? {
      assert RecordMove(setup, w, id, w.disk.records[id], e.records[id]);
    }
  }

  lemma {:induction false} WithoutConsent(setup: Setup, disk: Disk, log: seq<Event>, id: string)
    requires Legal(setup, Start(disk), log)
    requires id in disk.records && disk.records[id].wallpaperStatus in {Failed, Uncertain, Running, Applied}
    requires !Consented(disk.records[id].wallpaperStatus, log)
    ensures Stuck(disk.records[id].wallpaperStatus, Replay(Start(disk), log), id)
  {
    if log != [] {
      var front, e := log[..|log| - 1], log[|log| - 1];
      assert e in log && forall x | x in front :: x in log;
      WithoutConsent(setup, disk, front, id);
      StuckStep(setup, disk.records[id].wallpaperStatus, Replay(Start(disk), front), e, id);
    }
  }

  // --------------------------------------------------------- theorem: the store

  /** Every object under a content path has the digest and the type that its name states. */
  ghost predicate StoreSound(setup: Setup, objects: map<Path, Bytes>) {
    forall path, sha256, mediaType |
      path in objects && Some(path) == ContentPath(setup.library, sha256, mediaType) ::
      && setup.inspect(objects[path]).sha256 == sha256
      && setup.inspect(objects[path]).mediaType == mediaType
      && 0 < |objects[path]| <= setup.maxFileSize
  }

  /** Every record points at the content path of its own digest and type. */
  predicate Canonical(setup: Setup, records: Records) {
    forall id | id in records ::
      Some(records[id].storedPath) == ContentPath(setup.library, records[id].sha256, records[id].mediaType)
  }

  lemma NamedIsSound(setup: Setup, path: Path, content: Bytes, sha256: string, mediaType: MediaType)
    requires Named(setup, path, content) && Some(path) == ContentPath(setup.library, sha256, mediaType)
    ensures setup.inspect(content).sha256 == sha256 && setup.inspect(content).mediaType == mediaType
  {
    var i := setup.inspect(content);
    ContentPathInjective(setup.library, i.sha256, i.mediaType, sha256, mediaType);
  }

  lemma SoundStep(setup: Setup, w: World, e: Event)
    requires Allowed(setup, w, e) && !e.Disturbed?
    requires StoreSound(setup, w.disk.objects) && Canonical(setup, w.disk.records)
    ensures StoreSound(setup, Step(w, e).disk.objects) && Canonical(setup, Step(w, e).disk.records)
  {
    hide ContentPath, TakenUp, StillArmed, WallpaperMove;
    if e.Committed? {
      var after := Step(w, e).disk.objects;
      forall path, sha256, mediaType |
        path in after && Some(path) == ContentPath(setup.library, sha256, mediaType)
        ensures && setup.inspect(after[path]).sha256 == sha256
                && setup.inspect(after[path]).mediaType == mediaType
                && 0 < |after[path]| <= setup.maxFileSize
      {
        if path == e.path {
          NamedIsSound(setup, path, after[path], sha256, mediaType);
        }
      }
    }
  }

  /** Receives, quarantines and cleanups, cut short anywhere, never leave a misnamed object or a stray record. */
  lemma {:induction false} StoreInvariant(setup: Setup, disk: Disk, log: seq<Event>)
    requires Legal(setup, Start(disk), log) && forall e | e in log :: !e.Disturbed?
    requires StoreSound(setup, disk.objects) && Canonical(setup, disk.records)
    ensures var now := Replay(Start(disk), log).disk;
            StoreSound(setup, now.objects) && Canonical(setup, now.records)
  {
    if log != [] {
      var front := log[..|log| - 1];
      assert log[|log| - 1] in log && forall x | x in front :: x in log;
      StoreInvariant(setup, disk, front);
      SoundStep(setup, Replay(Start(disk), front), log[|log| - 1]);
    }
  }

  /** The disk of a Folder that nobody has tampered with: objects may be missing, but none is misnamed. */
  ghost predicate SoundDisk(setup: Setup, disk: Disk) {
    StoreSound(setup, disk.objects) && Canonical(setup, disk.records) && IdsMatch(disk.records)
  }

  predicate IdsMatch(records: Records) {
    forall id | id in records :: records[id].id == id
  }

  lemma {:induction false} ShelteredIsUndisturbed(setup: Setup, w: World, log: seq<Event>)
    requires Legal(setup, w, log) && setup.sheltered
    ensures forall e | e in log :: !e.Disturbed?
  {
    if log != [] {
      ShelteredIsUndisturbed(setup, w, log[..|log| - 1]);
      assert forall e | e in log :: e in log[..|log| - 1] || e == log[|log| - 1];
    }
  }

  lemma {:induction false} RecordsStaySound(setup: Setup, disk: Disk, log: seq<Event>)
    requires Legal(setup, Start(disk), log) && Canonical(setup, disk.records) && IdsMatch(disk.records)
    ensures var now := Replay(Start(disk), log).disk.records; Canonical(setup, now) && IdsMatch(now)
  {
    if log != [] {
      var front := log[..|log| - 1];
      RecordsStaySound(setup, disk, front);
      RecordsStep(setup, Replay(Start(disk), front), log[|log| - 1]);
    }
  }

  lemma RecordsStep(setup: Setup, w: World, e: Event)
    requires Allowed(setup, w, e) && Canonical(setup, w.disk.records) && IdsMatch(w.disk.records)
    ensures Canonical(setup, Step(w, e).disk.records) && IdsMatch(Step(w, e).disk.records)
  {
    hide ContentPath, WallpaperMove, Verifies, Named, TakenUp, StillArmed;
  }

  /** Whatever syncs, retries and crashes have done to a sheltered Folder, its disk is still sound. */
  lemma StaysSound(setup: Setup, disk: Disk, log: seq<Event>)
    requires Legal(setup, Start(disk), log) && setup.sheltered && SoundDisk(setup, disk)
    ensures SoundDisk(setup, Replay(Start(disk), log).disk)
  {
    hide Legal, Replay, StoreSound, Canonical, IdsMatch;
    ShelteredIsUndisturbed(setup, Start(disk), log);
    StoreInvariant(setup, disk, log);
    RecordsStaySound(setup, disk, log);
  }

  // ------------------------------------------------------- theorem: what is removed

  /** Each suspect's file could not be read, or does not match its record at this moment. */
  predicate Suspicious(setup: Setup, w: World) {
    forall id | id in w.suspect ::
      id in w.disk.records && (w.suspect[id] || !Verifies(setup, w.disk.objects, w.disk.records[id]))
  }

  lemma {:induction false} SuspectsFailed(setup: Setup, disk: Disk, log: seq<Event>)
    requires Legal(setup, Start(disk), log)
    ensures Suspicious(setup, Replay(Start(disk), log))
  {
    if log != [] {
      var front := log[..|log| - 1];
      SuspectsFailed(setup, disk, front);
      SuspectStep(setup, Replay(Start(disk), front), log[|log| - 1]);
    }
  }

  lemma SuspectStep(setup: Setup, w: World, e: Event)
    requires Allowed(setup, w, e) && Suspicious(setup, w)
    ensures Suspicious(setup, Step(w, e))
  {
    hide ContentPath, Saveable, Named, TakenUp, StillArmed;
  }

  /** `e` takes the object at `path` away: it is the file of a record that could not be read or does not match. */
  predicate RemovedForCause(setup: Setup, w: World, e: Event, path: Path) {
    && e.Quarantined? && e.path == path && path in w.disk.objects
    && e.id in w.disk.records && w.disk.records[e.id].storedPath == path
    && e.id in w.suspect && (w.suspect[e.id] || !Verifies(setup, w.disk.objects, w.disk.records[e.id]))
  }

  /**
   A quarantine takes away the content path that the record's digest and type name. It
   is the file that was verified, and found wanting, exactly when the record points there.
   */
  lemma QuarantineHasCause(setup: Setup, w: World, e: Event)
    requires Allowed(setup, w, e) && Suspicious(setup, w) && e.Quarantined?
    ensures RemovedForCause(setup, w, e, e.path) <==> w.disk.records[e.id].storedPath == e.path
  {
    hide ContentPath, Verifies;
  }

  /** A record of this content that points somewhere else in the library, as after moving it by hand. */
  function Misplaced(setup: Setup, id: string, content: Bytes): DeliveryRecord {
    var i := setup.inspect(content);
    DeliveryRecord(id, "file", i.mediaType, i.sha256, i.size, setup.library + ["elsewhere"], AckPending, NotApplicable, 0, None,
                   None, None, 0, None, None)
  }

  /**
   The input on which repair takes a fitting file away. A state file is not checked for
   stored paths when it is loaded; here its one record points elsewhere, where nothing
   is, and the record's content stands at its content path. A sync may doubt the record,
   quarantine the good file, and delete it with the next cleanup.
   */
  lemma FittingFileIsRemoved(setup: Setup, id: string, content: Bytes) returns (disk: Disk, path: Path)
    requires Faithful(setup) && 0 < |content| <= setup.maxFileSize
    ensures IdsMatch(disk.records) && id in disk.records && !disk.retired
    ensures path in disk.objects && Named(setup, path, disk.objects[path])
    ensures Verifies(setup, disk.objects, disk.records[id].(storedPath := path))
    ensures var log := [Began(Automatic), Doubted(id, false), Quarantined(id, path), Swept(1)];
            && Legal(setup, Start(disk), log)
            && path !in Replay(Start(disk), log).disk.objects && Replay(Start(disk), log).disk.staging == []
  {
    var i := setup.inspect(content);
    var r := Misplaced(setup, id, content);
    path := ContentPath(setup.library, i.sha256, i.mediaType).value;
    disk := Disk(map[id := r], map[path := content], [], false);
    assert |path| == |setup.library| + 2 && |r.storedPath| == |setup.library| + 1;
    hide ContentPath;
    var none: seq<Event> := [];
    var w0 := Start(disk);
    LegalExtend(setup, w0, none, Began(Automatic));
    LegalExtend(setup, w0, none + [Began(Automatic)], Doubted(id, false));
    LegalExtend(setup, w0, none + [Began(Automatic)] + [Doubted(id, false)], Quarantined(id, path));
    LegalExtend(setup, w0, none + [Began(Automatic)] + [Doubted(id, false)] + [Quarantined(id, path)], Swept(1));
    assert none + [Began(Automatic)] + [Doubted(id, false)] + [Quarantined(id, path)] + [Swept(1)]
        == [Began(Automatic), Doubted(id, false), Quarantined(id, path), Swept(1)];
  }

  /** `e` quarantines the object at `path`, with cause exactly if its record points there. */
  ghost predicate TakesAway(setup: Setup, w: World, e: Event, path: Path) {
    && e.Quarantined? && e.path == path && path in w.disk.objects && e.id in w.disk.records
    && Some(path) == ContentPath(setup.library, w.disk.records[e.id].sha256, w.disk.records[e.id].mediaType)
    && (RemovedForCause(setup, w, e, path) <==> w.disk.records[e.id].storedPath == path)
  }

  lemma Removal(setup: Setup, w: World, e: Event, path: Path)
    requires Allowed(setup, w, e) && Suspicious(setup, w) && !e.Disturbed?
    requires path in w.disk.objects && path !in Step(w, e).disk.objects
    ensures TakesAway(setup, w, e, path)
  {
    hide ContentPath, Saveable, Named, TakenUp, StillArmed, Verifies, RemovedForCause, Suspicious;
    QuarantineHasCause(setup, w, e);
  }

  /**
   An object disappears only by the quarantine of a record whose content path it is. It
   had failed verification exactly if that record points to its content path.
   */
  lemma {:induction false} OnlyQuarantineRemoves(setup: Setup, disk: Disk, log: seq<Event>, path: Path)
    requires Legal(setup, Start(disk), log) && forall e | e in log :: !e.Disturbed?
    requires path in disk.objects && path !in Replay(Start(disk), log).disk.objects
    ensures exists n :: 0 <= n < |log| && TakesAway(setup, Replay(Start(disk), log[..n]), log[n], path)
  {
    hide Allowed, Step, TakesAway;
    var front, e := log[..|log| - 1], log[|log| - 1];
    assert e in log && forall x | x in front :: x in log;
    if path !in Replay(Start(disk), front).disk.objects {
      OnlyQuarantineRemoves(setup, disk, front, path);
      var n :| 0 <= n < |front| && TakesAway(setup, Replay(Start(disk), front[..n]), front[n], path);
      assert front[..n] == log[..n] && front[n] == log[n];
    } else {
      SuspectsFailed(setup, disk, front);
      Removal(setup, Replay(Start(disk), front), e, path);
      assert log[..|log| - 1] == front;
    }
  }

  /**
   Where records point to their content paths, as the program always makes them, only a
   file that could not be read or does not match its record is ever removed.
   */
  lemma OnlyDoubtedObjectsLeave(setup: Setup, disk: Disk, log: seq<Event>, path: Path)
    requires Legal(setup, Start(disk), log) && Canonical(setup, disk.records) && IdsMatch(disk.records)
    requires forall e | e in log :: !e.Disturbed?
    requires path in disk.objects && path !in Replay(Start(disk), log).disk.objects
    ensures exists n :: 0 <= n < |log| && RemovedForCause(setup, Replay(Start(disk), log[..n]), log[n], path)
  {
    hide ContentPath, RemovedForCause;
    OnlyQuarantineRemoves(setup, disk, log, path);
    var n :| 0 <= n < |log| && TakesAway(setup, Replay(Start(disk), log[..n]), log[n], path);
    LegalPrefix(setup, Start(disk), log, n);
    RecordsStaySound(setup, disk, log[..n]);
    hide Legal, Replay;
  }

  /** One repaired object serves every record of the same digest, type and size. */
  lemma RepairIsShared(setup: Setup, records: Records, objects: map<Path, Bytes>, one: string, other: string)
    requires Canonical(setup, records) && one in records && other in records
    requires records[one].sha256 == records[other].sha256 && records[one].mediaType == records[other].mediaType
    ensures records[one].storedPath == records[other].storedPath
    ensures records[one].size == records[other].size ==>
              (Verifies(setup, objects, records[one]) <==> Verifies(setup, objects, records[other]))
  {
    assert Some(records[one].storedPath) == ContentPath(setup.library, records[one].sha256, records[one].mediaType);
  }

  // ------------------------------------------------------- theorem: retirement

  lemma {:induction false} RetiredStays(w: World, log: seq<Event>, k: nat)
    requires k < |log| && log[k] == Retired
    ensures Replay(w, log).disk.retired
  {
    hide TakenUp, StillArmed;
    if k < |log| - 1 {
      RetiredStays(w, log[..|log| - 1], k);
    }
  }

  /** After the retirement marker nothing is begun, saved, stored, acknowledged or launched. */
  lemma RetirementIsFinal(setup: Setup, w: World, log: seq<Event>, k: nat, n: nat)
    requires Legal(setup, w, log) && k < n < |log| && log[k] == Retired
    ensures !log[n].Began? && !log[n].Saved? && !log[n].Staged? && !log[n].Committed? && !log[n].Quarantined?
    ensures !log[n].Acked? && !log[n].Launched?
  {
    LegalPrefix(setup, w, log, n);
    RetiredStays(w, log[..n], k);
  }
}
