/**
 One synchronisation (src/sync.rs): acknowledgement reconciliation, receipt and
 repair of listed deliveries, and the wallpaper queue.

 `memory` is the loaded application state. It may run ahead of the state file when
 a save failed; `Saveable` says that writing it now would be a legal step.
 */
module Sync {
  import opened Wrappers
  import opened Utf8
  import opened Model
  import opened Storage
  import opened Protocol
  import opened Pipeline

  datatype SyncFailure = SyncFailure(item: string, message: Problem)

  datatype SyncSummary = SyncSummary(
    staleStagingFilesRemoved: nat,
    received: nat,
    repaired: nat,
    alreadyStored: nat,
    acknowledged: nat,
    wallpaperApplied: nat,
    wallpaperNotApplicable: nat,
    wallpaperNotConfigured: nat,
    failures: seq<SyncFailure>)

  const EMPTY_SUMMARY := SyncSummary(0, 0, 0, 0, 0, 0, 0, 0, [])

  function Counted(s: SyncSummary): nat {
    s.received + s.repaired + s.alreadyStored
  }

  // ------------------------------------------------ memory against the disk

  predicate SameAt(a: Records, b: Records, id: string) {
    (id in a <==> id in b) && (id in a ==> a[id] == b[id])
  }

  predicate SameWallpaper(a: DeliveryRecord, b: DeliveryRecord) {
    a.wallpaperStatus == b.wallpaperStatus && a.wallpaperAttempts == b.wallpaperAttempts
  }

  /** No wallpaper entry has been taken up yet, and memory agrees with the disk about all of them. */
  predicate QueueUntouched(w: World, memory: Records) {
    && w.moved == {} && w.armed == {} && w.fired == {}
    && forall id | id in w.disk.records :: id in memory && SameWallpaper(w.disk.records[id], memory[id])
  }

  lemma UpdateSaveable(setup: Setup, w: World, memory: Records, id: string, r: DeliveryRecord)
    requires Saveable(setup, w, memory)
    requires if id in w.disk.records then RecordMove(setup, w, id, w.disk.records[id], r) else FreshRecord(setup, id, r)
    ensures Saveable(setup, w, memory[id := r])
  {
  }

  /** Between operations, and after every completed save, memory is what the disk says. */
  lemma SyncedIsSaveable(setup: Setup, w: World)
    ensures Saveable(setup, w, w.disk.records)
  {
  }

  lemma SavedIsSaveable(setup: Setup, w: World, memory: Records)
    ensures Saveable(setup, Step(w, Saved(memory)), memory)
  {
  }

  /** Some enumeration of a finite set; nothing below depends on which. */
  method Enumerate(s: set<string>) returns (q: seq<string>)
    ensures forall x :: x in q <==> x in s
    ensures forall i, j | 0 <= i < j < |q| :: q[i] != q[j]
    ensures |q| == |s|
  {
    q := [];
    var rest := s;
    while rest != {}
      invariant rest <= s
      invariant forall x :: x in s <==> x in rest || x in q
      invariant forall x | x in q :: x !in rest
      invariant forall i, j | 0 <= i < j < |q| :: q[i] != q[j]
      invariant |q| + |rest| == |s|
      decreases rest
    {
      var x :| x in rest;
      q := q + [x];
      rest := rest - {x};
    }
  }

  // --------------------------------------------------- interrupted commands

  function Recovered(r: DeliveryRecord): DeliveryRecord {
    if r.wallpaperStatus == Running then
      r.(wallpaperStatus := Uncertain, wallpaperError := Some(CommandInterrupted))
    else r
  }

  method ReconcileInterruptedWallpapers(f: Folder, memory: Records) returns (ok: bool, m: Records)
    requires f.Valid() && !f.disk.retired && f.disk.records == memory && QueueUntouched(f.Now(), memory)
    modifies f`disk, f`log
    ensures f.Valid() && old(f.log) <= f.log && f.disk == old(f.disk).(records := f.disk.records)
    ensures m == map id | id in memory :: Recovered(memory[id])
    ensures m.Keys == memory.Keys
    ensures forall id | id in memory ::
              m[id] == if memory[id].wallpaperStatus == Running
                       then memory[id].(wallpaperStatus := Uncertain, wallpaperError := Some(CommandInterrupted))
                       else memory[id]
    ensures ok ==> f.disk.records == m && QueueUntouched(f.Now(), m) && f.Now().mode == old(f.Now().mode)
    ensures f.calm || f.savesHold ==> ok
  {
    hide Legal, Replay, Faithful, Saveable, QueueUntouched, Step, Recovered;
    var interrupted := Enumerate(set id | id in memory && memory[id].wallpaperStatus == Running);
    m := memory;
    OnlyInterruptedChange(memory);
    if interrupted == [] {
      forall id | id in memory ensures memory[id].wallpaperStatus != Running {
        assert id !in interrupted;
      }
      NothingInterrupted(memory);
      return true, m;
    }
    for i := 0 to |interrupted|
      invariant m.Keys == memory.Keys
      invariant forall id | id in memory :: m[id] == if id in interrupted[..i] then Recovered(memory[id]) else memory[id]
    {
      assert interrupted[i] in interrupted;
      m := m[interrupted[i] := Recovered(m[interrupted[i]])];
    }
    assert interrupted[..|interrupted|] == interrupted;
    assert m == map id | id in memory :: Recovered(memory[id]);
    RecoveredSaveable(f.setup, f.Now());
    ok := f.Save(m);
  }

  lemma NothingInterrupted(memory: Records)
    requires forall id | id in memory :: memory[id].wallpaperStatus != Running
    ensures memory == map id | id in memory :: Recovered(memory[id])
  {
  }

  lemma OnlyInterruptedChange(memory: Records)
    ensures forall id | id in memory ::
              Recovered(memory[id]) == if memory[id].wallpaperStatus == Running
                                       then memory[id].(wallpaperStatus := Uncertain, wallpaperError := Some(CommandInterrupted))
                                       else memory[id]
  {
  }

  lemma RecoveredSaveable(setup: Setup, w: World)
    requires QueueUntouched(w, w.disk.records)
    ensures var m := map id | id in w.disk.records :: Recovered(w.disk.records[id]);
            && Saveable(setup, w, m)
            && QueueUntouched(Step(w, Saved(m)), m) && Step(w, Saved(m)).mode == w.mode
  {
    var m := map id | id in w.disk.records :: Recovered(w.disk.records[id]);
    forall id | id in w.disk.records ensures RecordMove(setup, w, id, w.disk.records[id], m[id]) {
      RecoveredMoves(setup, w, id, w.disk.records[id]);
    }
    RecoveredUntouched(w);
    hide RecordMove, FreshRecord, QueueUntouched, Step;
  }

  lemma RecoveredUntouched(w: World)
    requires QueueUntouched(w, w.disk.records)
    ensures var m := map id | id in w.disk.records :: Recovered(w.disk.records[id]);
            QueueUntouched(Step(w, Saved(m)), m) && Step(w, Saved(m)).mode == w.mode
  {
    var m := map id | id in w.disk.records :: Recovered(w.disk.records[id]);
    assert TakenUp(w, m) == {} && StillArmed(w, m) == {};
  }

  lemma RecoveredMoves(setup: Setup, w: World, id: string, r: DeliveryRecord)
    ensures RecordMove(setup, w, id, r, Recovered(r))
  {
    hide ContentPath;
  }

  // ------------------------------------------------------ confirming to the source

  predicate IsAcked(records: Records, id: string) {
    id in records && records[id].deliveryStatus == Acknowledged
  }

  /** The ids that became Acknowledged between two states. */
  function NewlyAcked(before: Records, after: Records): set<string> {
    set id | id in after && IsAcked(after, id) && !IsAcked(before, id)
  }

  lemma AckedIsThere(before: Records, after: Records)
    ensures forall id :: id in NewlyAcked(before, after) <==> IsAcked(after, id) && !IsAcked(before, id)
  {
  }

  lemma NewlyAckedStep(start: Records, before: Records, after: Records, id: string)
    requires forall x | x != id :: IsAcked(before, x) == IsAcked(after, x)
    requires IsAcked(before, id) ==> IsAcked(after, id)
    requires IsAcked(start, id) ==> IsAcked(before, id)
    ensures |NewlyAcked(start, after)|
         == |NewlyAcked(start, before)| + if IsAcked(after, id) && !IsAcked(before, id) then 1 else 0
  {
    hide IsAcked;
    AckedIsThere(start, after);
    AckedIsThere(start, before);
    if IsAcked(after, id) && !IsAcked(before, id) {
      assert NewlyAcked(start, after) == NewlyAcked(start, before) + {id};
    } else {
      assert NewlyAcked(start, after) == NewlyAcked(start, before);
    }
  }

  /** Everything about a record except the outcome of its acknowledgement. */
  predicate OnlyAckChanged(a: DeliveryRecord, b: DeliveryRecord) {
    b == a.(deliveryStatus := b.deliveryStatus, acknowledgedAt := b.acknowledgedAt, deliveryError := b.deliveryError)
    && (a.deliveryStatus == Acknowledged ==> b.deliveryStatus == Acknowledged)
  }

  /** Only acknowledgement outcomes moved, and only in these records. */
  predicate AckFrame(before: Records, after: Records, ids: set<string>) {
    && after.Keys == before.Keys
    && forall id | id in before :: OnlyAckChanged(before[id], after[id]) && (id !in ids ==> after[id] == before[id])
  }

  function Confirmed(r: DeliveryRecord, now: nat): DeliveryRecord {
    r.(deliveryStatus := Acknowledged, acknowledgedAt := Some(now), deliveryError := None)
  }

  predicate WorldFrame(before: World, after: World) {
    && after.mode == before.mode && after.moved == before.moved && after.armed == before.armed && after.fired == before.fired
    && before.confirmed <= after.confirmed
  }

  lemma SaveKeepsQueue(w: World, memory: Records)
    requires QueueUntouched(w, memory)
    requires forall id | id in memory && id !in w.disk.records :: memory[id].wallpaperStatus != Running
    ensures WorldFrame(w, Step(w, Saved(memory))) && QueueUntouched(Step(w, Saved(memory)), memory)
  {
    assert TakenUp(w, memory) == {};
    assert StillArmed(w, memory) == {};
  }

  /** A change on the delivery side of a record: it keeps the file's identity and the wallpaper entry. */
  predicate DeliveryEdit(setup: Setup, w: World, id: string, a: DeliveryRecord, b: DeliveryRecord) {
    && RecordMove(setup, w, id, a, b) && SameWallpaper(a, b)
  }

  lemma EditDecides(setup: Setup, w: World, memory: Records, id: string, r: DeliveryRecord)
    requires Saveable(setup, w, memory) && QueueUntouched(w, memory) && SameAt(w.disk.records, memory, id)
    requires if id in memory then DeliveryEdit(setup, w, id, memory[id], r) else FreshRecord(setup, id, r)
    ensures if id in w.disk.records then RecordMove(setup, w, id, w.disk.records[id], r) else FreshRecord(setup, id, r)
    ensures r.wallpaperStatus == Running ==> id in w.disk.records
    ensures forall x | x in memory && x !in w.disk.records :: memory[x].wallpaperStatus != Running
  {
  }

  lemma EditIsSaveable(setup: Setup, w: World, memory: Records, id: string, r: DeliveryRecord)
    requires Saveable(setup, w, memory) && QueueUntouched(w, memory) && SameAt(w.disk.records, memory, id)
    requires if id in memory then DeliveryEdit(setup, w, id, memory[id], r) else FreshRecord(setup, id, r)
    ensures var m := memory[id := r];
            var w' := Step(w, Saved(m));
            && Saveable(setup, w, m) && QueueUntouched(w, m)
            && Saveable(setup, w', m) && QueueUntouched(w', m) && WorldFrame(w, w')
  {
    hide RecordMove, FreshRecord, Saveable, TakenUp, StillArmed;
    var m := memory[id := r];
    EditDecides(setup, w, memory, id, r);
    UpdateSaveable(setup, w, memory, id, r);
    SaveKeepsQueue(w, m);
    SavedIsSaveable(setup, w, m);
  }

  /** Change one record in memory and write the state file. */
  method Persist(f: Folder, memory: Records, id: string, r: DeliveryRecord) returns (ok: bool, m: Records)
    requires f.Valid() && !f.disk.retired && Saveable(f.setup, f.Now(), memory) && QueueUntouched(f.Now(), memory)
    requires SameAt(f.disk.records, memory, id)
    requires if id in memory then DeliveryEdit(f.setup, f.Now(), id, memory[id], r) else FreshRecord(f.setup, id, r)
    modifies f`disk, f`log
    ensures m == memory[id := r]
    ensures f.Valid() && old(f.log) <= f.log && f.disk == old(f.disk).(records := f.disk.records)
    ensures f.disk.records == m || (!ok && f.disk.records == old(f.disk.records))
    ensures Saveable(f.setup, f.Now(), m) && QueueUntouched(f.Now(), m) && WorldFrame(old(f.Now()), f.Now())
    ensures f.calm || f.savesHold ==> ok
  {
    m := memory[id := r];
    EditIsSaveable(f.setup, f.Now(), memory, id, r);
    ok := f.Save(m);
  }

  /** Acknowledge a pending delivery whose file has just been verified or committed, and record the answer. */
  method ConfirmPending(f: Folder, memory: Records, summary: SyncSummary, id: string)
    returns (ok: bool, m: Records, s: SyncSummary)
    requires f.Valid() && !f.disk.retired && Saveable(f.setup, f.Now(), memory) && QueueUntouched(f.Now(), memory)
    requires id in memory && SameAt(f.disk.records, memory, id)
    requires memory[id].id == id && memory[id].deliveryStatus == AckPending
    requires Verifies(f.setup, f.disk.objects, memory[id])
    modifies f`disk, f`log
    ensures f.Valid() && old(f.log) <= f.log && f.disk == old(f.disk).(records := f.disk.records)
    ensures f.disk.records == m || (!ok && f.disk.records == old(f.disk.records))
    ensures Saveable(f.setup, f.Now(), m) && QueueUntouched(f.Now(), m) && WorldFrame(old(f.Now()), f.Now())
    ensures AckFrame(memory, m, {id})
    ensures f.calm || f.savesHold ==> ok
    ensures f.calm ==> m[id].deliveryStatus == Acknowledged && m[id].deliveryError == None
    ensures |f.log| > |old(f.log)| && f.log[|old(f.log)|] == Acked(id, memory[id].sha256, IsAcked(m, id))
    ensures IsAcked(m, id) ==> m[id].deliveryError == None && m[id].acknowledgedAt.Some?
    ensures !IsAcked(m, id) ==> m[id] == memory[id].(deliveryError := Some(AckFailed))
    ensures ok ==> s.failures == summary.failures + if IsAcked(m, id) then [] else [SyncFailure(id, AckFailed)]
    ensures SummaryFrame(summary, s)
    ensures ok ==> s.acknowledged == summary.acknowledged + if IsAcked(m, id) then 1 else 0
  {
    hide Legal, Replay, Saveable, Step, QueueUntouched, RecordMove, Faithful, WorldFrame, DeliveryEdit, FreshRecord;
    ghost var w := f.Now();
    var confirmed := f.Acknowledge(memory[id].id, memory[id].sha256);
    AckFacts(w, id, memory[id].sha256, confirmed);
    ghost var w1 := f.Now();
    SameRecords(f.setup, w, f.Now(), memory);
    var now: nat := *;
    var r := if confirmed then Confirmed(memory[id], now) else memory[id].(deliveryError := Some(AckFailed));
    EditAfterAck(f.setup, w, memory, id, r, confirmed);
    ok, m := Persist(f, memory, id, r);
    WorldFrameTransitive(w, w1, f.Now());
    s := summary;
    if ok && confirmed {
      s := s.(acknowledged := s.acknowledged + 1);
    } else if ok {
      s := s.(failures := s.failures + [SyncFailure(id, AckFailed)]);
    }
  }

  lemma EditAfterAck(setup: Setup, w: World, memory: Records, id: string, r: DeliveryRecord, confirmed: bool)
    requires id in memory && memory[id].id == id
    requires r == memory[id].(deliveryStatus := r.deliveryStatus, acknowledgedAt := r.acknowledgedAt, deliveryError := r.deliveryError)
    requires memory[id].deliveryStatus == Acknowledged ==> r.deliveryStatus == Acknowledged
    requires !confirmed ==> r.deliveryStatus == memory[id].deliveryStatus
    ensures DeliveryEdit(setup, Step(w, Acked(id, memory[id].sha256, confirmed)), id, memory[id], r)
  {
  }

  /** Only the acknowledgement counter and the failure list may have grown. */
  predicate SummaryFrame(a: SyncSummary, b: SyncSummary) {
    b == a.(acknowledged := b.acknowledged, failures := b.failures) && a.failures <= b.failures
  }

  /** Verify the recorded file of one pending delivery, then acknowledge it again. */
  method ReconcileOneAck(f: Folder, memory: Records, summary: SyncSummary, id: string)
    returns (ok: bool, m: Records, s: SyncSummary, doubt: bool)
    requires f.Valid() && !f.disk.retired && f.disk.records == memory && QueueUntouched(f.Now(), memory)
    requires id in memory && memory[id].id == id && memory[id].deliveryStatus == AckPending
    modifies f`disk, f`log
    ensures f.Valid() && old(f.log) <= f.log && f.disk == old(f.disk).(records := f.disk.records)
    ensures AckFrame(memory, m, {id})
    ensures ok ==> f.disk.records == m && QueueUntouched(f.Now(), m) && WorldFrame(old(f.Now()), f.Now())
    ensures f.calm || f.savesHold ==> ok
    ensures doubt ==> m[id] == memory[id].(deliveryError := Some(FileDamaged)) && s == summary
    ensures !doubt && !IsAcked(m, id) ==> m[id] == memory[id].(deliveryError := Some(AckFailed))
    ensures ok && !doubt && !IsAcked(m, id) ==> SyncFailure(id, AckFailed) in s.failures
    ensures doubt ==> m[id].deliveryStatus == AckPending
    ensures !doubt ==> Verifies(f.setup, f.disk.objects, m[id])
    ensures f.calm ==> doubt == !Verifies(f.setup, f.disk.objects, m[id])
    ensures f.calm && !doubt ==> m[id].deliveryStatus == Acknowledged && m[id].deliveryError == None
    ensures SummaryFrame(summary, s)
    ensures ok ==> s.acknowledged == summary.acknowledged + if IsAcked(m, id) then 1 else 0
  {
    hide Legal, Replay, Saveable, QueueUntouched, RecordMove, Faithful, WorldFrame, Step;
    var verified, _ := f.VerifyRecordedFile(memory[id]);
    SyncedIsSaveable(f.setup, f.Now());
    doubt := !verified;
    if verified {
      ok, m, s := ConfirmPending(f, memory, summary, id);
      if ok && !IsAcked(m, id) {
        assert s.failures[|summary.failures|] == SyncFailure(id, AckFailed);
      }
    } else {
      s := summary;
      var r := memory[id].(deliveryError := Some(FileDamaged));
      EditFile(f.setup, f.Now(), id, memory[id], r);
      ok, m := Persist(f, memory, id, r);
    }
  }

  function PendingAcks(records: Records): set<string> {
    set id | id in records && records[id].deliveryStatus == AckPending
  }

  predicate Settled(r: DeliveryRecord) {
    r.deliveryStatus == Acknowledged && r.deliveryError == None
  }

  lemma AckFrameTransitive(a: Records, b: Records, c: Records, ids: set<string>, all: set<string>, id: string)
    requires AckFrame(a, b, ids) && AckFrame(b, c, {id}) && id in all && ids <= all
    ensures AckFrame(a, c, ids + {id}) && AckFrame(a, c, all)
  {
  }

  lemma AckFrameCount(start: Records, before: Records, after: Records, ids: set<string>, id: string)
    requires AckFrame(start, before, ids) && AckFrame(before, after, {id})
    requires id in before && before[id].deliveryStatus == AckPending
    ensures |NewlyAcked(start, after)| == |NewlyAcked(start, before)| + if IsAcked(after, id) then 1 else 0
  {
    NewlyAckedStep(start, before, after, id);
  }

  method ReconcilePendingAcks(f: Folder, memory: Records, summary: SyncSummary)
    returns (ok: bool, m: Records, s: SyncSummary, handled: set<string>, repairNeeded: set<string>)
    requires f.Valid() && !f.disk.retired && f.disk.records == memory && QueueUntouched(f.Now(), memory)
    requires IdsMatch(memory)
    modifies f`disk, f`log
    ensures f.Valid() && old(f.log) <= f.log && f.disk == old(f.disk).(records := f.disk.records)
    ensures AckFrame(memory, m, PendingAcks(memory))
    ensures ok ==> f.disk.records == m && QueueUntouched(f.Now(), m) && WorldFrame(old(f.Now()), f.Now())
    ensures f.calm || f.savesHold ==> ok
    ensures SummaryFrame(summary, s)
    ensures ok ==> s.acknowledged == summary.acknowledged + |NewlyAcked(memory, m)|
    ensures handled !! repairNeeded && handled + repairNeeded <= PendingAcks(memory)
    ensures ok ==> handled + repairNeeded == PendingAcks(memory)
    ensures Verdicts(f.setup, f.disk.objects, m, handled, repairNeeded, f.calm)
    ensures ok ==> RefusalsReported(m, handled, s.failures)
  {
    hide Legal, Replay, Saveable, Step, QueueUntouched, RecordMove, Faithful, WorldFrame, Verifies, NewlyAcked, AckFrame, Verdicts,
      RefusalsReported;
    var pending := Enumerate(PendingAcks(memory));
    m, s, handled, repairNeeded := memory, summary, {}, {};
    ghost var done := {};
    NothingReconciledYet(f.setup, f.disk.objects, memory, f.calm);
    WorldFrameReflexive(f.Now());
    for i := 0 to |pending|
      invariant f.Valid() && old(f.log) <= f.log && f.disk == old(f.disk).(records := m) && QueueUntouched(f.Now(), m)
      invariant WorldFrame(old(f.Now()), f.Now())
      invariant AckFrame(memory, m, done) && done == handled + repairNeeded && done <= PendingAcks(memory)
      invariant SummaryFrame(summary, s) && s.acknowledged == summary.acknowledged + |NewlyAcked(memory, m)|
      invariant handled !! repairNeeded && forall id :: id in handled + repairNeeded <==> id in pending[..i]
      invariant Verdicts(f.setup, f.disk.objects, m, handled, repairNeeded, f.calm)
      invariant RefusalsReported(m, handled, s.failures)
    {
      var id := pending[i];
      assert id in pending && id !in pending[..i];
      AckFrameAt(memory, m, done, id);
      ghost var w, before, handled0, failures := f.Now(), m, handled, s.failures;
      var doubt;
      ok, m, s, doubt := ReconcileOneAck(f, m, s, id);
      AckFrameTransitive(memory, before, m, done, PendingAcks(memory), id);
      VerdictsStep(f.setup, f.disk.objects, before, m, handled, repairNeeded, f.calm, id, doubt);
      if doubt {
        repairNeeded := repairNeeded + {id};
      } else {
        handled := handled + {id};
      }
      if !ok {
        return;
      }
      RefusalsStep(before, m, handled0, failures, s.failures, id, doubt);
      WorldFrameTransitive(old(f.Now()), w, f.Now());
      AckFrameCount(memory, before, m, done, id);
      done := done + {id};
    }
    ok := true;
    assert pending[..|pending|] == pending;
    assert done == PendingAcks(memory);
  }

  /** What reconciliation found out about the pending deliveries. */
  predicate Verdicts(setup: Setup, objects: map<Path, Bytes>, records: Records, handled: set<string>,
                     doubted: set<string>, calm: bool) {
    && handled + doubted <= records.Keys
    && (forall id | id in handled :: Verifies(setup, objects, records[id]) && (calm ==> Settled(records[id])))
    && (forall id | id in handled && records[id].deliveryStatus == AckPending :: records[id].deliveryError == Some(AckFailed))
    && (forall id | id in doubted :: records[id].deliveryStatus == AckPending && records[id].deliveryError == Some(FileDamaged))
    && (calm ==> forall id | id in doubted :: !Verifies(setup, objects, records[id]))
  }

  lemma NothingReconciledYet(setup: Setup, objects: map<Path, Bytes>, records: Records, calm: bool)
    ensures NewlyAcked(records, records) == {} && AckFrame(records, records, {})
    ensures Verdicts(setup, objects, records, {}, {}, calm) && forall failures :: RefusalsReported(records, {}, failures)
  {
  }

  /** Each delivery that was verified and still is not acknowledged is reported as refused by the source. */
  predicate RefusalsReported(records: Records, handled: set<string>, failures: seq<SyncFailure>) {
    forall id | id in handled && id in records && records[id].deliveryStatus == AckPending :: SyncFailure(id, AckFailed) in failures
  }

  lemma RefusalsStep(before: Records, after: Records, handled: set<string>, failures: seq<SyncFailure>,
                     failures': seq<SyncFailure>, id: string, doubt: bool)
    requires RefusalsReported(before, handled, failures) && AckFrame(before, after, {id}) && failures <= failures'
    requires id in after && id !in handled
    requires !doubt && !IsAcked(after, id) ==> SyncFailure(id, AckFailed) in failures'
    ensures RefusalsReported(after, if doubt then handled else handled + {id}, failures')
  {
    forall x | x in handled && x in after && after[x].deliveryStatus == AckPending ensures SyncFailure(x, AckFailed) in failures' {
      assert SyncFailure(x, AckFailed) in failures;
    }
  }

  lemma AckFrameAt(before: Records, after: Records, ids: set<string>, id: string)
    requires AckFrame(before, after, ids) && id in before
    ensures id in after && after[id].id == before[id].id && (id !in ids ==> after[id] == before[id])
  {
  }

  lemma WorldFrameReflexive(a: World)
    ensures WorldFrame(a, a)
  {
  }

  lemma WorldFrameTransitive(a: World, b: World, c: World)
    requires WorldFrame(a, b) && WorldFrame(b, c)
    ensures WorldFrame(a, c)
  {
  }

  /** The outcome of an acknowledgement does not change which file is meant. */
  lemma VerdictsStep(setup: Setup, objects: map<Path, Bytes>, before: Records, after: Records, handled: set<string>,
                     doubted: set<string>, calm: bool, id: string, doubt: bool)
    requires Verdicts(setup, objects, before, handled, doubted, calm) && AckFrame(before, after, {id})
    requires id in before && id !in handled && id !in doubted
    requires !doubt ==> Verifies(setup, objects, after[id]) && (calm ==> Settled(after[id]))
    requires !doubt && after[id].deliveryStatus == AckPending ==> after[id].deliveryError == Some(AckFailed)
    requires doubt ==> after[id].deliveryStatus == AckPending && after[id].deliveryError == Some(FileDamaged)
    requires doubt && calm ==> !Verifies(setup, objects, after[id])
    ensures Verdicts(setup, objects, after, if doubt then handled else handled + {id},
                     if doubt then doubted + {id} else doubted, calm)
  {
    AckKeepsFiles(setup, objects, before, after, id);
    hide Verifies, Settled;
  }

  lemma AckKeepsFiles(setup: Setup, objects: map<Path, Bytes>, before: Records, after: Records, id: string)
    requires AckFrame(before, after, {id})
    ensures forall x | x in before :: x in after && Verifies(setup, objects, after[x]) == Verifies(setup, objects, before[x])
  {
  }

  // ------------------------------------------------------- one listed delivery

  /** Events that leave records alone do not change what may be saved. */
  lemma SameRecords(setup: Setup, w: World, w': World, memory: Records)
    requires Saveable(setup, w, memory) && QueueUntouched(w, memory)
    requires WorldFrame(w, w') && w'.disk.records == w.disk.records
    ensures Saveable(setup, w', memory) && QueueUntouched(w', memory)
  {
    forall x | x in w.disk.records ensures RecordMove(setup, w', x, w.disk.records[x], memory[x]) {
      assert RecordMove(setup, w, x, w.disk.records[x], memory[x]);
    }
  }

  predicate Colliding(r: DeliveryRecord, d: Delivery) {
    r.sha256 != d.sha256 || r.size != d.size || r.mediaType != d.mediaType
  }

  /** What processing one delivery may change in memory. */
  ghost predicate DeliveryFrame(before: Records, after: Records, id: string) {
    && (forall x | x != id :: SameAt(before, after, x))
    && (id in before ==> id in after && KeepsRecord(before[id], after[id]))
  }

  predicate KeepsRecord(a: DeliveryRecord, b: DeliveryRecord) {
    && b.id == a.id && b.sha256 == a.sha256 && b.size == a.size && b.mediaType == a.mediaType
    && SameWallpaper(a, b) && (a.deliveryStatus == Acknowledged ==> b.deliveryStatus == Acknowledged)
  }

  /** Where memory and disk agreed, they still agree, except perhaps about `id`. */
  ghost predicate DiskFollows(before: Records, memory: Records, after: Records, memory': Records, id: string) {
    forall x | x != id && SameAt(before, memory, x) :: SameAt(after, memory', x)
  }

  lemma PersistFrames(before: Records, memory: Records, after: Records, id: string, r: DeliveryRecord)
    requires after == before || after == memory[id := r]
    requires id in memory ==> KeepsRecord(memory[id], r)
    ensures DeliveryFrame(memory, memory[id := r], id) && DiskFollows(before, memory, after, memory[id := r], id)
  {
  }

  lemma FramesCompose(d0: Records, m0: Records, d1: Records, m1: Records, d2: Records, m2: Records, id: string)
    requires DeliveryFrame(m0, m1, id) && DeliveryFrame(m1, m2, id)
    requires DiskFollows(d0, m0, d1, m1, id) && DiskFollows(d1, m1, d2, m2, id)
    ensures DeliveryFrame(m0, m2, id) && DiskFollows(d0, m0, d2, m2, id)
  {
    forall x | x != id ensures SameAt(m0, m2, x) {
      assert SameAt(m0, m1, x) && SameAt(m1, m2, x);
    }
  }

  /** The final steps for a record whose file is in place: acknowledge again and settle its status. */
  method AckExisting(f: Folder, memory: Records, summary: SyncSummary, id: string)
    returns (ok: bool, m: Records, s: SyncSummary, why: Problem)
    requires f.Valid() && !f.disk.retired && Saveable(f.setup, f.Now(), memory) && QueueUntouched(f.Now(), memory)
    requires id in memory && SameAt(f.disk.records, memory, id) && memory[id].id == id
    requires Verifies(f.setup, f.disk.objects, memory[id])
    modifies f`disk, f`log
    ensures f.Valid() && old(f.log) <= f.log && f.disk == old(f.disk).(records := f.disk.records)
    ensures Saveable(f.setup, f.Now(), m) && QueueUntouched(f.Now(), m) && WorldFrame(old(f.Now()), f.Now())
    ensures DeliveryFrame(memory, m, id) && DiskFollows(old(f.disk.records), memory, f.disk.records, m, id)
    ensures id in m && OnlyAckChanged(memory[id], m[id]) && Verifies(f.setup, f.disk.objects, m[id])
    ensures (f.calm || f.savesHold) && old(f.disk.records) == memory ==> f.disk.records == m
    ensures s == summary.(acknowledged := s.acknowledged)
    ensures f.calm || f.savesHold ==>
              s.acknowledged == summary.acknowledged + if IsAcked(m, id) && !IsAcked(memory, id) then 1 else 0
    ensures !ok ==> why == AckFailed || (why == SaveFailed && !f.calm && !f.savesHold)
    ensures |f.log| > |old(f.log)| && f.log[|old(f.log)|].Acked? && f.log[|old(f.log)|].id == id
            && f.log[|old(f.log)|].sha256 == memory[id].sha256
    ensures f.log[|old(f.log)|].confirmed ==> m[id].deliveryStatus == Acknowledged && m[id].deliveryError == None
    ensures !f.log[|old(f.log)|].confirmed ==> !ok && m[id] == memory[id].(deliveryError := Some(AckFailed))
    ensures f.calm ==> ok && Settled(m[id]) && (Settled(memory[id]) ==> m == memory && f.disk == old(f.disk))
  {
    hide Legal, Replay, Saveable, Step, QueueUntouched, RecordMove, Faithful, DeliveryEdit, DeliveryFrame, DiskFollows;
    ghost var w := f.Now();
    s, why := summary, AckFailed;
    var snapshot := memory[id];
    var confirmed := f.Acknowledge(snapshot.id, snapshot.sha256);
    AckFacts(w, id, snapshot.sha256, confirmed);
    SameRecords(f.setup, w, f.Now(), memory);
    if confirmed && Settled(snapshot) {
      m, ok := memory, true;
      PersistFrames(old(f.disk.records), memory, f.disk.records, id, snapshot);
      assert memory == memory[id := snapshot];
      return;
    }
    var now: nat := *;
    var r := if !confirmed then snapshot.(deliveryError := Some(AckFailed))
             else if snapshot.deliveryStatus == Acknowledged then snapshot.(deliveryError := None)
             else Confirmed(snapshot, now);
    EditAfterAck(f.setup, w, memory, id, r, confirmed);
    ok, m := Persist(f, memory, id, r);
    WorldFrameTransitive(w, Step(w, Acked(id, snapshot.sha256, confirmed)), f.Now());
    PersistFrames(old(f.disk.records), memory, f.disk.records, id, r);
    why := if ok then AckFailed else SaveFailed;
    if ok && confirmed && snapshot.deliveryStatus == AckPending {
      s := s.(acknowledged := s.acknowledged + 1);
    }
    ok := ok && confirmed;
  }

  lemma AckFacts(w: World, id: string, sha256: string, confirmed: bool)
    ensures var w' := Step(w, Acked(id, sha256, confirmed));
            WorldFrame(w, w') && w'.disk == w.disk
  {
  }

  /** Replace the file of a known delivery that failed verification. */
  method Repair(f: Folder, memory: Records, summary: SyncSummary, d: Delivery)
    returns (ok: bool, m: Records, s: SyncSummary, why: Problem)
    requires f.Valid() && !f.disk.retired && Saveable(f.setup, f.Now(), memory) && QueueUntouched(f.Now(), memory)
    requires d.id in memory && SameAt(f.disk.records, memory, d.id) && memory[d.id].id == d.id
    requires !Colliding(memory[d.id], d) && d.id in f.Now().suspect
    modifies f`disk, f`log
    ensures f.Valid() && old(f.log) <= f.log && !f.disk.retired
    ensures Saveable(f.setup, f.Now(), m) && QueueUntouched(f.Now(), m) && WorldFrame(old(f.Now()), f.Now())
    ensures DeliveryFrame(memory, m, d.id) && DiskFollows(old(f.disk.records), memory, f.disk.records, m, d.id)
    ensures d.id in m && m[d.id].deliveryStatus == memory[d.id].deliveryStatus
    ensures m[d.id].id == d.id && !Colliding(m[d.id], d)
    ensures ok ==> f.disk.records == m && Verifies(f.setup, f.disk.objects, m[d.id])
    ensures (f.calm || f.savesHold) && old(f.disk.records) == memory ==> f.disk.records == m
    ensures s == summary.(staleStagingFilesRemoved := s.staleStagingFilesRemoved, repaired := s.repaired)
    ensures s.repaired == summary.repaired + if ok then 1 else 0
    ensures OnlyAt(old(f.disk.objects), f.disk.objects, Place(f.setup, d))
    ensures f.calm ==> (ok <==> Genuine(f.setup, d, f.payload(d.id)))
    ensures !ok ==> why == QuarantineFailed || why == CleanupFailed || (why == SaveFailed && !f.calm && !f.savesHold)
                    || m[d.id].deliveryError == Some(why)
    ensures ok && Canonical(f.setup, memory) ==> AllVerify(f.setup, f.disk.objects, m, d)
    ensures ok ==> Some(m[d.id].storedPath) == Place(f.setup, d)
    ensures f.calm && Some(memory[d.id].storedPath) == Place(f.setup, d)
            && !Verifies(f.setup, old(f.disk.objects), memory[d.id]) ==>
              Improves(f.setup, old(f.disk.objects), f.disk.objects, d)
  {
    hide Legal, Replay, Saveable, QueueUntouched, RecordMove, Faithful, DeliveryFrame, DiskFollows, ContentPath, Genuine,
      Improves, Verifies, OnlyAt, Holds, DeliveryEdit, FreshRecord, Step, WorldFrame, Canonical, AllVerify;
    ghost var records, w := f.Now().disk.records, f.Now();
    ok, m := false, memory;
    PersistFrames(records, memory, records, d.id, memory[d.id]);
    assert memory == memory[d.id := memory[d.id]];
    var fetched;
    fetched, s := Refetch(f, memory, summary, d);
    ghost var w1 := f.Now();
    match fetched {
      case Abandoned(problem) =>
        why := problem;
      case NotFetched(problem) =>
        var r := memory[d.id].(deliveryError := Some(problem));
        EditFile(f.setup, f.Now(), d.id, memory[d.id], r);
        var saved;
        saved, m := Persist(f, memory, d.id, r);
        WorldFrameTransitive(w, w1, f.Now());
        PersistFrames(records, memory, f.disk.records, d.id, r);
        why := if saved then problem else SaveFailed;
      case Fetched(asset) =>
        AssetFits(f.setup, f.disk.objects, asset, d);
        var r := memory[d.id].(storedPath := asset.path, size := asset.size, sha256 := asset.sha256,
                               mediaType := asset.mediaType, deliveryError := None);
        EditFile(f.setup, f.Now(), d.id, memory[d.id], r);
        ok, m := Persist(f, memory, d.id, r);
        WorldFrameTransitive(w, w1, f.Now());
        PersistFrames(records, memory, f.disk.records, d.id, r);
        why := SaveFailed;
        if ok {
          RepairServesAll(f.setup, f.disk.objects, memory, m, d);
          s := s.(repaired := s.repaired + 1);
        }
    }
  }

  /** How far fetching the file again came: not to a clear place, not to a file, or all the way. */
  datatype Refetched = Abandoned(problem: Problem) | NotFetched(problem: Problem) | Fetched(asset: StoredAsset)

  /** Take the suspect file away and receive it anew. */
  method Refetch(f: Folder, memory: Records, summary: SyncSummary, d: Delivery) returns (r: Refetched, s: SyncSummary)
    requires f.Valid() && !f.disk.retired && Saveable(f.setup, f.Now(), memory) && QueueUntouched(f.Now(), memory)
    requires d.id in memory && SameAt(f.disk.records, memory, d.id)
    requires !Colliding(memory[d.id], d) && d.id in f.Now().suspect
    modifies f`disk, f`log
    ensures f.Valid() && old(f.log) <= f.log && !f.disk.retired && f.disk.records == old(f.disk.records)
    ensures Saveable(f.setup, f.Now(), memory) && QueueUntouched(f.Now(), memory) && WorldFrame(old(f.Now()), f.Now())
    ensures s == summary.(staleStagingFilesRemoved := s.staleStagingFilesRemoved)
    ensures r.Abandoned? ==> r.problem == QuarantineFailed || r.problem == CleanupFailed
    ensures r.Fetched? ==> Holds(f.setup, f.disk.objects, r.asset, d)
    ensures OnlyAt(old(f.disk.objects), f.disk.objects, Place(f.setup, d))
    ensures f.calm ==> (r.Fetched? <==> Genuine(f.setup, d, f.payload(d.id)))
    ensures f.calm && Some(memory[d.id].storedPath) == Place(f.setup, d)
            && !Verifies(f.setup, old(f.disk.objects), memory[d.id]) ==>
              Improves(f.setup, old(f.disk.objects), f.disk.objects, d)
  {
    hide Legal, Replay, Saveable, QueueUntouched, RecordMove, Faithful, ValidMetadata, ContentPath, Matches, Improves, Verifies,
      OnlyAt, Holds, Unobstructed, FreshRecord, Step, Grows, Acceptable;
    ghost var w, objects := f.Now(), f.disk.objects;
    s := summary;
    ObjectsUnchanged(f.setup, objects, d);
    if ValidMetadata(d, f.setup.maxFileSize) {
      ValidHasPlace(f.setup, d);
    }
    var quarantined := f.Quarantine(d.id);
    ghost var cleared := f.disk.objects;
    TakingAway(f.setup, objects, cleared, memory[d.id], d);
    SameRecords(f.setup, w, f.Now(), memory);
    if quarantined.Err? {
      return Abandoned(QuarantineFailed), s;
    }
    ClearedIsFree(f.setup, cleared, d);
    var stored := f.ReceiveWithRetry(d);
    TouchedTwice(f.setup, objects, cleared, f.disk.objects, d);
    SameRecords(f.setup, w, f.Now(), memory);
    if stored.Err? {
      return NotFetched(stored.error), s;
    }
    var cleaned := f.CleanupStaging();
    SameRecords(f.setup, w, f.Now(), memory);
    if cleaned.Err? {
      return Abandoned(CleanupFailed), s;
    }
    s := s.(staleStagingFilesRemoved := s.staleStagingFilesRemoved + cleaned.value);
    r := Fetched(stored.value);
  }

  /** Every record of this digest, type and size has its file. */
  predicate AllVerify(setup: Setup, objects: map<Path, Bytes>, records: Records, d: Delivery) {
    forall id | id in records && SameDescription(records[id], d) :: Verifies(setup, objects, records[id])
  }

  /** One file serves all records of its description that point to their places. */
  lemma RepairServesAll(setup: Setup, objects: map<Path, Bytes>, before: Records, after: Records, d: Delivery)
    requires DeliveryFrame(before, after, d.id) && d.id in after && SameDescription(after[d.id], d)
    requires Verifies(setup, objects, after[d.id]) && Some(after[d.id].storedPath) == Place(setup, d)
    ensures Canonical(setup, before) ==> AllVerify(setup, objects, after, d)
  {
    hide ContentPath;
    if Canonical(setup, before) {
      forall id | id in after && SameDescription(after[id], d) ensures Verifies(setup, objects, after[id]) {
        if id != d.id {
          assert SameAt(before, after, id);
        }
      }
    }
  }

  lemma ClearedIsFree(setup: Setup, objects: map<Path, Bytes>, d: Delivery)
    requires Place(setup, d).Some? ==> Place(setup, d).value !in objects
    ensures Unobstructed(setup, objects, d)
  {
  }

  /** The stored asset is at the delivery's place, and a record that describes it verifies. */
  lemma AssetFits(setup: Setup, objects: map<Path, Bytes>, asset: StoredAsset, d: Delivery)
    requires Holds(setup, objects, asset, d)
    ensures asset.sha256 == d.sha256 && asset.size == d.size && asset.mediaType == d.mediaType && Some(asset.path) == Place(setup, d)
    ensures forall r: DeliveryRecord | SameDescription(r, d) && r.storedPath == asset.path :: Verifies(setup, objects, r)
  {
  }

  lemma ObjectsUnchanged(setup: Setup, objects: map<Path, Bytes>, d: Delivery)
    ensures OnlyAt(objects, objects, Place(setup, d)) && Improves(setup, objects, objects, d)
  {
  }

  /** Moving the file of a record away improves the store when that file does not verify. */
  lemma TakingAway(setup: Setup, before: map<Path, Bytes>, after: map<Path, Bytes>, r: DeliveryRecord, d: Delivery)
    requires Faithful(setup) && SameDescription(r, d)
    requires after == before || (Place(setup, d).Some? && after == before - {Place(setup, d).value})
    ensures OnlyAt(before, after, Place(setup, d))
    ensures Some(r.storedPath) == Place(setup, d) && !Verifies(setup, before, r) ==> Improves(setup, before, after, d)
  {
    if Some(r.storedPath) == Place(setup, d) {
      VerifiesIsMatching(setup, before, r, d);
    }
    hide Verifies, Matches, Faithful;
  }

  lemma TouchedTwice(setup: Setup, a: map<Path, Bytes>, b: map<Path, Bytes>, c: map<Path, Bytes>, d: Delivery)
    requires OnlyAt(a, b, Place(setup, d)) && OnlyAt(b, c, Place(setup, d))
    ensures OnlyAt(a, c, Place(setup, d))
    ensures Improves(setup, a, b, d) && Improves(setup, b, c, d) ==> Improves(setup, a, c, d)
  {
    if Improves(setup, a, b, d) && Improves(setup, b, c, d) {
      ImprovesTransitive(setup, a, b, c, d);
    }
  }

  lemma EditFile(setup: Setup, w: World, id: string, a: DeliveryRecord, b: DeliveryRecord)
    requires b == a.(storedPath := b.storedPath, deliveryError := b.deliveryError)
    requires b.storedPath == a.storedPath || Some(b.storedPath) == ContentPath(setup.library, b.sha256, b.mediaType)
    ensures DeliveryEdit(setup, w, id, a, b)
  {
  }

  function NewRecord(d: Delivery, asset: StoredAsset, now: nat): DeliveryRecord {
    DeliveryRecord(d.id, d.originalName, asset.mediaType, asset.sha256, asset.size, asset.path, AckPending,
                   if IsImageMediaType(asset.mediaType) then Pending else NotApplicable, 0, None, None,
                   d.createdAt, now, None, None)
  }

  /** The delivery is on record, confirmed, free of errors, and its file verifies at its content path. */
  predicate Delivered(setup: Setup, objects: map<Path, Bytes>, records: Records, d: Delivery) {
    && d.id in records && !Colliding(records[d.id], d)
    && records[d.id].deliveryStatus == Acknowledged && records[d.id].deliveryError == None
    && Some(records[d.id].storedPath) == ContentPath(setup.library, d.sha256, d.mediaType)
    && Verifies(setup, objects, records[d.id])
  }

  /** The record carries what the delivery announced, and no command was run for it; images wait for theirs. */
  predicate RecordedAs(r: DeliveryRecord, d: Delivery) {
    && r.id == d.id && r.originalName == d.originalName && r.sourceCreatedAt == d.createdAt
    && r.sha256 == d.sha256 && r.size == d.size && r.mediaType == d.mediaType
    && r.wallpaperStatus == (if r.mediaType in {Png, Jpeg, Gif, Webp, Avif} then Pending else NotApplicable)
    && r.wallpaperAttempts == 0 && r.wallpaperError == None && r.importedAt == None
  }

  /** The record of a delivery whose file has just been stored. */
  ghost predicate JustStored(setup: Setup, objects: map<Path, Bytes>, records: Records, d: Delivery) {
    d.id in records && exists asset, now :: Holds(setup, objects, asset, d) && records[d.id] == NewRecord(d, asset, now)
  }

  /** Store the file and make its record durable. */
  method StoreNew(f: Folder, memory: Records, summary: SyncSummary, d: Delivery)
    returns (ok: bool, m: Records, s: SyncSummary, why: Problem)
    requires f.Valid() && !f.disk.retired && Saveable(f.setup, f.Now(), memory) && QueueUntouched(f.Now(), memory)
    requires d.id !in memory && SameAt(f.disk.records, memory, d.id)
    modifies f`disk, f`log
    ensures f.Valid() && old(f.log) <= f.log && !f.disk.retired
    ensures Saveable(f.setup, f.Now(), m) && QueueUntouched(f.Now(), m) && WorldFrame(old(f.Now()), f.Now())
    ensures DeliveryFrame(memory, m, d.id) && DiskFollows(old(f.disk.records), memory, f.disk.records, m, d.id)
    ensures (f.calm || f.savesHold) && old(f.disk.records) == memory ==> f.disk.records == m
    ensures m == memory || JustStored(f.setup, f.disk.objects, m, d)
    ensures d.id in m ==> RecordedAs(m[d.id], d)
    ensures ok ==> f.disk.records == m && JustStored(f.setup, f.disk.objects, m, d)
    ensures !ok && (f.calm || f.savesHold) ==> m == memory
    ensures !ok && m != memory ==> why == SaveFailed
    ensures s == summary.(received := s.received, wallpaperNotApplicable := s.wallpaperNotApplicable)
    ensures s.received == summary.received + if ok then 1 else 0
    ensures OnlyAt(old(f.disk.objects), f.disk.objects, Place(f.setup, d))
    ensures f.calm ==> Improves(f.setup, old(f.disk.objects), f.disk.objects, d)
    ensures f.calm ==> (ok <==> Obtainable(f.setup, old(f.disk.objects), d, f.payload(d.id)))
  {
    hide Legal, Replay, Saveable, QueueUntouched, RecordMove, Faithful, DeliveryFrame, DiskFollows, ValidMetadata, Step,
      WorldFrame, ContentPath, FreshRecord, Holds, Verifies, Improves, OnlyAt, Obtainable, RecordedAs;
    ghost var w, records := f.Now(), f.disk.records;
    m, s, why := memory, summary, SaveFailed;
    var stored := f.ReceiveWithRetry(d);
    ghost var w1 := f.Now();
    TransferKeepsWorld(w, w1);
    SameRecords(f.setup, w, w1, memory);
    if stored.Err? {
      NoChange(records, memory, d.id);
      return false, m, s, stored.error;
    }
    if !IsImageMediaType(stored.value.mediaType) {
      s := s.(wallpaperNotApplicable := s.wallpaperNotApplicable + 1);
    }
    var now: nat := *;
    var r := NewRecord(d, stored.value, now);
    NewRecordFacts(f.setup, f.disk.objects, d, stored.value, now);
    ok, m := Persist(f, memory, d.id, r);
    WorldFrameTransitive(w, w1, f.Now());
    PersistFrames(records, memory, f.disk.records, d.id, r);
    if ok {
      s := s.(received := s.received + 1);
    }
  }

  /** Receive a delivery that is not on record yet. */
  method ReceiveNew(f: Folder, memory: Records, summary: SyncSummary, d: Delivery)
    returns (ok: bool, m: Records, s: SyncSummary, why: Problem)
    requires f.Valid() && !f.disk.retired && Saveable(f.setup, f.Now(), memory) && QueueUntouched(f.Now(), memory)
    requires d.id !in memory && SameAt(f.disk.records, memory, d.id)
    modifies f`disk, f`log
    ensures f.Valid() && old(f.log) <= f.log && !f.disk.retired
    ensures Saveable(f.setup, f.Now(), m) && QueueUntouched(f.Now(), m) && WorldFrame(old(f.Now()), f.Now())
    ensures DeliveryFrame(memory, m, d.id) && DiskFollows(old(f.disk.records), memory, f.disk.records, m, d.id)
    ensures d.id in m ==> RecordedAs(m[d.id], d)
    ensures (f.calm || f.savesHold) && old(f.disk.records) == memory ==> f.disk.records == m
    ensures Counted(s) == Counted(summary) + (if ok || s.received > summary.received then 1 else 0)
    ensures summary.failures <= s.failures
    ensures !ok && m != memory ==> why == SaveFailed
    ensures f.calm || f.savesHold ==> s.acknowledged == summary.acknowledged + if IsAcked(m, d.id) then 1 else 0
    ensures OnlyAt(old(f.disk.objects), f.disk.objects, Place(f.setup, d))
    ensures f.calm ==> Improves(f.setup, old(f.disk.objects), f.disk.objects, d)
    ensures f.calm ==> (ok <==> Obtainable(f.setup, old(f.disk.objects), d, f.payload(d.id)))
    ensures f.calm && ok ==> Delivered(f.setup, f.disk.objects, m, d)
  {
    hide Legal, Replay, Saveable, QueueUntouched, RecordMove, Faithful, DeliveryFrame, DiskFollows, Step, WorldFrame,
      RecordedAs, JustStored, Verifies, Delivered, Improves, OnlyAt, Obtainable, AckFrame;
    ghost var w, records := f.Now(), f.disk.records;
    ok, m, s, why := StoreNew(f, memory, summary, d);
    JustStoredFacts(f.setup, f.disk.objects, m, d);
    if !ok {
      return;
    }
    ghost var w2, d2, m2 := f.Now(), f.disk.records, m;
    why := SaveFailed;
    ok, m, s := ConfirmPending(f, m, s, d.id);
    WorldFrameTransitive(w, w2, f.Now());
    ConfirmFrames(d2, m2, f.disk.records, m, d.id);
    ConfirmedNew(f.setup, f.disk.objects, m2, m, d);
    FramesCompose(records, memory, d2, m2, f.disk.records, m, d.id);
  }

  lemma JustStoredFacts(setup: Setup, objects: map<Path, Bytes>, records: Records, d: Delivery)
    ensures JustStored(setup, objects, records, d) ==>
              && d.id in records && records[d.id].id == d.id && records[d.id].deliveryStatus == AckPending
              && Verifies(setup, objects, records[d.id])
  {
  }

  lemma NewRecordFacts(setup: Setup, objects: map<Path, Bytes>, d: Delivery, asset: StoredAsset, now: nat)
    requires Holds(setup, objects, asset, d)
    ensures FreshRecord(setup, d.id, NewRecord(d, asset, now)) && Verifies(setup, objects, NewRecord(d, asset, now))
    ensures RecordedAs(NewRecord(d, asset, now), d)
  {
  }

  lemma ConfirmedNew(setup: Setup, objects: map<Path, Bytes>, before: Records, after: Records, d: Delivery)
    requires JustStored(setup, objects, before, d) && AckFrame(before, after, {d.id})
    ensures d.id in after && (RecordedAs(before[d.id], d) ==> RecordedAs(after[d.id], d))
    ensures Settled(after[d.id]) ==> Delivered(setup, objects, after, d)
  {
  }

  lemma TransferKeepsWorld(w: World, w': World)
    requires w' == w.(disk := w'.disk, suspect := w'.suspect)
    ensures WorldFrame(w, w')
  {
  }

  lemma NoChange(records: Records, memory: Records, id: string)
    ensures DeliveryFrame(memory, memory, id) && DiskFollows(records, memory, records, memory, id)
  {
  }

  lemma ConfirmFrames(before: Records, memory: Records, after: Records, memory': Records, id: string)
    requires after == before || after == memory'
    requires AckFrame(memory, memory', {id})
    ensures DeliveryFrame(memory, memory', id) && DiskFollows(before, memory, after, memory', id)
  {
  }

  /** Verify, if need be repair, and confirm again a delivery that is on record. */
  method ProcessKnown(f: Folder, memory: Records, summary: SyncSummary, d: Delivery)
    returns (ok: bool, m: Records, s: SyncSummary, why: Problem)
    requires f.Valid() && !f.disk.retired && Saveable(f.setup, f.Now(), memory) && QueueUntouched(f.Now(), memory)
    requires d.id in memory && SameAt(f.disk.records, memory, d.id) && memory[d.id].id == d.id
    requires !Colliding(memory[d.id], d)
    modifies f`disk, f`log
    ensures f.Valid() && old(f.log) <= f.log && !f.disk.retired
    ensures Saveable(f.setup, f.Now(), m) && QueueUntouched(f.Now(), m) && WorldFrame(old(f.Now()), f.Now())
    ensures DeliveryFrame(memory, m, d.id) && DiskFollows(old(f.disk.records), memory, f.disk.records, m, d.id)
    ensures (f.calm || f.savesHold) && old(f.disk.records) == memory ==> f.disk.records == m
    ensures s.failures == summary.failures
    ensures Counted(s) == Counted(summary) + (if ok || s.repaired > summary.repaired then 1 else 0)
    ensures f.calm || f.savesHold ==>
              s.acknowledged == summary.acknowledged + if IsAcked(m, d.id) && !IsAcked(memory, d.id) then 1 else 0
    ensures OnlyAt(old(f.disk.objects), f.disk.objects, Place(f.setup, d))
    ensures f.calm && Some(memory[d.id].storedPath) == Place(f.setup, d) ==>
              Improves(f.setup, old(f.disk.objects), f.disk.objects, d)
    ensures f.calm && Some(memory[d.id].storedPath) == Place(f.setup, d) && Genuine(f.setup, d, f.payload(d.id)) ==>
              ok && Delivered(f.setup, f.disk.objects, m, d)
    ensures f.calm && Delivered(f.setup, old(f.disk.objects), memory, d) ==>
              ok && m == memory && f.disk == old(f.disk) && s == summary.(alreadyStored := summary.alreadyStored + 1)
  {
    hide Legal, Replay, Saveable, QueueUntouched, RecordMove, Faithful, DeliveryFrame, DiskFollows, Step, WorldFrame,
      ContentPath, Verifies, Genuine, Improves, OnlyAt;
    ghost var w, records := f.Now(), f.disk.records;
    ObjectsUnchanged(f.setup, f.disk.objects, d);
    var verified := f.VerifyOrDoubt(d.id, memory[d.id]);
    DoubtKeepsWorld(w, f.Now());
    SameRecords(f.setup, w, f.Now(), memory);
    m, s, why := memory, summary, FileDamaged;
    var repaired := false;
    WorldFrameReflexive(w);
    NoChange(records, memory, d.id);
    if !verified {
      ghost var w0 := f.Now();
      ok, m, s, why := Repair(f, memory, summary, d);
      WorldFrameTransitive(w, w0, f.Now());
      if !ok {
        return;
      }
      repaired := true;
    }
    ghost var w1, d1, m1 := f.Now(), f.disk.records, m;
    ok, m, s, why := AckExisting(f, m, s, d.id);
    WorldFrameTransitive(w, w1, f.Now());
    FramesCompose(records, memory, d1, m1, f.disk.records, m, d.id);
    if ok && !repaired {
      s := s.(alreadyStored := s.alreadyStored + 1);
    }
  }

  lemma DoubtKeepsWorld(w: World, w': World)
    requires w' == w.(suspect := w'.suspect)
    ensures WorldFrame(w, w') && w'.disk == w.disk
  {
  }

  /**
   Nothing but this sync is needed for the delivery: the source serves what it
   announces, and a new delivery finds its place free or filled by a fitting file. A
   recorded one may have lost its file, or have a damaged one.
   */
  predicate Deliverable(setup: Setup, objects: map<Path, Bytes>, records: Records, d: Delivery, bytes: Bytes) {
    Genuine(setup, d, bytes) && (d.id !in records ==> Unobstructed(setup, objects, d))
  }

  /** The record, if there is one, keeps its file at the delivery's own place. */
  predicate InPlace(setup: Setup, records: Records, d: Delivery) {
    d.id in records && !Colliding(records[d.id], d) ==> Some(records[d.id].storedPath) == Place(setup, d)
  }

  /** One listed delivery: refuse an id collision, otherwise confirm, repair or receive. */
  method ProcessDelivery(f: Folder, memory: Records, summary: SyncSummary, d: Delivery)
    returns (ok: bool, m: Records, s: SyncSummary, why: Problem)
    requires f.Valid() && !f.disk.retired && Saveable(f.setup, f.Now(), memory) && QueueUntouched(f.Now(), memory)
    requires SameAt(f.disk.records, memory, d.id) && (d.id in memory ==> memory[d.id].id == d.id)
    modifies f`disk, f`log
    ensures f.Valid() && old(f.log) <= f.log && !f.disk.retired
    ensures Saveable(f.setup, f.Now(), m) && QueueUntouched(f.Now(), m) && WorldFrame(old(f.Now()), f.Now())
    ensures DeliveryFrame(memory, m, d.id) && DiskFollows(old(f.disk.records), memory, f.disk.records, m, d.id)
    ensures d.id in m ==> m[d.id].id == d.id && (d.id !in memory ==> RecordedAs(m[d.id], d))
    ensures (f.calm || f.savesHold) && old(f.disk.records) == memory ==> f.disk.records == m
    ensures summary.failures <= s.failures
    ensures Counted(summary) <= Counted(s) <= Counted(summary) + 1 && (ok ==> Counted(s) == Counted(summary) + 1)
    ensures f.calm || f.savesHold ==>
              s.acknowledged == summary.acknowledged + if IsAcked(m, d.id) && !IsAcked(memory, d.id) then 1 else 0
    ensures OnlyAt(old(f.disk.objects), f.disk.objects, Place(f.setup, d))
    ensures f.calm && InPlace(f.setup, memory, d) ==> Improves(f.setup, old(f.disk.objects), f.disk.objects, d)
    ensures f.calm && InPlace(f.setup, memory, d) && Joinable(memory, d)
            && Deliverable(f.setup, old(f.disk.objects), memory, d, f.payload(d.id)) ==>
              ok && Delivered(f.setup, f.disk.objects, m, d)
    ensures f.calm && d.id !in memory ==> (ok <==> Deliverable(f.setup, old(f.disk.objects), memory, d, f.payload(d.id)))
    ensures !Joinable(memory, d) ==> !ok && why == IdCollision && m == memory && f.disk == old(f.disk) && s == summary
    ensures d.id in memory ==>
              Joinable(memory, d) ==
                (memory[d.id].sha256 == d.sha256 && memory[d.id].size == d.size && memory[d.id].mediaType == d.mediaType)
    ensures d.id !in memory ==> Joinable(memory, d)
    ensures f.calm && Delivered(f.setup, old(f.disk.objects), memory, d) ==>
              ok && m == memory && f.disk == old(f.disk) && s == summary.(alreadyStored := summary.alreadyStored + 1)
  {
    hide Legal, Replay, Saveable, QueueUntouched, RecordMove, Faithful, DeliveryFrame, DiskFollows, Step, WorldFrame,
      ContentPath, Verifies, Genuine, Unobstructed, Improves, OnlyAt;
    ObjectsUnchanged(f.setup, f.disk.objects, d);
    if d.id in memory {
      if Colliding(memory[d.id], d) {
        WorldFrameReflexive(f.Now());
        NoChange(f.disk.records, memory, d.id);
        return false, memory, summary, IdCollision;
      }
      ok, m, s, why := ProcessKnown(f, memory, summary, d);
      KeepsId(memory, m, d.id);
    } else {
      ok, m, s, why := ReceiveNew(f, memory, summary, d);
    }
  }

  /** No record stands in the way of this delivery id. */
  predicate Joinable(records: Records, d: Delivery) {
    d.id in records ==> !Colliding(records[d.id], d)
  }

  lemma KeepsId(before: Records, after: Records, id: string)
    requires DeliveryFrame(before, after, id) && id in before
    ensures id in after && after[id].id == before[id].id
  {
  }

  // ------------------------------------------------------------ the whole listing

  predicate DistinctIds(listing: seq<Delivery>) {
    forall i, j | 0 <= i < j < |listing| :: listing[i].id != listing[j].id
  }

  predicate HasFailure(failures: seq<SyncFailure>, id: string) {
    exists i | 0 <= i < |failures| :: failures[i].item == id
  }

  /** Every delivery was counted once, or its id is among the failures. */
  predicate Accounted(counted: nat, failures: seq<SyncFailure>, listing: seq<Delivery>, n: nat, missed: set<string>)
    requires n <= |listing|
  {
    && counted + |missed| == n
    && (forall id | id in missed :: HasFailure(failures, id) && exists j | 0 <= j < n :: listing[j].id == id)
  }

  lemma AccountedStep(counted: nat, failures: seq<SyncFailure>, counted': nat, failures': seq<SyncFailure>,
                      listing: seq<Delivery>, n: nat, missed: set<string>)
    requires DistinctIds(listing) && n < |listing| && Accounted(counted, failures, listing, n, missed)
    requires failures <= failures' && counted <= counted' <= counted + 1
    requires counted' == counted ==> HasFailure(failures', listing[n].id)
    ensures Accounted(counted', failures', listing, n + 1, if counted' == counted then missed + {listing[n].id} else missed)
  {
    forall id | id in missed ensures HasFailure(failures', id) {
      var i :| 0 <= i < |failures| && failures[i].item == id;
      assert failures'[i].item == id;
    }
    assert listing[n].id !in missed;
  }

  /** Every listed delivery can be had, and no two of them disagree about the size behind a digest. */
  ghost predicate Honest(setup: Setup, payload: string -> Bytes, objects: map<Path, Bytes>, records: Records,
                         listing: seq<Delivery>) {
    && (forall i | 0 <= i < |listing| :: Deliverable(setup, objects, records, listing[i], payload(listing[i].id)))
    && SizesAgree(listing)
  }

  predicate SizesAgree(listing: seq<Delivery>) {
    forall i, j | 0 <= i < |listing| && 0 <= j < |listing| && listing[i].sha256 == listing[j].sha256 ::
      listing[i].size == listing[j].size
  }

  /** The first `n` deliveries and the handled ones are done; the rest are as they were. */
  ghost predicate Progress(setup: Setup, payload: string -> Bytes, objects: map<Path, Bytes>, memory: Records, m: Records,
                           listing: seq<Delivery>, n: nat, handled: set<string>) {
    && (forall j | 0 <= j < |listing| && (j < n || listing[j].id in handled) && Joinable(memory, listing[j]) ::
          Delivered(setup, objects, m, listing[j]))
    && (forall j | n <= j < |listing| :: SameAt(memory, m, listing[j].id))
    && Honest(setup, payload, objects, memory, listing)
  }

  /** At the place of one delivery, what fits it also fits another of the same digest, type and size. */
  lemma SharedPlace(setup: Setup, d: Delivery, e: Delivery)
    requires Place(setup, d).Some? && Place(setup, d) == Place(setup, e) && (d.sha256 == e.sha256 ==> d.size == e.size)
    ensures forall c :: Matches(setup, c, d) == Matches(setup, c, e)
  {
    ContentPathInjective(setup.library, d.sha256, d.mediaType, e.sha256, e.mediaType);
  }

  lemma StillUnobstructed(setup: Setup, before: map<Path, Bytes>, after: map<Path, Bytes>, d: Delivery, e: Delivery)
    requires Improves(setup, before, after, d) && Unobstructed(setup, before, e) && (d.sha256 == e.sha256 ==> d.size == e.size)
    ensures Unobstructed(setup, after, e)
  {
    if Place(setup, e).Some? && Place(setup, e) == Place(setup, d) {
      SharedPlace(setup, d, e);
    }
    hide ContentPath, Matches;
  }

  lemma StillDelivered(setup: Setup, before: map<Path, Bytes>, after: map<Path, Bytes>, m: Records, m': Records,
                       d: Delivery, e: Delivery)
    requires Faithful(setup) && Improves(setup, before, after, d) && (d.sha256 == e.sha256 ==> d.size == e.size)
    requires Delivered(setup, before, m, e) && SameAt(m, m', e.id)
    ensures Delivered(setup, after, m', e)
  {
    VerifiesIsMatching(setup, before, m[e.id], e);
    VerifiesIsMatching(setup, after, m[e.id], e);
    if Place(setup, e) == Place(setup, d) {
      SharedPlace(setup, d, e);
    }
    hide ContentPath, Matches, Verifies, Faithful;
  }

  lemma HonestImproves(setup: Setup, payload: string -> Bytes, before: map<Path, Bytes>, after: map<Path, Bytes>, records: Records,
                       listing: seq<Delivery>, n: nat)
    requires n < |listing| && Honest(setup, payload, before, records, listing) && Improves(setup, before, after, listing[n])
    ensures Honest(setup, payload, after, records, listing)
  {
    hide Genuine, Unobstructed, Improves;
    forall j | 0 <= j < |listing| ensures Deliverable(setup, after, records, listing[j], payload(listing[j].id)) {
      assert Deliverable(setup, before, records, listing[j], payload(listing[j].id));
      if listing[j].id !in records {
        StillUnobstructed(setup, before, after, listing[n], listing[j]);
      }
    }
  }

  lemma ProgressStep(setup: Setup, payload: string -> Bytes, before: map<Path, Bytes>, after: map<Path, Bytes>,
                     memory: Records, m: Records, m': Records, listing: seq<Delivery>, n: nat, handled: set<string>)
    requires DistinctIds(listing) && n < |listing| && Progress(setup, payload, before, memory, m, listing, n, handled)
    requires Faithful(setup) && forall x | x != listing[n].id :: SameAt(m, m', x)
    requires Improves(setup, before, after, listing[n])
    requires Joinable(memory, listing[n]) ==> Delivered(setup, after, m', listing[n])
    ensures Progress(setup, payload, after, memory, m', listing, n + 1, handled)
  {
    hide Delivered, Deliverable, Improves, Joinable, Faithful, SameAt;
    HonestImproves(setup, payload, before, after, memory, listing, n);
    forall j | 0 <= j < |listing| && (j < n + 1 || listing[j].id in handled) && Joinable(memory, listing[j])
      ensures Delivered(setup, after, m', listing[j])
    {
      if j != n {
        StillDelivered(setup, before, after, m, m', listing[n], listing[j]);
      }
    }
    forall j | n < j < |listing| ensures SameAt(memory, m', listing[j].id) {
      SameAtTransitive(memory, m, m', listing[j].id);
    }
  }

  lemma SameAtTransitive(a: Records, b: Records, c: Records, id: string)
    requires SameAt(a, b, id) && SameAt(b, c, id)
    ensures SameAt(a, c, id)
  {
  }

  /** Nothing is left to transfer: every listed id is on record, delivered or refused as a collision. */
  predicate NothingToDo(setup: Setup, objects: map<Path, Bytes>, records: Records, listing: seq<Delivery>) {
    forall d | d in listing :: Joinable(records, d) ==> Delivered(setup, objects, records, d)
  }

  predicate ListedAgree(records: Records, memory: Records, listing: seq<Delivery>, n: nat) {
    forall j | n <= j < |listing| :: SameAt(records, memory, listing[j].id)
  }

  lemma ListedAgreeStep(before: Records, memory: Records, after: Records, memory': Records, listing: seq<Delivery>, n: nat)
    requires DistinctIds(listing) && n < |listing| && ListedAgree(before, memory, listing, n)
    requires DiskFollows(before, memory, after, memory', listing[n].id)
    ensures ListedAgree(after, memory', listing, n + 1)
  {
  }

  lemma IdsMatchStep(before: Records, after: Records, id: string)
    requires IdsMatch(before) && DeliveryFrame(before, after, id) && (id in after ==> after[id].id == id)
    ensures IdsMatch(after) && before.Keys <= after.Keys
    ensures forall x | x != id :: SameAt(before, after, x)
    ensures forall x | x != id :: IsAcked(before, x) == IsAcked(after, x)
    ensures IsAcked(before, id) ==> IsAcked(after, id)
  {
    forall x | x in after ensures after[x].id == x {
      if x != id { assert SameAt(before, after, x); }
    }
    forall x | x != id ensures IsAcked(before, x) == IsAcked(after, x) { assert SameAt(before, after, x); }
    forall x | x in before ensures x in after { if x != id { assert SameAt(before, after, x); } }
  }

  /** Records stay, keep their identity, and stay acknowledged. */
  ghost predicate Persists(before: Records, after: Records) {
    forall id | id in before ::
      && id in after && after[id].sha256 == before[id].sha256 && after[id].size == before[id].size
      && after[id].mediaType == before[id].mediaType && (IsAcked(before, id) ==> IsAcked(after, id))
  }

  lemma PersistsStep(start: Records, before: Records, after: Records, id: string)
    requires Persists(start, before) && DeliveryFrame(before, after, id)
    ensures Persists(start, after)
  {
    forall x | x in start ensures x in after && IsAcked(before, x) ==> IsAcked(after, x) {
      if x != id { assert SameAt(before, after, x); }
    }
    assert forall x | x in start && x != id :: SameAt(before, after, x);
  }

  /** What reconciliation has handled is delivered already. */
  lemma HandledIsDelivered(setup: Setup, objects: map<Path, Bytes>, memory: Records, handled: set<string>, d: Delivery)
    requires Verdicts(setup, objects, memory, handled, {}, true) && Canonical(setup, memory)
    requires d.id in handled && Joinable(memory, d)
    ensures Delivered(setup, objects, memory, d)
  {
  }

  /** What the loop over the listing does with one delivery; handled ids are skipped without another look. */
  method ProcessListed(f: Folder, memory: Records, summary: SyncSummary, d: Delivery, handled: bool)
    returns (m: Records, s: SyncSummary)
    requires f.Valid() && !f.disk.retired && Saveable(f.setup, f.Now(), memory) && QueueUntouched(f.Now(), memory)
    requires SameAt(f.disk.records, memory, d.id) && (d.id in memory ==> memory[d.id].id == d.id)
    modifies f`disk, f`log
    ensures f.Valid() && old(f.log) <= f.log && !f.disk.retired
    ensures Saveable(f.setup, f.Now(), m) && QueueUntouched(f.Now(), m) && WorldFrame(old(f.Now()), f.Now())
    ensures DeliveryFrame(memory, m, d.id) && DiskFollows(old(f.disk.records), memory, f.disk.records, m, d.id)
    ensures d.id in m ==> m[d.id].id == d.id && (d.id !in memory ==> RecordedAs(m[d.id], d))
    ensures (f.calm || f.savesHold) && old(f.disk.records) == memory ==> f.disk.records == m
    ensures summary.failures <= s.failures
    ensures Counted(summary) <= Counted(s) <= Counted(summary) + 1
    ensures Counted(s) == Counted(summary) ==> HasFailure(s.failures, d.id)
    ensures !handled && !Joinable(memory, d) ==> SyncFailure(d.id, IdCollision) in s.failures
    ensures f.calm || f.savesHold ==>
              s.acknowledged == summary.acknowledged + if IsAcked(m, d.id) && !IsAcked(memory, d.id) then 1 else 0
    ensures OnlyAt(old(f.disk.objects), f.disk.objects, Place(f.setup, d))
    ensures f.calm && InPlace(f.setup, memory, d) ==> Improves(f.setup, old(f.disk.objects), f.disk.objects, d)
    ensures f.calm && !handled && InPlace(f.setup, memory, d) && Joinable(memory, d)
            && Deliverable(f.setup, old(f.disk.objects), memory, d, f.payload(d.id)) ==>
              Delivered(f.setup, f.disk.objects, m, d)
    ensures handled || !Joinable(memory, d) || (f.calm && Delivered(f.setup, old(f.disk.objects), memory, d)) ==>
              m == memory && f.disk == old(f.disk) && s.received == summary.received && s.repaired == summary.repaired
  {
    hide Legal, Replay, Saveable, QueueUntouched, RecordMove, Faithful, DeliveryFrame, DiskFollows, Step, WorldFrame,
      ContentPath, Verifies, Deliverable, InPlace, Improves, OnlyAt, Delivered, Joinable, IsAcked;
    ObjectsUnchanged(f.setup, f.disk.objects, d);
    if handled {
      WorldFrameReflexive(f.Now());
      NoChange(f.disk.records, memory, d.id);
      return memory, summary.(alreadyStored := summary.alreadyStored + 1);
    }
    var ok, why;
    ok, m, s, why := ProcessDelivery(f, memory, summary, d);
    if !ok {
      s := s.(failures := s.failures + [SyncFailure(d.id, why)]);
      assert s.failures[|s.failures| - 1].item == d.id;
    }
  }

  /** After `n` deliveries, only their records can differ, and a record that is new carries what was announced. */
  ghost predicate RecordedUpTo(memory: Records, m: Records, listing: seq<Delivery>, n: nat)
    requires n <= |listing|
  {
    && (forall id | forall j | 0 <= j < n :: listing[j].id != id :: SameAt(memory, m, id))
    && (forall id | id in memory :: id in m && SameWallpaper(memory[id], m[id]))
    && forall j | 0 <= j < n && listing[j].id !in memory && listing[j].id in m :: RecordedAs(m[listing[j].id], listing[j])
  }

  lemma RecordedStep(memory: Records, m: Records, m': Records, listing: seq<Delivery>, n: nat)
    requires DistinctIds(listing) && n < |listing| && RecordedUpTo(memory, m, listing, n)
    requires forall x | x != listing[n].id :: SameAt(m, m', x)
    requires DeliveryFrame(m, m', listing[n].id)
    requires listing[n].id !in m && listing[n].id in m' ==> RecordedAs(m'[listing[n].id], listing[n])
    ensures RecordedUpTo(memory, m', listing, n + 1)
  {
    hide RecordedAs;
    assert forall x | x != listing[n].id :: SameAt(m, m', x);
    forall id | forall j | 0 <= j < n + 1 :: listing[j].id != id ensures SameAt(memory, m', id) {
      assert listing[n].id != id;
      assert forall j | 0 <= j < n :: listing[j].id != id;
      assert SameAt(memory, m, id);
      SameAtTransitive(memory, m, m', id);
    }
    assert SameAt(memory, m, listing[n].id);
    forall id | id in memory ensures id in m' && SameWallpaper(memory[id], m'[id]) {
      if id != listing[n].id {
        assert SameAt(m, m', id);
      }
    }
    forall j | 0 <= j < n + 1 && listing[j].id !in memory && listing[j].id in m'
      ensures RecordedAs(m'[listing[j].id], listing[j])
    {
      if j < n {
        assert SameAt(m, m', listing[j].id);
      }
    }
  }

  /** What the records say after the whole listing. */
  lemma RecordedDone(memory: Records, m: Records, listing: seq<Delivery>)
    requires RecordedUpTo(memory, m, listing, |listing|)
    ensures forall id | forall d | d in listing :: d.id != id :: SameAt(memory, m, id)
    ensures forall id | id in memory :: id in m && SameWallpaper(memory[id], m[id])
    ensures forall d | d in listing && d.id !in memory && d.id in m :: RecordedAs(m[d.id], d)
    ensures forall id | id in m && id !in memory :: exists d :: d in listing && d.id == id
  {
    hide RecordedAs;
    forall id | id in m && id !in memory ensures exists d :: d in listing && d.id == id {
      assert !SameAt(memory, m, id);
      var j :| 0 <= j < |listing| && listing[j].id == id;
      assert listing[j] in listing;
    }
    forall id | forall d | d in listing :: d.id != id ensures SameAt(memory, m, id) {
      assert forall j | 0 <= j < |listing| :: listing[j] in listing;
    }
  }

  lemma ListingStart(memory: Records, failures: seq<SyncFailure>, listing: seq<Delivery>)
    ensures NewlyAcked(memory, memory) == {} && Persists(memory, memory) && RecordedUpTo(memory, memory, listing, 0)
    ensures ListedAgree(memory, memory, listing, 0) && Accounted(0, failures, listing, 0, {})
  {
  }

  lemma ProgressStart(setup: Setup, payload: string -> Bytes, objects: map<Path, Bytes>, memory: Records, listing: seq<Delivery>,
                      handled: set<string>)
    requires Honest(setup, payload, objects, memory, listing) && Canonical(setup, memory)
    requires Verdicts(setup, objects, memory, handled, {}, true)
    ensures Progress(setup, payload, objects, memory, memory, listing, 0, handled)
  {
    hide Delivered, Honest, Joinable, Verdicts, Canonical;
    forall j | 0 <= j < |listing| && listing[j].id in handled && Joinable(memory, listing[j])
      ensures Delivered(setup, objects, memory, listing[j])
    {
      HandledIsDelivered(setup, objects, memory, handled, listing[j]);
    }
  }

  /** The step of the loop's bookkeeping that concerns records. */
  lemma RecordsStep(start: Records, d0: Records, m0: Records, d1: Records, m1: Records, listing: seq<Delivery>, n: nat)
    requires DistinctIds(listing) && n < |listing| && ListedAgree(d0, m0, listing, n)
    requires IdsMatch(m0) && Persists(start, m0)
    requires DeliveryFrame(m0, m1, listing[n].id) && DiskFollows(d0, m0, d1, m1, listing[n].id)
    requires listing[n].id in m1 ==> m1[listing[n].id].id == listing[n].id
    ensures ListedAgree(d1, m1, listing, n + 1) && IdsMatch(m1) && Persists(start, m1)
    ensures var id := listing[n].id;
            |NewlyAcked(start, m1)| == |NewlyAcked(start, m0)| + if IsAcked(m1, id) && !IsAcked(m0, id) then 1 else 0
    ensures forall x | x != listing[n].id :: SameAt(m0, m1, x)
  {
    hide DeliveryFrame, DiskFollows, ListedAgree, IsAcked, SameAt, NewlyAcked, IdsMatch;
    PersistsStep(start, m0, m1, listing[n].id);
    AckedStays(start, m0, listing[n].id);
    IdsMatchStep(m0, m1, listing[n].id);
    ListedAgreeStep(d0, m0, d1, m1, listing, n);
    NewlyAckedStep(start, m0, m1, listing[n].id);
  }

  lemma AckedStays(before: Records, after: Records, id: string)
    requires Persists(before, after)
    ensures IsAcked(before, id) ==> IsAcked(after, id)
  {
  }

  lemma ListedAt(records: Records, memory: Records, listing: seq<Delivery>, n: nat)
    requires n < |listing| && ListedAgree(records, memory, listing, n) && IdsMatch(memory)
    ensures SameAt(records, memory, listing[n].id)
    ensures listing[n].id in memory ==> memory[listing[n].id].id == listing[n].id
  {
  }

  lemma ProgressAt(setup: Setup, payload: string -> Bytes, objects: map<Path, Bytes>, memory: Records, m: Records,
                   listing: seq<Delivery>, n: nat, handled: set<string>)
    requires n < |listing| && Canonical(setup, memory) && Progress(setup, payload, objects, memory, m, listing, n, handled)
    ensures var d := listing[n];
            && Deliverable(setup, objects, m, d, payload(d.id))
            && Joinable(memory, d) == Joinable(m, d) && InPlace(setup, m, d)
            && (d.id in handled && Joinable(m, d) ==> Delivered(setup, objects, m, d))
  {
    hide Genuine, Unobstructed, ContentPath, Delivered;
    assert SameAt(memory, m, listing[n].id);
    assert Deliverable(setup, objects, memory, listing[n], payload(listing[n].id));
  }

  method ProcessListing(f: Folder, memory: Records, summary: SyncSummary, listing: seq<Delivery>,
                        handled: set<string>, repairNeeded: set<string>)
    returns (m: Records, s: SyncSummary, unrepaired: set<string>, ghost missed: set<string>)
    requires f.Valid() && !f.disk.retired && f.disk.records == memory && QueueUntouched(f.Now(), memory)
    requires IdsMatch(memory) && DistinctIds(listing) && handled !! repairNeeded
    requires Verdicts(f.setup, f.disk.objects, memory, handled, {}, f.calm)
    modifies f`disk, f`log
    ensures f.Valid() && old(f.log) <= f.log && !f.disk.retired
    ensures Saveable(f.setup, f.Now(), m) && QueueUntouched(f.Now(), m) && WorldFrame(old(f.Now()), f.Now())
    ensures IdsMatch(m) && Persists(memory, m)
    ensures f.calm || f.savesHold ==>
              f.disk.records == m && s.acknowledged == summary.acknowledged + |NewlyAcked(memory, m)|
    ensures summary.failures <= s.failures && Counted(summary) <= Counted(s)
    ensures Accounted(Counted(s) - Counted(summary), s.failures, listing, |listing|, missed)
    ensures forall id :: id in unrepaired <==> id in repairNeeded && forall j | 0 <= j < |listing| :: listing[j].id != id
    ensures RecordedUpTo(memory, m, listing, |listing|)
    ensures f.calm && Canonical(f.setup, memory) && Honest(f.setup, f.payload, old(f.disk.objects), memory, listing) ==>
              forall d | d in listing && Joinable(memory, d) :: Delivered(f.setup, f.disk.objects, m, d)
    ensures f.calm && NothingToDo(f.setup, old(f.disk.objects), memory, listing) ==>
              m == memory && f.disk == old(f.disk) && s.received == summary.received && s.repaired == summary.repaired
  {
    hide Legal, Replay, Saveable, QueueUntouched, RecordMove, Faithful, DeliveryFrame, DiskFollows, Step, WorldFrame,
      ContentPath, Verifies, Deliverable, InPlace, Improves, OnlyAt, Canonical, Accounted, Progress, Honest,
      Delivered, NewlyAcked, Joinable, NothingToDo, ListedAgree, IdsMatch, Verdicts, Persists, IsAcked, RecordedUpTo,
      RecordedAs, SameAt, SameWallpaper, DistinctIds, Colliding, Settled;
    m, s, unrepaired, missed := memory, summary, repairNeeded, {};
    ghost var objects, records := f.disk.objects, f.disk.records;
    ghost var converging := f.calm && Canonical(f.setup, memory) && Honest(f.setup, f.payload, objects, memory, listing);
    ghost var idle := f.calm && NothingToDo(f.setup, objects, memory, listing);
    WorldFrameReflexive(f.Now());
    SyncedIsSaveable(f.setup, f.Now());
    ListingStart(memory, s.failures, listing);
    if converging {
      ProgressStart(f.setup, f.payload, objects, memory, listing, handled);
    }
    var i := 0;
    while i < |listing|
      invariant 0 <= i <= |listing|
      invariant f.Valid() && old(f.log) <= f.log && !f.disk.retired
      invariant Saveable(f.setup, f.Now(), m) && QueueUntouched(f.Now(), m) && WorldFrame(old(f.Now()), f.Now())
      invariant IdsMatch(m) && Persists(memory, m) && ListedAgree(f.disk.records, m, listing, i)
      invariant f.calm || f.savesHold ==>
                  f.disk.records == m && s.acknowledged == summary.acknowledged + |NewlyAcked(memory, m)|
      invariant summary.failures <= s.failures && Counted(summary) <= Counted(s)
      invariant Accounted(Counted(s) - Counted(summary), s.failures, listing, i, missed)
      invariant forall id :: id in unrepaired <==> id in repairNeeded && forall j | 0 <= j < i :: listing[j].id != id
      invariant RecordedUpTo(memory, m, listing, i)
      invariant converging ==> Progress(f.setup, f.payload, f.disk.objects, memory, m, listing, i, handled)
      invariant idle ==> m == memory && f.disk == old(f.disk) && s.received == summary.received && s.repaired == summary.repaired
    {
      var d := listing[i];
      ghost var w, d0, m0, s0, missed0 := f.Now(), f.disk, m, s, missed;
      ListedAt(d0.records, m0, listing, i);
      if converging {
        ProgressAt(f.setup, f.payload, d0.objects, memory, m0, listing, i, handled);
      }
      if idle {
        IdleAt(f.setup, objects, memory, listing, d);
      }
      if d.id !in handled {
        unrepaired := unrepaired - {d.id};
      }
      m, s := ProcessListed(f, m, s, d, d.id in handled);
      WorldFrameTransitive(old(f.Now()), w, f.Now());
      RecordsStep(memory, d0.records, m0, f.disk.records, m, listing, i);
      RecordedStep(memory, m0, m, listing, i);
      AccountedStep(Counted(s0) - Counted(summary), s0.failures, Counted(s) - Counted(summary), s.failures, listing, i, missed);
      if Counted(s) == Counted(s0) {
        missed := missed + {d.id};
      }
      if converging {
        ProgressStep(f.setup, f.payload, d0.objects, f.disk.objects, memory, m0, m, listing, i, handled);
      }
      i := i + 1;
    }
    if converging {
      ProgressDone(f.setup, f.payload, f.disk.objects, memory, m, listing, handled);
    }
  }

  lemma IdleAt(setup: Setup, objects: map<Path, Bytes>, records: Records, listing: seq<Delivery>, d: Delivery)
    requires NothingToDo(setup, objects, records, listing) && d in listing
    ensures Joinable(records, d) ==> Delivered(setup, objects, records, d)
  {
  }

  lemma ProgressDone(setup: Setup, payload: string -> Bytes, objects: map<Path, Bytes>, memory: Records, m: Records,
                     listing: seq<Delivery>, handled: set<string>)
    requires Progress(setup, payload, objects, memory, m, listing, |listing|, handled)
    ensures forall d | d in listing && Joinable(memory, d) :: Delivered(setup, objects, m, d)
  {
  }
}
