/**
 The delivery pipeline's machinery (src/state.rs, src/storage.rs): every disk
 operation of a Folder, each of which may fail, and the event it leaves behind.
 */
module Pipeline {
  import opened Wrappers
  import opened Utf8
  import opened Model
  import opened Storage
  import opened Protocol

  datatype StoredAsset = StoredAsset(path: Path, size: nat, sha256: string, mediaType: MediaType)

  /** The asset is on disk under its content path and is the file that `d` describes. */
  predicate Holds(setup: Setup, objects: map<Path, Bytes>, asset: StoredAsset, d: Delivery) {
    && asset.sha256 == d.sha256 && asset.size == d.size && asset.mediaType == d.mediaType
    && Some(asset.path) == ContentPath(setup.library, d.sha256, d.mediaType)
    && asset.path in objects
    && 0 < |objects[asset.path]| <= setup.maxFileSize
    && var i := setup.inspect(objects[asset.path]);
    && i.size == d.size && i.sha256 == d.sha256 && i.mediaType == d.mediaType
  }

  /** `bytes` is the file that the delivery announces. */
  predicate Matches(setup: Setup, bytes: Bytes, d: Delivery) {
    && Acceptable(bytes, setup.maxFileSize, Some(d.size))
    && setup.inspect(bytes).sha256 == d.sha256 && setup.inspect(bytes).mediaType == d.mediaType
  }

  function Place(setup: Setup, d: Delivery): Option<Path> {
    ContentPath(setup.library, d.sha256, d.mediaType)
  }

  /** The announcement is valid and `bytes` is what it announces. */
  predicate Genuine(setup: Setup, d: Delivery, bytes: Bytes) {
    ValidMetadata(d, setup.maxFileSize) && Matches(setup, bytes, d)
  }

  /** Nothing, or a file that fits the announcement, stands where the delivery belongs. */
  predicate Unobstructed(setup: Setup, objects: map<Path, Bytes>, d: Delivery) {
    var place := Place(setup, d);
    place.Some? && place.value in objects ==> Matches(setup, objects[place.value], d)
  }

  predicate Obtainable(setup: Setup, objects: map<Path, Bytes>, d: Delivery, bytes: Bytes) {
    Genuine(setup, d, bytes) && Unobstructed(setup, objects, d)
  }

  predicate Grows(before: map<Path, Bytes>, after: map<Path, Bytes>) {
    forall p | p in before :: p in after && after[p] == before[p]
  }

  /** Whatever happened, it happened at this place. */
  ghost predicate OnlyAt(before: map<Path, Bytes>, after: map<Path, Bytes>, place: Option<Path>) {
    forall p | Some(p) != place :: (p in after <==> p in before) && (p in before ==> after[p] == before[p])
  }

  /** Only the delivery's place was touched, a fitting file there was kept, and what is new there fits. */
  ghost predicate Improves(setup: Setup, before: map<Path, Bytes>, after: map<Path, Bytes>, d: Delivery) {
    var place := Place(setup, d);
    && OnlyAt(before, after, place)
    && (place.Some? ==>
          var p := place.value;
          && (p in before && Matches(setup, before[p], d) ==> p in after && after[p] == before[p])
          && (p in after ==> (p in before && after[p] == before[p]) || Matches(setup, after[p], d)))
  }

  lemma ImprovesTransitive(setup: Setup, a: map<Path, Bytes>, b: map<Path, Bytes>, c: map<Path, Bytes>, d: Delivery)
    requires Improves(setup, a, b, d) && Improves(setup, b, c, d)
    ensures Improves(setup, a, c, d)
  {
    hide ContentPath, Matches;
  }

  /** Valid metadata names a place. */
  lemma ValidHasPlace(setup: Setup, d: Delivery)
    requires ValidMetadata(d, setup.maxFileSize)
    ensures Place(setup, d).Some?
  {
  }

  /** The delivery is about the file of this record. */
  predicate SameDescription(r: DeliveryRecord, d: Delivery) {
    r.sha256 == d.sha256 && r.size == d.size && r.mediaType == d.mediaType
  }

  /** For such a record, verification asks whether the file in its place fits. */
  lemma VerifiesIsMatching(setup: Setup, objects: map<Path, Bytes>, r: DeliveryRecord, d: Delivery)
    requires Faithful(setup) && SameDescription(r, d) && Some(r.storedPath) == Place(setup, d)
    ensures Verifies(setup, objects, r) <==> r.storedPath in objects && Matches(setup, objects[r.storedPath], d)
  {
    hide ContentPath;
  }

  /** Inspection cannot tell a file in the store from `bytes`. */
  predicate LooksLike(setup: Setup, existing: Bytes, bytes: Bytes) {
    Acceptable(existing, setup.maxFileSize, None) && setup.inspect(existing) == setup.inspect(bytes)
  }

  class Folder {
    const setup: Setup
    const payload: string -> Bytes // what an undisturbed source serves for a delivery id
    const maxAttempts: nat // the source grants no retry after this many failures

    const initial: Disk
    var log: seq<Event>

    var disk: Disk
    var calm: bool // the environment makes nothing fail
    var savesHold: bool // at least the state file can be written

    ghost predicate Valid()
      reads this
    {
      Faithful(setup) && Legal(setup, Start(initial), log) && Now().disk == disk
    }

    ghost function Now(): World
      reads this
    {
      Replay(Start(initial), log)
    }

    constructor (setup: Setup, payload: string -> Bytes, maxAttempts: nat, disk: Disk)
      requires Faithful(setup)
      ensures Valid() && this.disk == disk && log == []
      ensures this.setup == setup && this.payload == payload && this.maxAttempts == maxAttempts && initial == disk
    {
      this.setup, this.payload, this.maxAttempts, this.disk := setup, payload, maxAttempts, disk;
      initial, log := disk, [];
      calm, savesHold := false, false;
    }

    method Emit(e: Event)
      requires Valid() && Allowed(setup, Now(), e)
      modifies `disk, `log
      ensures Valid() && log == old(log) + [e]
      ensures Now() == Step(old(Now()), e) && disk == ApplyToDisk(old(disk), e)
    {
      LegalExtend(setup, Start(initial), log, e);
      disk := ApplyToDisk(disk, e);
      log := log + [e];
    }

    /** The process dies: the events after the `kept` first ones never happened, and memory is lost. */
    method Crash(kept: nat)
      requires Valid() && kept <= |log|
      modifies `disk, `log
      ensures Valid() && log == old(log)[..kept] && disk == Replay(Start(initial), log).disk
    {
      LegalPrefix(setup, Start(initial), log, kept);
      log := log[..kept];
      disk := Replay(Start(initial), log).disk;
    }

    method Fault() returns (failed: bool)
      ensures calm ==> !failed
    {
      failed := *;
      if calm {
        failed := false;
      }
    }

    /** Atomic replacement of the state file. A reported failure leaves the old file or the new one. */
    method Save(records: Records) returns (ok: bool)
      requires Valid() && !disk.retired && Saveable(setup, Now(), records)
      modifies `disk, `log
      ensures Valid()
      ensures calm || savesHold ==> ok
      ensures log == old(log) + [Saved(records)] || (!ok && log == old(log))
      ensures log == old(log) + [Saved(records)] ==>
                disk == old(disk).(records := records) && Now() == Step(old(Now()), Saved(records))
      ensures log == old(log) ==> disk == old(disk)
    {
      ok := *;
      var replaced: bool := *;
      if calm || savesHold {
        ok := true;
      }
      if ok || replaced {
        Emit(Saved(records));
      }
    }

    /** The content is not empty and within the limit, and inspection finds this size, digest and type. */
    predicate IsFile(content: Bytes, size: nat, sha256: string, mediaType: MediaType) {
      && 1 <= |content| <= setup.maxFileSize && setup.inspect(content).size == size
      && setup.inspect(content).sha256 == sha256 && setup.inspect(content).mediaType == mediaType
    }

    /** `unreadable` tells a file that could not be read from one that does not match. */
    method VerifyRecordedFile(r: DeliveryRecord) returns (ok: bool, unreadable: bool)
      ensures ok ==> Verifies(setup, disk.objects, r)
      ensures !ok && !unreadable ==> !Verifies(setup, disk.objects, r)
      ensures calm ==> !unreadable && ok == Verifies(setup, disk.objects, r)
      ensures ok ==> r.storedPath in disk.objects && IsFile(disk.objects[r.storedPath], r.size, r.sha256, r.mediaType)
      ensures calm && r.storedPath in disk.objects && IsFile(disk.objects[r.storedPath], r.size, r.sha256, r.mediaType) ==> ok
    {
      unreadable := Fault();
      ok := !unreadable && Verifies(setup, disk.objects, r);
    }

    /** Verifies the file of a durable record, and notes the record as suspect when that fails. */
    method VerifyOrDoubt(id: string, r: DeliveryRecord) returns (ok: bool)
      requires Valid() && id in disk.records && disk.records[id] == r
      modifies `disk, `log
      ensures Valid() && old(log) <= log && disk == old(disk) && Now() == old(Now()).(suspect := Now().suspect)
      ensures ok ==> Verifies(setup, disk.objects, r) && log == old(log)
      ensures !ok ==> id in Now().suspect
      ensures calm ==> ok == Verifies(setup, disk.objects, r)
    {
      hide Legal, Replay, Faithful, Verifies;
      var unreadable;
      ok, unreadable := VerifyRecordedFile(r);
      if !ok {
        Emit(Doubted(id, unreadable));
      }
    }

    /** Remove leftover staging files; an error may leave some of them behind. */
    method CleanupStaging() returns (r: Result<nat, Problem>)
      requires Valid()
      modifies `disk, `log
      ensures Valid() && disk == old(disk).(staging := disk.staging)
      ensures old(log) <= log && |disk.staging| <= |old(disk.staging)|
      ensures Now() == old(Now()).(disk := disk)
      ensures r.Ok? ==> disk.staging == [] && r.value == |old(disk.staging)|
      ensures calm ==> r.Ok?
    {
      var failed := Fault();
      var count := |disk.staging|;
      if failed {
        count := *;
        if count < 0 || count > |disk.staging| {
          count := 0;
        }
      }
      Emit(Swept(count));
      r := if failed then Err(CleanupFailed) else Ok(count);
    }

    method Unstage()
      requires Valid() && disk.staging != []
      modifies `disk, `log
      ensures Valid() && log == old(log) + [Unstaged]
      ensures disk == old(disk).(staging := old(disk.staging)[..|old(disk.staging)| - 1])
      ensures Now() == old(Now()).(disk := disk)
    {
      Emit(Unstaged);
    }

    /** What a transfer leaves: more objects, the same staging files, and nothing else. */
    twostate predicate OnlyTransferred()
      reads this
    {
      && old(log) <= log
      && Now() == old(Now()).(disk := disk, suspect := Now().suspect)
      && disk == old(disk).(objects := disk.objects)
      && Grows(old(disk.objects), disk.objects)
    }

    /** Copy the payload into a staging file and compare it with the announcement. */
    method Stage(d: Delivery, bytes: Bytes) returns (r: Result<FileInspection, Problem>)
      requires Valid() && !disk.retired
      modifies `disk, `log
      ensures Valid() && old(log) <= log && Now() == old(Now()).(disk := disk)
      ensures disk == if r.Ok? then old(disk).(staging := old(disk.staging) + [bytes]) else old(disk)
      ensures r.Ok? ==> Matches(setup, bytes, d) && r.value == setup.inspect(bytes)
      ensures calm ==> (r.Ok? <==> Matches(setup, bytes, d))
      ensures r.Ok? ==> IsFile(bytes, d.size, d.sha256, d.mediaType)
      ensures calm && IsFile(bytes, d.size, d.sha256, d.mediaType) ==> r.Ok?
    {
      var failed := Fault();
      if failed {
        return Err(StagingFailed);
      }
      Emit(Staged(bytes));
      assert disk.staging[..|disk.staging| - 1] == old(disk.staging);
      var inspection := setup.inspect(bytes);
      failed := Fault();
      if failed || !Acceptable(bytes, setup.maxFileSize, Some(d.size)) {
        r := Err(PayloadMismatch);
      } else if inspection.sha256 != d.sha256 { // the announced digest is lower case already
        r := Err(PayloadMismatch);
      } else if inspection.mediaType != d.mediaType {
        r := Err(PayloadMismatch);
      } else {
        failed := Fault();
        r := if failed then Err(StagingFailed) else Ok(inspection);
      }
      if r.Err? {
        Unstage();
      }
    }

    /** Does the file that occupies the place look like `bytes`? */
    method Occupied(existing: Bytes, bytes: Bytes) returns (same: bool)
      ensures same ==> LooksLike(setup, existing, bytes)
      ensures calm ==> same == LooksLike(setup, existing, bytes)
    {
      var failed := Fault();
      same := !failed && LooksLike(setup, existing, bytes);
    }

    /** Someone else creates a file at a free place; in a sheltered or calm library nobody does. */
    method Rival(destination: Path) returns (appeared: bool)
      requires Valid() && destination !in disk.objects
      modifies `disk, `log
      ensures Valid() && old(log) <= log && Now() == old(Now()).(disk := disk, suspect := Now().suspect)
      ensures appeared ==> !calm && !setup.sheltered && destination in disk.objects
      ensures disk == old(disk).(objects := disk.objects)
      ensures disk.objects == if appeared then old(disk.objects)[destination := disk.objects[destination]] else old(disk.objects)
    {
      hide Legal, Replay, Faithful;
      appeared := *;
      var rival: Bytes := *;
      if calm || setup.sheltered {
        appeared := false;
      }
      if appeared {
        Emit(Disturbed(disk.objects[destination := rival]));
      }
    }

    /** Give the newest staging file its content path, unless a file with this inspection is there already. */
    method Commit(destination: Path, bytes: Bytes) returns (ok: bool)
      requires Valid() && !disk.retired && disk.staging != [] && disk.staging[|disk.staging| - 1] == bytes
      requires Named(setup, destination, bytes)
      modifies `disk, `log
      ensures Valid() && old(log) <= log && Now() == old(Now()).(disk := disk, suspect := Now().suspect)
      ensures disk == old(disk).(objects := disk.objects, staging := old(disk.staging)[..|old(disk.staging)| - 1])
      ensures Grows(old(disk.objects), disk.objects) && OnlyAt(old(disk.objects), disk.objects, Some(destination))
      ensures (calm || setup.sheltered) && destination in disk.objects && destination !in old(disk.objects) ==>
                disk.objects[destination] == bytes
      ensures ok ==> destination in disk.objects && LooksLike(setup, disk.objects[destination], bytes)
      ensures calm ==> (ok <==> destination !in old(disk.objects) || LooksLike(setup, old(disk.objects)[destination], bytes))
    {
      hide Legal, Replay, Faithful, ContentPath;
      if destination in disk.objects {
        ok := Occupied(disk.objects[destination], bytes);
        Unstage();
        if !ok {
          return; // the place is taken by a file that does not match its digest
        }
      } else {
        var appeared := Rival(destination);
        var failed := Fault();
        if appeared {
          ok := Occupied(disk.objects[destination], bytes);
          Unstage();
          if !ok {
            return; // the place was taken meanwhile by another file
          }
        } else if failed {
          Unstage();
          return false;
        } else {
          Emit(Committed(destination));
        }
      }
      var failed := Fault();
      ok := !failed; // the directory may fail to sync after the rename
    }

    /** Stage, inspect, compare with the announcement, then commit without overwriting. */
    method Receive(d: Delivery, bytes: Bytes) returns (r: Result<StoredAsset, Problem>)
      requires Valid() && !disk.retired
      modifies `disk, `log
      ensures Valid() && OnlyTransferred()
      ensures r.Ok? ==> ValidMetadata(d, setup.maxFileSize) && Holds(setup, disk.objects, r.value, d)
      ensures OnlyAt(old(disk.objects), disk.objects, Place(setup, d))
      ensures calm ==> Improves(setup, old(disk.objects), disk.objects, d)
      ensures calm ==> (r.Ok? <==> Obtainable(setup, old(disk.objects), d, bytes))
      ensures calm && r.Err? ==> disk.objects == old(disk.objects)
    {
      if !ValidMetadata(d, setup.maxFileSize) {
        return Err(InvalidMetadata);
      }
      var staged := Stage(d, bytes);
      if staged.Err? {
        return Err(staged.error);
      }
      var inspection := staged.value;
      var destination := ObjectPath(setup.library, inspection.sha256, inspection.extension);
      var ok := Commit(destination, bytes);
      if !ok {
        return Err(CommitFailed);
      }
      r := Ok(StoredAsset(destination, inspection.size, inspection.sha256, inspection.mediaType));
    }

    method OpenPayload(d: Delivery) returns (r: Result<Bytes, Problem>)
      ensures calm ==> r == Ok(payload(d.id))
    {
      var failed := Fault();
      var garbled: Bytes := *;
      r := if failed then Err(PayloadUnavailable) else Ok(if calm then payload(d.id) else garbled);
    }

    /** Download again while the source grants another attempt. */
    method ReceiveWithRetry(d: Delivery) returns (r: Result<StoredAsset, Problem>)
      requires Valid() && !disk.retired
      modifies `disk, `log
      ensures Valid() && OnlyTransferred()
      ensures r.Ok? ==> ValidMetadata(d, setup.maxFileSize) && Holds(setup, disk.objects, r.value, d)
      ensures OnlyAt(old(disk.objects), disk.objects, Place(setup, d))
      ensures calm ==> Improves(setup, old(disk.objects), disk.objects, d)
      ensures calm ==> (r.Ok? <==> Obtainable(setup, old(disk.objects), d, payload(d.id)))
      ensures calm && r.Err? ==> disk.objects == old(disk.objects)
    {
      var failedAttempts := 0;
      while true
        invariant Valid() && !disk.retired && OnlyTransferred()
        invariant OnlyAt(old(disk.objects), disk.objects, Place(setup, d))
        invariant calm ==> Improves(setup, old(disk.objects), disk.objects, d) && disk.objects == old(disk.objects)
        decreases maxAttempts - failedAttempts
      {
        var transfer := OpenPayload(d);
        if transfer.Ok? {
          r := Receive(d, transfer.value);
          if r.Ok? {
            return;
          }
        } else {
          r := Err(transfer.error);
        }
        failedAttempts := failedAttempts + 1;
        var granted: bool := *;
        if !granted || failedAttempts >= maxAttempts {
          return;
        }
      }
    }

    /** Move a suspect object into the staging area. */
    method Quarantine(id: string) returns (r: Result<bool, Problem>)
      requires Valid() && !disk.retired && id in disk.records && id in Now().suspect
      modifies `disk, `log
      ensures Valid() && old(log) <= log
      ensures forall e | e in log[|old(log)|..] :: e.Quarantined?
      ensures Now() == old(Now()).(disk := disk)
      ensures disk == old(disk).(objects := disk.objects, staging := disk.staging)
      ensures var p := ContentPath(setup.library, disk.records[id].sha256, disk.records[id].mediaType);
              disk.objects == old(disk.objects)
              || (p.Some? && p.value in old(disk.objects) && disk.objects == old(disk.objects) - {p.value})
      ensures var p := ContentPath(setup.library, disk.records[id].sha256, disk.records[id].mediaType);
              r.Ok? ==> p.Some? && p.value !in disk.objects
      ensures calm && ContentPath(setup.library, disk.records[id].sha256, disk.records[id].mediaType).Some? ==> r.Ok?
    {
      var path := ContentPath(setup.library, disk.records[id].sha256, disk.records[id].mediaType);
      if path.None? {
        return Err(QuarantineFailed);
      }
      if path.value !in disk.objects {
        return Ok(false);
      }
      var failed := Fault();
      if failed {
        return Err(QuarantineFailed);
      }
      Emit(Quarantined(id, path.value));
      failed := Fault();
      r := if failed then Err(QuarantineFailed) else Ok(true);
    }

    method Acknowledge(id: string, sha256: string) returns (confirmed: bool)
      requires Valid() && Allowed(setup, Now(), Acked(id, sha256, true))
      modifies `disk, `log
      ensures Valid() && log == old(log) + [Acked(id, sha256, confirmed)] && disk == old(disk)
      ensures Now() == Step(old(Now()), Acked(id, sha256, confirmed))
      ensures calm ==> confirmed
    {
      var failed := Fault();
      confirmed := !failed;
      Emit(Acked(id, sha256, confirmed));
    }
  }
}
