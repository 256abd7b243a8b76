/** What a sync tells the user interface about one file (src/sync.rs). */
module Progress {
  import opened Wrappers
  import opened Model
  import opened Protocol

  datatype SyncEvent =
    | FileActive(id: string, originalName: string, mediaType: MediaType, size: nat, phase: SyncPhase)
    | FileSettled(id: string, record: Option<DeliveryRecord>, error: Option<Problem>)

  function Lookup(records: Records, id: string): Option<DeliveryRecord> {
    if id in records then Some(records[id]) else None
  }

  /** Every announcement of this file is about it, and none of them ends it. */
  predicate Announces(events: seq<SyncEvent>, id: string) {
    forall e <- events :: e.FileActive? && e.id == id
  }

  /** Announcements, then at most one end: present when the file was announced or went wrong. */
  ghost predicate WellFormed(events: seq<SyncEvent>, id: string, error: Option<Problem>) {
    if events != [] && events[|events| - 1].FileSettled? then
      && Announces(events[..|events| - 1], id) && events[|events| - 1].id == id && events[|events| - 1].error == error
      && (|events| > 1 || error.Some?)
    else events == [] && error == None
  }

  class FileProgress {
    const id: string
    const originalName: string
    const mediaType: MediaType
    const size: nat
    var record: Option<DeliveryRecord>
    var active: bool
    var events: seq<SyncEvent>
    ghost var durable: seq<Option<DeliveryRecord>> // what the state file has said about this file, oldest first

    ghost predicate Valid()
      reads this
    {
      && Announces(events, id) && (active <==> events != [])
      && record in durable
    }

    /** Either for a listed delivery, whose record may not exist yet, or for a record. */
    constructor (id: string, originalName: string, mediaType: MediaType, size: nat, record: Option<DeliveryRecord>)
      ensures Valid() && this.id == id && this.record == record && events == [] && durable == [record]
      ensures this.originalName == originalName && this.mediaType == mediaType && this.size == size
    {
      this.id, this.originalName, this.mediaType, this.size, this.record := id, originalName, mediaType, size, record;
      active, events, durable := false, [], [record];
    }

    method Phase(phase: SyncPhase)
      requires Valid()
      modifies `active, `events
      ensures Valid() && active && events == old(events) + [FileActive(id, originalName, mediaType, size, phase)]
    {
      active := true;
      events := events + [FileActive(id, originalName, mediaType, size, phase)];
    }

    /** Saves the state; on a reported failure the file may still have been replaced. */
    method Save(records: Records) returns (ok: bool)
      requires Valid()
      modifies `record, `durable
      ensures Valid() && old(durable) <= durable
      ensures ok ==> record == Lookup(records, id) == durable[|durable| - 1]
      ensures !ok ==> record == old(record)
    {
      ok := *;
      var replaced: bool := *;
      if ok || replaced {
        durable := durable + [Lookup(records, id)];
      }
      if ok {
        record := Lookup(records, id);
      }
    }

    /** The last thing said about the file. */
    method Settle(error: Option<Problem>)
      requires Valid()
      modifies `events
      ensures WellFormed(events, id, error)
      ensures old(events) <= events && |events| <= |old(events)| + 1
      ensures |events| > |old(events)| <==> active || error.Some?
      ensures |events| > |old(events)| ==> events[|events| - 1] == FileSettled(id, record, error)
    {
      if active || error.Some? {
        assert events + [FileSettled(id, record, error)] != [];
        events := events + [FileSettled(id, record, error)];
        assert events[..|events| - 1] == old(events);
      }
    }
  }

  /**
   Whatever happens to a file, the interface hears announcements and then, if there
   was anything to tell, one end; and the record it is shown was durable.
   */
  method AnyFile(p: FileProgress, steps: nat, error: Option<Problem>)
    requires p.Valid() && p.events == []
    modifies p
    ensures WellFormed(p.events, p.id, error)
    ensures forall e <- p.events :: e.FileSettled? ==> e.record in p.durable
    ensures old(p.durable) <= p.durable
  {
    for i := 0 to steps
      invariant p.Valid() && old(p.durable) <= p.durable
    {
      var saving: bool := *;
      if saving {
        var records: Records := *;
        var _ := p.Save(records);
      } else {
        var phase: SyncPhase := *;
        p.Phase(phase);
      }
    }
    p.Settle(error);
  }
}
