/**
 The file list (src/desktop/files.rs): an index that is kept up to date record by
 record, and a page that is selected without sorting the whole history.
 */
module Files {
  import opened Wrappers
  import opened Model
  import opened Ordering

  datatype FileActivity = FileActivity(
    id: string, originalName: string, mediaType: MediaType, size: nat, phase: Option<SyncPhase>, error: Option<Problem>)

  datatype Entry = Saved(record: DeliveryRecord) | Live(activity: FileActivity) {
    function Id(): string {
      match this case Saved(r) => r.id case Live(a) => a.id
    }

    function Name(): string {
      match this case Saved(r) => r.originalName case Live(a) => a.originalName
    }

    function Size(): nat {
      match this case Saved(r) => r.size case Live(a) => a.size
    }

    function ReceivedAt(): nat {
      match this case Saved(r) => r.receivedAt case Live(_) => 0
    }

    predicate IsActive() {
      Live? && activity.phase.Some?
    }

    predicate NeedsAttention() {
      match this
      case Saved(r) =>
        r.deliveryError.Some? || r.wallpaperError.Some? || r.wallpaperStatus == Failed || r.wallpaperStatus == Uncertain
      case Live(a) => a.error.Some?
    }

    predicate IsPending() {
      match this
      case Saved(r) => r.deliveryStatus == AckPending || r.wallpaperStatus == Pending || r.wallpaperStatus == Running
      case Live(a) => a.phase.Some?
    }

    predicate IsComplete() {
      && Saved? && record.deliveryStatus == Acknowledged
      && (record.wallpaperStatus == NotApplicable || record.wallpaperStatus == NotConfigured || record.wallpaperStatus == Applied)
      && !NeedsAttention()
    }
  }

  datatype FileSort = Newest | Oldest | NameAsc | NameDesc | Largest | Smallest

  datatype FileFilter = AllStatuses | InProgress | Attention | Completed

  datatype FileKind = AllKinds | Images | Documents | Audio | Video | Archives | OtherKind

  /** Lower-casing and the classification of MIME types, whatever they are. */
  datatype Text = Text(lower: string -> string, kindOf: MediaType -> FileKind)

  // ----------------------------------------------------------------- the index

  datatype Prepared = Prepared(names: seq<string>, kinds: seq<FileKind>, positions: map<string, nat>, unique: seq<nat>)

  /** The last position of an id. */
  predicate IsLast(records: seq<DeliveryRecord>, id: string, i: nat) {
    i < |records| && records[i].id == id && forall j | i < j < |records| :: records[j].id != id
  }

  predicate Ascending(s: seq<nat>) {
    forall i, j | 0 <= i < j < |s| :: s[i] < s[j]
  }

  /** What the index must say about a history. */
  predicate IsPrepared(text: Text, p: Prepared, records: seq<DeliveryRecord>) {
    && |p.names| == |p.kinds| == |records|
    && (forall i | 0 <= i < |records| ::
          p.names[i] == text.lower(records[i].originalName) && p.kinds[i] == text.kindOf(records[i].mediaType))
    && (forall id | id in p.positions :: IsLast(records, id, p.positions[id]))
    && (forall i | 0 <= i < |records| :: records[i].id in p.positions)
    && Ascending(p.unique)
    && (forall i | i in p.unique :: i < |records| && p.positions[records[i].id] == i)
    && (forall id | id in p.positions :: p.positions[id] in p.unique)
  }

  /** The description determines the index, so an index kept incrementally equals one built from scratch. */
  lemma PreparedIsUnique(text: Text, p: Prepared, q: Prepared, records: seq<DeliveryRecord>)
    requires IsPrepared(text, p, records) && IsPrepared(text, q, records)
    ensures p == q
  {
    assert p.names == q.names && p.kinds == q.kinds;
    SamePositions(text, p, q, records);
    SamePositions(text, q, p, records);
    hide IsLast, Ascending;
    assert p.positions == q.positions;
    assert forall i | i in p.unique :: i in q.unique;
    assert forall i | i in q.unique :: i in p.unique;
    AscendingIsUnique(p.unique, q.unique);
  }

  lemma SamePositions(text: Text, p: Prepared, q: Prepared, records: seq<DeliveryRecord>)
    requires IsPrepared(text, p, records) && IsPrepared(text, q, records)
    ensures forall id | id in p.positions :: id in q.positions && p.positions[id] == q.positions[id]
  {
    forall id | id in p.positions ensures id in q.positions && p.positions[id] == q.positions[id] {
      assert IsLast(records, id, p.positions[id]);
      assert records[p.positions[id]].id in q.positions;
      assert IsLast(records, id, q.positions[id]);
    }
  }

  lemma {:induction false} AscendingIsUnique(a: seq<nat>, b: seq<nat>)
    requires Ascending(a) && Ascending(b) && forall x :: x in a <==> x in b
    ensures a == b
  {
    if a == [] {
      assert forall i | 0 <= i < |b| :: b[i] in b;
    } else {
      assert a[0] in b && b != [];
      assert b[0] in a;
      assert a[0] == b[0];
      forall x ensures x in a[1..] <==> x in b[1..] {
        assert x in a[1..] <==> x in a && x != a[0];
        assert x in b[1..] <==> x in b && x != b[0];
      }
      AscendingIsUnique(a[1..], b[1..]);
    }
  }

  lemma NothingAscends()
    ensures Ascending([])
  {
  }

  lemma AppendAscending(s: seq<nat>, n: nat)
    requires Ascending(s) && forall x | x in s :: x < n
    ensures Ascending(s + [n])
  {
    assert forall i | 0 <= i < |s| :: s[i] in s;
  }

  /** The map holds the last position of each id among the first `n` records. */
  predicate LastPositions(records: seq<DeliveryRecord>, n: nat, positions: map<string, nat>)
    requires n <= |records|
  {
    && (forall id | id in positions :: IsLast(records[..n], id, positions[id]))
    && forall j | 0 <= j < n :: records[j].id in positions
  }

  lemma OneMorePosition(records: seq<DeliveryRecord>, n: nat, positions: map<string, nat>)
    requires n < |records| && LastPositions(records, n, positions)
    ensures LastPositions(records, n + 1, positions[records[n].id := n])
  {
  }

  lemma AllPositions(records: seq<DeliveryRecord>, positions: map<string, nat>)
    requires LastPositions(records, |records|, positions)
    ensures forall id | id in positions :: IsLast(records, id, positions[id])
    ensures forall id | id in positions :: positions[id] < |records| && records[positions[id]].id == id
    ensures forall j | 0 <= j < |records| :: records[j].id in positions
  {
    assert records[..|records|] == records;
  }

  method NewPrepared(text: Text, records: seq<DeliveryRecord>) returns (p: Prepared)
    ensures IsPrepared(text, p, records)
  {
    hide Ascending, IsLast, LastPositions;
    var positions: map<string, nat>, names, kinds := map[], [], [];
    NoPositions(records);
    for i := 0 to |records|
      invariant |names| == |kinds| == i
      invariant forall j | 0 <= j < i ::
                  names[j] == text.lower(records[j].originalName) && kinds[j] == text.kindOf(records[j].mediaType)
      invariant LastPositions(records, i, positions)
    {
      OneMorePosition(records, i, positions);
      positions := positions[records[i].id := i];
      names := names + [text.lower(records[i].originalName)];
      kinds := kinds + [text.kindOf(records[i].mediaType)];
    }
    AllPositions(records, positions);
    var unique: seq<nat> := [];
    NothingAscends();
    for i := 0 to |records| // the values of the map, sorted
      invariant Ascending(unique) && forall j | j in unique :: j < i
      invariant forall j | 0 <= j < i :: j in unique <==> positions[records[j].id] == j
    {
      if positions[records[i].id] == i {
        AppendAscending(unique, i);
        unique := unique + [i];
      }
    }
    p := Prepared(names, kinds, positions, unique);
  }

  lemma NoPositions(records: seq<DeliveryRecord>)
    ensures LastPositions(records, 0, map[])
  {
  }

  lemma ReplacedIsPrepared(text: Text, p: Prepared, records: seq<DeliveryRecord>, record: DeliveryRecord)
    requires IsPrepared(text, p, records) && record.id in p.positions
    ensures var i := p.positions[record.id];
            && i < |records|
            && IsPrepared(text, p.(names := p.names[i := text.lower(record.originalName)],
                                   kinds := p.kinds[i := text.kindOf(record.mediaType)]), records[i := record])
  {
    var i := p.positions[record.id];
    assert IsLast(records, record.id, i);
    var after := records[i := record];
    forall id | id in p.positions ensures IsLast(after, id, p.positions[id]) {
      assert IsLast(records, id, p.positions[id]);
    }
  }

  lemma AppendedIsPrepared(text: Text, p: Prepared, records: seq<DeliveryRecord>, record: DeliveryRecord)
    requires IsPrepared(text, p, records) && record.id !in p.positions
    ensures var n := |records|;
            IsPrepared(text, Prepared(p.names + [text.lower(record.originalName)], p.kinds + [text.kindOf(record.mediaType)],
                                      p.positions[record.id := n], p.unique + [n]), records + [record])
  {
    var n, after := |records|, records + [record];
    var positions := p.positions[record.id := n];
    AppendAscending(p.unique, n);
    forall id | id in positions ensures IsLast(after, id, positions[id]) {
      if id != record.id {
        assert IsLast(records, id, p.positions[id]);
      }
    }
  }

  class FileHistory {
    const text: Text
    var records: seq<DeliveryRecord>
    var prepared: Option<Prepared>

    ghost predicate Valid()
      reads this
    {
      prepared.Some? ==> IsPrepared(text, prepared.value, records)
    }

    constructor (text: Text, records: seq<DeliveryRecord>)
      ensures Valid() && this.text == text && this.records == records && prepared.Some?
    {
      var p := NewPrepared(text, records);
      this.text, this.records, this.prepared := text, records, Some(p);
    }

    /** Any edit through the vector interface drops the index. */
    method Edit(records: seq<DeliveryRecord>)
      modifies this
      ensures Valid() && this.records == records
    {
      prepared := None;
      this.records := records;
    }

    method Index() returns (p: Prepared)
      requires Valid()
      modifies `prepared
      ensures Valid() && prepared == Some(p)
    {
      if prepared.None? {
        var built := NewPrepared(text, records);
        prepared := Some(built);
      }
      p := prepared.value;
    }

    /** Replace the record that the list shows for this id, or append. Returns whether it was new. */
    method Upsert(record: DeliveryRecord) returns (added: bool)
      requires Valid()
      modifies this
      ensures Valid() && prepared.Some?
      ensures added <==> forall i | 0 <= i < |old(records)| :: old(records)[i].id != record.id
      ensures added ==> records == old(records) + [record]
      ensures !added ==> exists i | 0 <= i < |old(records)| ::
                 IsLast(old(records), record.id, i) && records == old(records)[i := record]
    {
      var p := Index();
      var name, kind := text.lower(record.originalName), text.kindOf(record.mediaType);
      if record.id in p.positions {
        var index := p.positions[record.id];
        ReplacedIsPrepared(text, p, records, record);
        assert IsLast(records, record.id, index);
        records := records[index := record];
        prepared := Some(p.(names := p.names[index := name], kinds := p.kinds[index := kind]));
        added := false;
      } else {
        AppendedIsPrepared(text, p, records, record);
        var index := |records|;
        prepared := Some(Prepared(p.names + [name], p.kinds + [kind], p.positions[record.id := index], p.unique + [index]));
        records := records + [record];
        added := true;
      }
    }
  }
}
