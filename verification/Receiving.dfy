/** One whole receive: listing a source, then a sync over what it lists (src/sync.rs, src/http_source.rs). */
module Receiving {
  import opened Wrappers
  import opened Model
  import opened Utf8
  import opened Scanning
  import opened HttpSource
  import opened FilesystemSource
  import opened Protocol
  import opened Pipeline
  import opened Sync
  import Runs

  function Decimal(n: nat): string {
    if n < 10 then [Digit(n)] else Decimal(n / 10) + [Digit(n % 10)]
  }

  function Digit(n: nat): char
    requires n < 10
  {
    '0' + n as char
  }

  predicate IsNumeral(s: string) {
    forall i | 0 <= i < |s| :: '0' <= s[i] <= '9'
  }

  function Value(s: string): nat
    requires IsNumeral(s)
  {
    if s == "" then 0 else 10 * Value(s[..|s| - 1]) + (s[|s| - 1] as int - '0' as int)
  }

  lemma {:induction false} DecimalRoundTrip(n: nat)
    ensures IsNumeral(Decimal(n))
    ensures Value(Decimal(n)) == n
  {
    if n >= 10 {
      DecimalRoundTrip(n / 10);
      assert Decimal(n)[..|Decimal(n)| - 1] == Decimal(n / 10);
    } else {
      assert Decimal(n)[..0] == "";
    }
  }

  /** The name under which the sync reports an item. */
  function ItemName(place: Place): string {
    match place
    case PageItem(page, item) => "HTTP page " + Decimal(page) + "," + (" item " + Decimal(item))
    case Manifest(path) => path
  }

  /** Two items of a scan over pages never share a name. */
  lemma ItemNamesDiffer(a: Place, b: Place)
    requires a.PageItem? && b.PageItem? && ItemName(a) == ItemName(b)
    ensures a == b
  {
    var p, q := "HTTP page " + Decimal(a.page), "HTTP page " + Decimal(b.page);
    DecimalRoundTrip(a.page);
    DecimalRoundTrip(b.page);
    DecimalRoundTrip(a.item);
    DecimalRoundTrip(b.item);
    BeforeComma(p, " item " + Decimal(a.item), q, " item " + Decimal(b.item));
    assert p[10..] == Decimal(a.page) && q[10..] == Decimal(b.page);
    assert (" item " + Decimal(a.item))[6..] == Decimal(a.item) && (" item " + Decimal(b.item))[6..] == Decimal(b.item);
  }

  lemma BeforeComma(p: string, x: string, q: string, y: string)
    requires p + "," + x == q + "," + y && ',' !in p && ',' !in q
    ensures p == q && x == y
  {
    var s, t := p + "," + x, q + "," + y;
    assert s[|p|] == ',' && t[|q|] == ',';
    assert (forall i | 0 <= i < |p| :: s[i] == p[i]) && (forall i | 0 <= i < |q| :: t[i] == q[i]);
    assert |p| == |q|;
    assert p == s[..|p|] == t[..|q|] == q;
    assert x == s[|p| + 1..] == t[|q| + 1..] == y;
  }

  /** How a complaint of the source is reported by the sync. */
  function AsFailure(issue: SourceIssue): SyncFailure {
    SyncFailure(ItemName(issue.place), ListingIssue(issue.complaint))
  }

  function Reported(issues: seq<SourceIssue>): (r: seq<SyncFailure>)
    ensures |r| == |issues| && forall i | 0 <= i < |issues| :: r[i] == AsFailure(issues[i])
  {
    seq(|issues|, i requires 0 <= i < |issues| => AsFailure(issues[i]))
  }

  // -------------------------------------------------------------- over HTTP

  /**
   From the pages of a server to the files on disk: prepare, list, and sync over what is
   listed. In an undisturbed run against a server whose pages end in time, every delivery
   offered exactly once, and barred by no record, is in place, verified and acknowledged
   when the run returns. No page is asked for when preparing fails.
   */
  method ReceiveOverHttp(f: Folder, server: Server, pageSize: nat, hasCommand: bool)
    returns (r: Result<SyncSummary, Problem>, fetches: nat, ghost listed: SourceScan, ghost missed: set<string>)
    requires f.Valid()
    modifies f`disk, f`log
    ensures f.Valid() && old(f.log) <= f.log
    ensures old(f.disk.retired) ==> r.Err? && f.log == old(f.log) && fetches == 0
    ensures f.calm && !old(f.disk.retired) && IdsMatch(old(f.disk.records)) ==>
              (r.Ok? <==> Succeeds(server, pageSize, fetches, f.setup.maxFileSize))
    ensures r.Ok? ==>
              && Succeeds(server, pageSize, fetches, f.setup.maxFileSize)
              && IsScan(SeenUpTo(server, pageSize, fetches, f.setup.maxFileSize), listed)
              && Runs.Effects(f.setup, f.payload, f.calm, f.savesHold, old(f.disk), f.disk, listed.deliveries,
                              Reported(listed.issues), hasCommand, r.value, missed)
    ensures r.Ok? ==> forall issue | issue in Complaints(SeenUpTo(server, pageSize, fetches, f.setup.maxFileSize)) ::
                        AsFailure(issue) in r.value.failures
    ensures f.calm && r.Ok? && Canonical(f.setup, old(f.disk.records))
            && Honest(f.setup, f.payload, old(f.disk.objects), old(f.disk.records), listed.deliveries) ==>
              forall d: Delivery | Offers(SeenUpTo(server, pageSize, fetches, f.setup.maxFileSize), d.id) == [d]
                                   && Joinable(old(f.disk.records), d) ::
                Delivered(f.setup, f.disk.objects, f.disk.records, d)
  {
    hide Succeeds, SeenUpTo, IsScan, Legal, Replay, Faithful, IdsMatch, Runs.Reconciled, Runs.Effects, Reported, Offers, Complaints,
      Canonical, Honest, Joinable, Delivered, AsFailure;
    fetches, listed, missed := 0, SourceScan([], []), {};
    NeedsAFetch(server, pageSize, f.setup.maxFileSize);
    if f.disk.retired {
      return Err(FolderRetired), fetches, listed, missed;
    }
    if !IdsMatch(f.disk.records) {
      return Err(StateUnreadable), fetches, listed, missed;
    }
    ghost var before := f.disk;
    var prepared, m, handled, doubted := Runs.Prepare(f);
    if prepared.Err? {
      return Err(prepared.error), fetches, listed, missed;
    }
    var scan;
    scan, fetches := ScanPending(server, pageSize, f.setup.maxFileSize);
    if scan.Err? {
      return Err(ScanFailed), fetches, listed, missed;
    }
    listed := scan.value;
    ListedOnce(SeenUpTo(server, pageSize, fetches, f.setup.maxFileSize), scan.value);
    r, missed := Runs.SyncListed(f, before, prepared.value, m, handled, doubted, scan.value.deliveries, Reported(scan.value.issues),
                                 hasCommand);
    if r.Ok? {
      ghost var seen := SeenUpTo(server, pageSize, fetches, f.setup.maxFileSize);
      ComplaintsAreReported(f, before, f.disk, seen, listed, hasCommand, r.value, missed);
      if f.calm && Canonical(f.setup, before.records)
         && Honest(f.setup, f.payload, before.objects, before.records, listed.deliveries) {
        OfferedIsDelivered(f, before, f.disk, seen, listed, hasCommand, r.value, missed);
      }
    }
  }

  lemma NeedsAFetch(server: Server, pageSize: nat, maxFileSize: nat)
    ensures !Succeeds(server, pageSize, 0, maxFileSize)
  {
  }

  /** The pages decide what is listed, and so what is delivered. */
  lemma OfferedIsDelivered(f: Folder, before: Disk, after: Disk, seen: seq<Seen>, listed: SourceScan, hasCommand: bool,
                           s: SyncSummary, missed: set<string>)
    requires IsScan(seen, listed) && f.calm
    requires Runs.Effects(f.setup, f.payload, f.calm, f.savesHold, before, after, listed.deliveries, Reported(listed.issues),
                          hasCommand, s, missed)
    requires Canonical(f.setup, before.records) && Honest(f.setup, f.payload, before.objects, before.records, listed.deliveries)
    ensures forall d: Delivery | Offers(seen, d.id) == [d] && Joinable(before.records, d) ::
              Delivered(f.setup, after.objects, after.records, d)
  {
    hide Offers, Complaints, OldestFirst, Accounted, Canonical, Honest, Delivered, Joinable, Persists, NothingToDo, Reported;
  }

  /** Every complaint of the source is reported, under the item's own name. */
  lemma ComplaintsAreReported(f: Folder, before: Disk, after: Disk, seen: seq<Seen>, listed: SourceScan, hasCommand: bool,
                              s: SyncSummary, missed: set<string>)
    requires IsScan(seen, listed)
    requires Runs.Effects(f.setup, f.payload, f.calm, f.savesHold, before, after, listed.deliveries, Reported(listed.issues),
                          hasCommand, s, missed)
    ensures forall issue | issue in Complaints(seen) :: AsFailure(issue) in s.failures
  {
    hide Offers, Complaints, OldestFirst, Accounted, Canonical, Honest, Delivered, Joinable, Persists, NothingToDo, AsFailure;
    forall issue | issue in listed.issues ensures AsFailure(issue) in s.failures {
      var i :| 0 <= i < |listed.issues| && listed.issues[i] == issue;
      assert Reported(listed.issues)[i] == AsFailure(issue);
    }
  }

  // ------------------------------------------------------------ from an inbox

  /** The markers of an inbox after these acknowledgements have reached it. */
  function MarkersAfter(acks: map<string, AckFile>, log: seq<Event>): map<string, AckFile> {
    if log == [] then acks
    else
      var front, last := MarkersAfter(acks, log[..|log| - 1]), log[|log| - 1];
      if last.Acked? && last.confirmed then front[last.id := Marker(last.id, last.sha256)] else front
  }

  lemma {:induction false} MarkersAppend(acks: map<string, AckFile>, a: seq<Event>, b: seq<Event>)
    ensures MarkersAfter(acks, a + b) == MarkersAfter(MarkersAfter(acks, a), b)
  {
    if b == [] {
      assert a + b == a;
    } else {
      assert (a + b)[..|a + b| - 1] == a + b[..|b| - 1];
      MarkersAppend(acks, a, b[..|b| - 1]);
    }
  }

  lemma {:induction false} MarkersStay(acks: map<string, AckFile>, log: seq<Event>, id: string)
    ensures id in acks ==> id in MarkersAfter(acks, log)
    ensures (exists sha256 :: Acked(id, sha256, true) in log) ==> id in MarkersAfter(acks, log)
  {
    if log != [] {
      MarkersStay(acks, log[..|log| - 1], id);
      assert forall e | e in log :: e in log[..|log| - 1] || e == log[|log| - 1];
    }
  }

  /** The inbox has a marker for whatever was acknowledged, from the beginning on. */
  ghost predicate Coupled(f: Folder, inbox: FilesystemSource, acks: map<string, AckFile>)
    reads f, inbox
  {
    inbox.acks == MarkersAfter(acks, f.log) && forall id | IsAcked(f.initial.records, id) :: id in acks
  }

  lemma AcknowledgedHasMarker(f: Folder, inbox: FilesystemSource, acks: map<string, AckFile>, id: string)
    requires f.Valid() && Coupled(f, inbox, acks) && IsAcked(f.disk.records, id)
    ensures id in inbox.acks
  {
    hide Legal, Replay, Faithful;
    MarkersStay(acks, f.log, id);
    if !IsAcked(f.initial.records, id) {
      AcknowledgedWasConfirmed(f.setup, f.initial, f.log, id);
    }
  }

  ghost predicate ConfirmedIn(log: seq<Event>, id: string) {
    exists sha256 :: Acked(id, sha256, true) in log
  }

  /** What a delivery is offered under is not affected by markers for others, and ended by one of its own. */
  lemma {:induction false} OffersAfterMarkers(paths: seq<string>, entries: map<string, Entry>, acks: map<string, AckFile>,
                                              log: seq<Event>, id: string, maxFileSize: nat)
    requires forall p <- paths :: p in entries
    ensures var before, after := Offers(SeenIn(paths, entries, acks, maxFileSize), id),
                                 Offers(SeenIn(paths, entries, MarkersAfter(acks, log), maxFileSize), id);
            && after == (if ConfirmedIn(log, id) then [] else before) && (id in MarkersAfter(acks, log) ==> after == [])
  {
    hide SeenIn, Offers;
    if log == [] {
      if id in acks {
        OffersAfterAck(paths, entries, acks, id, acks[id], id, maxFileSize);
        assert acks[id := acks[id]] == acks;
      }
    } else {
      var front, last := log[..|log| - 1], log[|log| - 1];
      assert forall e :: e in log <==> e in front || e == last;
      assert last.Acked? && last.confirmed ==> last == Acked(last.id, last.sha256, true);
      OffersAfterMarkers(paths, entries, acks, front, id, maxFileSize);
      if last.Acked? && last.confirmed {
        OffersAfterAck(paths, entries, MarkersAfter(acks, front), last.id, Marker(last.id, last.sha256), id, maxFileSize);
      }
    }
  }

  /** What a scan of the inbox sees with these markers. */
  function SeenInInbox(order: seq<string>, entries: map<string, Entry>, acks: map<string, AckFile>, maxFileSize: nat): seq<Seen>
    requires Enumerates(order, entries)
  {
    SeenIn(ScanOrder(order, entries), entries, acks, maxFileSize)
  }

  /** One receive from an inbox, whose markers follow the confirmed acknowledgements. `marked` are those at the scan. */
  method ReceiveFromInbox(f: Folder, inbox: FilesystemSource, ghost acks: map<string, AckFile>, order: seq<string>,
                          hasCommand: bool)
    returns (r: Result<SyncSummary, Problem>, ghost listed: SourceScan, ghost marked: map<string, AckFile>, ghost missed: set<string>)
    requires f.Valid() && Coupled(f, inbox, acks) && Enumerates(order, inbox.entries)
    modifies f`disk, f`log, inbox`acks
    ensures f.Valid() && old(f.log) <= f.log && Coupled(f, inbox, acks) && f.disk.retired == old(f.disk.retired)
    ensures f.calm && !old(f.disk.retired) && IdsMatch(old(f.disk.records)) ==> r.Ok?
    ensures r.Ok? ==>
              && (exists early, late :: marked == MarkersAfter(old(inbox.acks), early) && inbox.acks == MarkersAfter(marked, late))
              && IsScan(SeenInInbox(order, inbox.entries, marked, f.setup.maxFileSize), listed)
              && Runs.Effects(f.setup, f.payload, f.calm, f.savesHold, old(f.disk), f.disk, listed.deliveries,
                              Reported(listed.issues), hasCommand, r.value, missed)
  {
    hide IsScan, Legal, Replay, Faithful, IdsMatch, Runs.Reconciled, Runs.Effects, Reported, SeenIn, ScanOrder, MarkersAfter;
    listed, marked, missed := SourceScan([], []), inbox.acks, {};
    if f.disk.retired {
      return Err(FolderRetired), listed, marked, missed;
    }
    if !IdsMatch(f.disk.records) {
      return Err(StateUnreadable), listed, marked, missed;
    }
    ghost var before := f.disk;
    var log := f.log;
    var prepared, m, handled, doubted := Runs.Prepare(f);
    assert f.log == log + f.log[|log|..];
    MarkersAppend(acks, log, f.log[|log|..]);
    inbox.acks := MarkersAfter(inbox.acks, f.log[|log|..]);
    marked := inbox.acks;
    if prepared.Err? {
      return Err(prepared.error), listed, marked, missed;
    }
    var scan := inbox.ScanPending(order, f.setup.maxFileSize);
    listed := scan;
    ListedOnce(SeenInInbox(order, inbox.entries, marked, f.setup.maxFileSize), scan);
    log := f.log;
    r, missed := Runs.SyncListed(f, before, prepared.value, m, handled, doubted, scan.deliveries, Reported(scan.issues), hasCommand);
    assert f.log == log + f.log[|log|..];
    MarkersAppend(acks, log, f.log[|log|..]);
    inbox.acks := MarkersAfter(inbox.acks, f.log[|log|..]);
  }

  /** A later scan lists nothing new, and nothing that is acknowledged. */
  lemma LaterScan(order: seq<string>, entries: map<string, Entry>, acks: map<string, AckFile>, log: seq<Event>, maxFileSize: nat,
                  before: SourceScan, after: SourceScan, d: Delivery)
    requires Enumerates(order, entries) && d in after.deliveries
    requires IsScan(SeenInInbox(order, entries, acks, maxFileSize), before)
    requires IsScan(SeenInInbox(order, entries, MarkersAfter(acks, log), maxFileSize), after)
    ensures d in before.deliveries && d.id !in MarkersAfter(acks, log)
  {
    hide ScanOrder, SeenIn, Offers, OldestFirst, Complaints, MarkersAfter;
    OffersAfterMarkers(ScanOrder(order, entries), entries, acks, log, d.id, maxFileSize);
  }

  /**
   An inbox settles. After one fault-free receive, a second scan lists no delivery that
   the first one delivered, and the second receive stores and repairs nothing.
   */
  method InboxSettles(f: Folder, inbox: FilesystemSource, ghost acks: map<string, AckFile>, order: seq<string>,
                      hasCommand: bool)
    returns (first: Result<SyncSummary, Problem>, second: Result<SyncSummary, Problem>,
             ghost listed: SourceScan, ghost again: SourceScan, ghost between: Disk)
    requires f.Valid() && f.calm && !f.disk.retired && Coupled(f, inbox, acks) && Enumerates(order, inbox.entries)
    requires IdsMatch(f.disk.records) && Canonical(f.setup, f.disk.records)
    modifies f`disk, f`log, inbox`acks
    ensures f.Valid() && Coupled(f, inbox, acks) && first.Ok? && second.Ok?
    ensures forall d | d in again.deliveries :: d in listed.deliveries && !IsAcked(between.records, d.id)
    ensures Honest(f.setup, f.payload, old(f.disk.objects), old(f.disk.records), listed.deliveries) ==>
              && (forall d | d in listed.deliveries && Joinable(old(f.disk.records), d) ::
                    Delivered(f.setup, between.objects, between.records, d) && d !in again.deliveries)
              && second.value.received == 0 && second.value.repaired == 0 && f.disk.objects == between.objects
  {
    hide IsScan, Legal, Replay, Faithful, IdsMatch, Reported, SeenInInbox, ScanOrder, MarkersAfter, Canonical, Honest, Accounted,
      Delivered, Joinable, Persists, NothingToDo, IsAcked, Coupled;
    ghost var start, objects := f.disk.records, f.disk.objects;
    ghost var marked, missed;
    first, listed, marked, missed := ReceiveFromInbox(f, inbox, acks, order, hasCommand);
    between := f.disk;
    ghost var middle := inbox.acks;
    ghost var late :| middle == MarkersAfter(marked, late);
    forall id | IsAcked(between.records, id) ensures id in middle {
      AcknowledgedHasMarker(f, inbox, acks, id);
    }
    ghost var remarked;
    second, again, remarked, missed := ReceiveFromInbox(f, inbox, acks, order, hasCommand);
    ghost var early :| remarked == MarkersAfter(middle, early);
    forall d | d in again.deliveries ensures d in listed.deliveries && !IsAcked(between.records, d.id) {
      MarkersAppend(marked, late, early);
      LaterScan(order, inbox.entries, marked, late + early, f.setup.maxFileSize, listed, again, d);
      MarkersStay(middle, early, d.id);
    }
    if Honest(f.setup, f.payload, objects, start, listed.deliveries) {
      forall d | d in listed.deliveries && Joinable(start, d) ensures d !in again.deliveries {
        DeliveredIsAcked(f.setup, between, d);
      }
      NothingNew(f.setup, start, between, listed.deliveries, again.deliveries);
    }
  }

  lemma DeliveredIsAcked(setup: Setup, disk: Disk, d: Delivery)
    requires Delivered(setup, disk.objects, disk.records, d)
    ensures IsAcked(disk.records, d.id)
  {
  }

  lemma NothingNew(setup: Setup, start: Records, between: Disk, listed: seq<Delivery>, again: seq<Delivery>)
    requires Persists(start, between.records)
    requires forall d | d in again :: d in listed && !Joinable(start, d)
    ensures NothingToDo(setup, between.objects, between.records, again)
  {
    forall d | d in again ensures !Joinable(between.records, d) {
      Runs.JoinablePersists(start, between.records, d);
    }
  }
}
