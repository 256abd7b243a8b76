/** An inbox directory as a source of deliveries (src/source.rs). */
module FilesystemSource {
  import opened Wrappers
  import opened Model
  import opened Ordering
  import opened Scanning

  /** A directory entry: a manifest that parses or does not, a link to one, or something else. */
  datatype Entry = Parsed(delivery: Delivery) | Unparsable | Link | Unrelated

  datatype AckFile = Marker(id: string, sha256: string) | Unreadable

  datatype AckError = InvalidId | InvalidDigest | MarkerUnreadable | MarkerConflict | NotPublished

  predicate IsHexDigest(sha256: string) {
    |sha256| == 64 && forall c <- sha256 :: '0' <= c <= '9' || 'a' <= c <= 'f' || 'A' <= c <= 'F'
  }

  /** What a scan makes of one manifest; an acknowledged delivery is passed over. */
  function Classify(path: string, entry: Entry, acks: map<string, AckFile>, maxFileSize: nat): Option<Seen> {
    var place := Manifest(path);
    match entry
    case Unrelated => None
    case Link => Some(Refused(place, NotReadable))
    case Unparsable => Some(Refused(place, NotReadable))
    case Parsed(d) =>
      if !ValidMetadata(d, maxFileSize) || d.payload == "" then Some(Refused(place, MetadataRefused))
      else if d.id !in acks then Some(Offered(place, d))
      else
        match acks[d.id]
        case Unreadable => Some(Refused(place, AckUnreadable))
        case Marker(id, sha256) =>
          if id == d.id && sha256 == d.sha256 then None else Some(Refused(place, AckConflict))
  }

  /** What is seen in these entries, in this order. */
  function SeenIn(paths: seq<string>, entries: map<string, Entry>, acks: map<string, AckFile>, maxFileSize: nat): seq<Seen>
    requires forall p <- paths :: p in entries
  {
    if paths == [] then []
    else
      var last := paths[|paths| - 1];
      var seen := SeenIn(paths[..|paths| - 1], entries, acks, maxFileSize);
      match Classify(last, entries[last], acks, maxFileSize)
      case Some(x) => seen + [x]
      case None => seen
  }

  predicate Enumerates(listing: seq<string>, entries: map<string, Entry>) {
    && (forall p | p in listing :: p in entries)
    && (forall p | p in entries :: p in listing)
    && forall i, j | 0 <= i < j < |listing| :: listing[i] != listing[j]
  }

  function Named(listing: seq<string>, entries: map<string, Entry>, links: bool): (r: seq<string>)
    requires forall p <- listing :: p in entries
    ensures forall p :: p in r <==> p in listing && (if links then entries[p].Link? else entries[p].Parsed? || entries[p].Unparsable?)
  {
    if listing == [] then []
    else
      var front, last := Named(listing[..|listing| - 1], entries, links), listing[|listing| - 1];
      assert forall p :: p in listing <==> p in listing[..|listing| - 1] || p == last;
      if if links then entries[last].Link? else entries[last].Parsed? || entries[last].Unparsable? then front + [last] else front
  }

  function AsKeys(paths: seq<string>): (keys: seq<Key>)
    ensures |keys| == |paths| && forall i | 0 <= i < |paths| :: keys[i] == (0, paths[i])
  {
    seq(|paths|, i requires 0 <= i < |paths| => (0, paths[i]))
  }

  function Names(order: seq<Key>): (r: seq<string>)
    ensures |r| == |order| && forall i | 0 <= i < |r| :: r[i] == order[i].1
  {
    seq(|order|, i requires 0 <= i < |order| => order[i].1)
  }

  predicate Ascending(r: seq<string>) {
    forall i, j | 0 <= i < j < |r| :: !StringLess(r[j], r[i])
  }

  function SortedPaths(paths: seq<string>): (r: seq<string>)
    ensures forall p :: p in r <==> p in paths
    ensures Ascending(r)
  {
    SortingPaths(paths);
    Names(Sort(AsKeys(paths)))
  }

  lemma SortingPaths(paths: seq<string>)
    ensures var r := Names(Sort(AsKeys(paths)));
            (forall p :: p in r <==> p in paths) && Ascending(r)
  {
    hide Sort, StringLess;
    var keys := AsKeys(paths);
    var order := Sort(keys);
    var r := Names(order);
    SortKeeps(keys);
    SortSorts(keys);
    assert forall k | k in order :: k in keys && k.0 == 0 && k.1 in paths;
    forall p | p in paths ensures p in r {
      var i :| 0 <= i < |paths| && paths[i] == p;
      assert keys[i] in order;
      var j :| 0 <= j < |order| && order[j] == keys[i];
      assert r[j] == p;
    }
    forall i, j | 0 <= i < j < |r| ensures !StringLess(r[j], r[i]) {
      assert order[i] in order && order[j] in order && !KeyLess(order[j], order[i]);
    }
  }

  /** The order of a scan: links as the directory lists them, then the manifests by name. */
  function ScanOrder(listing: seq<string>, entries: map<string, Entry>): (r: seq<string>)
    requires forall p <- listing :: p in entries
    ensures forall p <- r :: p in entries
  {
    Named(listing, entries, true) + SortedPaths(Named(listing, entries, false))
  }

  predicate NoneTwice(s: seq<string>) {
    forall i, j | 0 <= i < j < |s| :: s[i] != s[j]
  }

  lemma {:induction false} NamedOnce(listing: seq<string>, entries: map<string, Entry>, links: bool)
    requires (forall p <- listing :: p in entries) && NoneTwice(listing)
    ensures NoneTwice(Named(listing, entries, links))
  {
    if listing != [] {
      var front, last := listing[..|listing| - 1], listing[|listing| - 1];
      NamedOnce(front, entries, links);
      assert last !in front;
    }
  }

  lemma SortedOnce(paths: seq<string>)
    requires NoneTwice(paths)
    ensures NoneTwice(SortedPaths(paths))
  {
    hide Sort, StringLess;
    SortKeeps(AsKeys(paths));
    var order := Sort(AsKeys(paths));
    assert forall k | k in order :: k in AsKeys(paths) && k.0 == 0;
    forall i, j | 0 <= i < j < |order| ensures order[i].1 != order[j].1 {
      assert order[i] in order && order[j] in order && order[i] != order[j];
    }
  }

  /** The order of a scan has every path of a link or manifest, once. */
  lemma ScannedOnce(listing: seq<string>, entries: map<string, Entry>)
    requires Enumerates(listing, entries)
    ensures NoneTwice(ScanOrder(listing, entries))
    ensures forall p :: p in ScanOrder(listing, entries) <==> p in entries && !entries[p].Unrelated?
  {
    hide SortedPaths;
    NamedOnce(listing, entries, true);
    NamedOnce(listing, entries, false);
    SortedOnce(Named(listing, entries, false));
    var (links, manifests) := (Named(listing, entries, true), SortedPaths(Named(listing, entries, false)));
    forall i, j | 0 <= i < |links| && 0 <= j < |manifests| ensures links[i] != manifests[j] {
      assert links[i] in links && manifests[j] in manifests;
    }
  }

  /** What a scan sees of one path. */
  lemma {:induction false} PathIsSeen(paths: seq<string>, entries: map<string, Entry>, acks: map<string, AckFile>,
                                      maxFileSize: nat, path: string) returns (at: nat)
    requires (forall p <- paths :: p in entries) && path in paths
    requires Classify(path, entries[path], acks, maxFileSize).Some?
    ensures var seen := SeenIn(paths, entries, acks, maxFileSize);
            at < |seen| && seen[at] == Classify(path, entries[path], acks, maxFileSize).value
  {
    hide Classify;
    var front, last := paths[..|paths| - 1], paths[|paths| - 1];
    if path in front {
      at := PathIsSeen(front, entries, acks, maxFileSize, path);
    } else {
      at := |SeenIn(front, entries, acks, maxFileSize)|;
    }
  }

  lemma {:induction false} SeenIsPath(paths: seq<string>, entries: map<string, Entry>, acks: map<string, AckFile>,
                                      maxFileSize: nat, at: nat) returns (path: string)
    requires (forall p <- paths :: p in entries) && at < |SeenIn(paths, entries, acks, maxFileSize)|
    ensures path in paths && Some(SeenIn(paths, entries, acks, maxFileSize)[at]) == Classify(path, entries[path], acks, maxFileSize)
  {
    hide Classify;
    var front, last := paths[..|paths| - 1], paths[|paths| - 1];
    if at < |SeenIn(front, entries, acks, maxFileSize)| {
      path := SeenIsPath(front, entries, acks, maxFileSize, at);
    } else {
      path := last;
    }
  }

  /** Two things seen come from two paths, when no path is listed twice. */
  lemma {:induction false} PathsDiffer(paths: seq<string>, entries: map<string, Entry>, acks: map<string, AckFile>,
                                       maxFileSize: nat, a: nat, b: nat)
    requires (forall p <- paths :: p in entries) && NoneTwice(paths)
    requires a < b < |SeenIn(paths, entries, acks, maxFileSize)|
    ensures var seen := SeenIn(paths, entries, acks, maxFileSize); seen[a].place != seen[b].place
  {
    hide Classify;
    var front, last := paths[..|paths| - 1], paths[|paths| - 1];
    var before := SeenIn(front, entries, acks, maxFileSize);
    if b < |before| {
      PathsDiffer(front, entries, acks, maxFileSize, a, b);
    } else {
      var p := SeenIsPath(front, entries, acks, maxFileSize, a);
      PlaceOf(p, entries[p], acks, maxFileSize);
      PlaceOf(last, entries[last], acks, maxFileSize);
      var i :| 0 <= i < |front| && front[i] == p;
      assert paths[i] == p;
    }
  }

  lemma PlaceOf(path: string, entry: Entry, acks: map<string, AckFile>, maxFileSize: nat)
    ensures var x := Classify(path, entry, acks, maxFileSize); x.Some? ==> x.value.place == Manifest(path)
  {
  }

  /** A manifest that may be listed: acceptable metadata, and the name of its payload file. */
  predicate Listable(d: Delivery, maxFileSize: nat) {
    WellDescribed(d, maxFileSize) && d.payload != ""
  }

  /** What a scan says about one path, by what is found there and by the marker for its id. */
  ghost predicate SaysOf(scan: SourceScan, entries: map<string, Entry>, acks: map<string, AckFile>, maxFileSize: nat, path: string)
    requires path in entries
  {
    match entries[path]
    case Unrelated => true
    case Link => SourceIssue(Manifest(path), NotReadable) in scan.issues
    case Unparsable => SourceIssue(Manifest(path), NotReadable) in scan.issues
    case Parsed(d) =>
      if !Listable(d, maxFileSize) then SourceIssue(Manifest(path), MetadataRefused) in scan.issues
      else if d.id !in acks then
        (forall p | p in entries && entries[p].Parsed? && entries[p].delivery.id == d.id :: p == path) ==> d in scan.deliveries
      else if acks[d.id] == Unreadable then SourceIssue(Manifest(path), AckUnreadable) in scan.issues
      else if acks[d.id] == Marker(d.id, d.sha256) then d !in scan.deliveries
      else SourceIssue(Manifest(path), AckConflict) in scan.issues
  }

  lemma EntryClassified(path: string, entry: Entry, acks: map<string, AckFile>, maxFileSize: nat)
    ensures var x := Classify(path, entry, acks, maxFileSize);
            match entry
            case Unrelated => x == None
            case Link => x == Some(Refused(Manifest(path), NotReadable))
            case Unparsable => x == Some(Refused(Manifest(path), NotReadable))
            case Parsed(d) =>
              if !Listable(d, maxFileSize) then x == Some(Refused(Manifest(path), MetadataRefused))
              else if d.id !in acks then x == Some(Offered(Manifest(path), d))
              else if acks[d.id] == Unreadable then x == Some(Refused(Manifest(path), AckUnreadable))
              else if acks[d.id] == Marker(d.id, d.sha256) then x == None
              else x == Some(Refused(Manifest(path), AckConflict))
  {
    hide ValidMetadata, WellDescribed;
    if entry.Parsed? {
      ValidMeansWellDescribed(entry.delivery, maxFileSize);
    }
  }

  lemma ManifestByManifest(listing: seq<string>, entries: map<string, Entry>, acks: map<string, AckFile>, maxFileSize: nat,
                           scan: SourceScan, path: string)
    requires Enumerates(listing, entries) && path in entries
    requires IsScan(SeenIn(ScanOrder(listing, entries), entries, acks, maxFileSize), scan)
    ensures SaysOf(scan, entries, acks, maxFileSize, path)
  {
    hide IsScan, Listable, ScanOrder, SeenIn, Classify;
    var order := ScanOrder(listing, entries);
    var seen := SeenIn(order, entries, acks, maxFileSize);
    ScannedOnce(listing, entries);
    EntryClassified(path, entries[path], acks, maxFileSize);
    if Classify(path, entries[path], acks, maxFileSize).Some? {
      var at := PathIsSeen(order, entries, acks, maxFileSize, path);
      forall j | 0 <= j < |seen| && j != at && seen[j].Offered?
        ensures exists p :: p in entries && p != path && entries[p] == Parsed(seen[j].delivery)
      {
        var p := SeenIsPath(order, entries, acks, maxFileSize, j);
        EntryClassified(p, entries[p], acks, maxFileSize);
        if j < at { PathsDiffer(order, entries, acks, maxFileSize, j, at); }
        else { PathsDiffer(order, entries, acks, maxFileSize, at, j); }
      }
      ItemByItem(seen, scan, at);
    } else if entries[path].Parsed? {
      var d := entries[path].delivery;
      NotOffered(order, entries, acks, maxFileSize, scan, d);
    }
  }

  /** A delivery with a marker of its own is not on offer. */
  lemma NotOffered(order: seq<string>, entries: map<string, Entry>, acks: map<string, AckFile>, maxFileSize: nat,
                   scan: SourceScan, d: Delivery)
    requires forall p <- order :: p in entries
    requires IsScan(SeenIn(order, entries, acks, maxFileSize), scan) && d.id in acks
    ensures d !in scan.deliveries
  {
    hide Offers, Complaints, OldestFirst, Classify, SeenIn;
    var seen := SeenIn(order, entries, acks, maxFileSize);
    if d in scan.deliveries {
      OfferedSomewhere(seen, d.id, d);
      var at :| 0 <= at < |seen| && seen[at].Offered? && seen[at].delivery == d;
      var p := SeenIsPath(order, entries, acks, maxFileSize, at);
      EntryClassified(p, entries[p], acks, maxFileSize);
      assert false;
    }
  }

  class FilesystemSource {
    var entries: map<string, Entry>
    var acks: map<string, AckFile>

    constructor (entries: map<string, Entry>, acks: map<string, AckFile>)
      ensures this.entries == entries && this.acks == acks
    {
      this.entries := entries;
      this.acks := acks;
    }

    /** `listing` is the order in which the directory happens to be read. */
    method ScanPending(listing: seq<string>, maxFileSize: nat) returns (scan: SourceScan)
      requires Enumerates(listing, entries)
      ensures IsScan(SeenIn(ScanOrder(listing, entries), entries, acks, maxFileSize), scan)
      ensures forall path | path in entries :: SaysOf(scan, entries, acks, maxFileSize, path)
    {
      hide SaysOf;
      hide IsTally, IsScan, ScanOrder, Classify, Add;
      ghost var seen := [];
      var t := Tally(map[], {}, []);
      EmptyTally();
      var order := ScanOrder(listing, entries);
      for i := 0 to |order|
        invariant seen == SeenIn(order[..i], entries, acks, maxFileSize) && IsTally(seen, t)
      {
        assert order[..i + 1][..i] == order[..i];
        match Classify(order[i], entries[order[i]], acks, maxFileSize) {
          case None =>
          case Some(x) =>
            TallyStep(seen, t, x);
            t := AddSeen(t, x);
            seen := seen + [x];
        }
      }
      assert order[..|order|] == order;
      scan := Finish(seen, t);
      forall path | path in entries ensures SaysOf(scan, entries, acks, maxFileSize, path) {
        ManifestByManifest(listing, entries, acks, maxFileSize, scan, path);
      }
    }

    /**
     Publishes a marker unless the same one is there. `rival` is what another process
     publishes meanwhile; `fault` is how writing fails: before the marker appears, or
     after it (the directory could not be synced).
     */
    method Acknowledge(id: string, sha256: string, rival: Option<AckFile>, fault: Option<bool>) returns (r: Result<(), AckError>)
      modifies this`acks
      ensures r.Ok? ==> acks == old(acks)[id := Marker(id, sha256)]
      ensures r.Err? ==> || acks == old(acks)
                         || (id !in old(acks) && acks == old(acks)[id := Marker(id, sha256)])
                         || (id !in old(acks) && rival.Some? && acks == old(acks)[id := rival.value])
      ensures forall other | other in old(acks) :: other in acks && acks[other] == old(acks)[other]
      ensures r.Ok? <==> && ValidDeliveryId(id) && IsHexDigest(sha256) && fault == None
                         && (if id in old(acks) then old(acks)[id] == Marker(id, sha256)
                             else rival.Some? ==> rival.value == Marker(id, sha256))
    {
      if !ValidDeliveryId(id) {
        return Err(InvalidId);
      }
      if !IsHexDigest(sha256) {
        return Err(InvalidDigest);
      }
      if id in acks {
        assert acks[id] == Marker(id, sha256) ==> acks == acks[id := Marker(id, sha256)];
        r := Compare(acks[id], id, sha256, fault);
        return;
      }
      if rival.Some? {
        acks := acks[id := rival.value];
      }
      if fault == Some(false) {
        return Err(NotPublished);
      }
      if rival.Some? {
        r := Compare(rival.value, id, sha256, fault);
        return;
      }
      acks := acks[id := Marker(id, sha256)];
      return if fault == None then Ok(()) else Err(NotPublished);
    }

    /** A marker that is there already must be this one. */
    method Compare(marker: AckFile, id: string, sha256: string, fault: Option<bool>) returns (r: Result<(), AckError>)
      ensures r.Ok? <==> marker == Marker(id, sha256) && fault == None
      ensures marker == Unreadable ==> r == Err(MarkerUnreadable)
      ensures marker.Marker? && marker != Marker(id, sha256) ==> r == Err(MarkerConflict)
    {
      match marker
      case Unreadable => return Err(MarkerUnreadable);
      case Marker(markedId, digest) =>
        if markedId != id || digest != sha256 {
          return Err(MarkerConflict);
        }
        r := if fault == None then Ok(()) else Err(NotPublished);
    }
  }

  method AddSeen(t: Tally, x: Seen) returns (t': Tally)
    ensures t' == Add(t, x)
  {
    match x
    case Refused(place, complaint) => t' := t.(issues := t.issues + [SourceIssue(place, complaint)]);
    case Offered(place, d) =>
      if d.id in t.byId {
        t' := t.(conflicts := t.conflicts + {d.id}, issues := t.issues + [SourceIssue(place, DuplicateId)]);
      } else {
        t' := t.(byId := t.byId[d.id := d]);
      }
  }

  lemma {:induction false} OffersAfterAck(paths: seq<string>, entries: map<string, Entry>, acks: map<string, AckFile>,
                                          id: string, marker: AckFile, other: string, maxFileSize: nat)
    requires forall p <- paths :: p in entries
    ensures var after := Offers(SeenIn(paths, entries, acks[id := marker], maxFileSize), other);
            after == if other == id then [] else Offers(SeenIn(paths, entries, acks, maxFileSize), other)
  {
    if paths != [] {
      var front, last := paths[..|paths| - 1], paths[|paths| - 1];
      OffersAfterAck(front, entries, acks, id, marker, other, maxFileSize);
      ClassifyAfterAck(last, entries[last], acks, id, marker, maxFileSize);
      SeenInOffers(paths, entries, acks, other, maxFileSize);
      SeenInOffers(paths, entries, acks[id := marker], other, maxFileSize);
    }
  }

  predicate OffersUnder(x: Option<Seen>, id: string) {
    x.Some? && x.value.Offered? && x.value.delivery.id == id
  }

  lemma ClassifyAfterAck(path: string, entry: Entry, acks: map<string, AckFile>, id: string, marker: AckFile, maxFileSize: nat)
    ensures !OffersUnder(Classify(path, entry, acks[id := marker], maxFileSize), id)
    ensures forall other | other != id ::
              (OffersUnder(Classify(path, entry, acks, maxFileSize), other)
               <==> OffersUnder(Classify(path, entry, acks[id := marker], maxFileSize), other))
    ensures forall other | other != id && OffersUnder(Classify(path, entry, acks, maxFileSize), other) ::
              Classify(path, entry, acks, maxFileSize) == Classify(path, entry, acks[id := marker], maxFileSize)
  {
    hide ValidMetadata;
  }

  lemma SeenInOffers(paths: seq<string>, entries: map<string, Entry>, acks: map<string, AckFile>, id: string, maxFileSize: nat)
    requires paths != [] && forall p <- paths :: p in entries
    ensures var front, last := paths[..|paths| - 1], paths[|paths| - 1];
            var x := Classify(last, entries[last], acks, maxFileSize);
            Offers(SeenIn(paths, entries, acks, maxFileSize), id) ==
              Offers(SeenIn(front, entries, acks, maxFileSize), id) + if OffersUnder(x, id) then [x.value.delivery] else []
  {
    hide Classify, Offers;
    var front, last := paths[..|paths| - 1], paths[|paths| - 1];
    var x := Classify(last, entries[last], acks, maxFileSize);
    if x.Some? {
      OffersStep(SeenIn(front, entries, acks, maxFileSize), x.value, id);
    }
  }

  /** Once a marker is there the delivery is not listed again, and no other listing changes. */
  lemma AcknowledgedIsNotListed(listing: seq<string>, entries: map<string, Entry>, acks: map<string, AckFile>,
                                id: string, marker: AckFile, maxFileSize: nat, before: SourceScan, after: SourceScan)
    requires Enumerates(listing, entries)
    requires IsScan(SeenIn(ScanOrder(listing, entries), entries, acks, maxFileSize), before)
    requires IsScan(SeenIn(ScanOrder(listing, entries), entries, acks[id := marker], maxFileSize), after)
    ensures forall d :: d in after.deliveries <==> d in before.deliveries && d.id != id
  {
    hide ScanOrder, SeenIn, Offers, OldestFirst;
    var order := ScanOrder(listing, entries);
    forall d: Delivery ensures d in after.deliveries <==> d in before.deliveries && d.id != id {
      OffersAfterAck(order, entries, acks, id, marker, d.id, maxFileSize);
    }
  }
}
