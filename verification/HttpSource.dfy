/** Listing deliveries page by page, and retrying requests (src/http_source.rs). */
module HttpSource {
  import opened Wrappers
  import opened Model
  import opened Scanning

  const PROTOCOL_VERSION: nat := 1
  const MAX_CURSOR_BYTES: nat := 2048
  const MAX_PAGES_PER_SCAN: nat := 100
  const MAX_DELIVERIES_PER_SCAN: nat := 10_000

  // ----------------------------------------------------------------- the server

  /** An item of a page: a descriptor, or JSON of some other shape. */
  datatype Item =
    | Malformed
    | Descriptor(deliveryId: string, originalName: string, sizeBytes: nat, sha256: string, mediaType: MediaType, createdAt: Option<nat>)

  datatype Page = Page(schemaVersion: nat, items: seq<Item>, nextCursor: Option<string>)

  datatype ScanError = RequestFailed | UnsupportedSchema | TooManyItems | TooManyDeliveries | InvalidCursor | RepeatedCursor | TooManyPages

  /** Whatever answers: it may depend on how often it was asked and on the cursor sent. */
  type Server = (nat, Option<string>) -> Option<Page>

  function FetchPage(reply: Option<Page>, pageSize: nat): Result<Page, ScanError> {
    match reply
    case None => Err(RequestFailed)
    case Some(page) =>
      if page.schemaVersion != PROTOCOL_VERSION then Err(UnsupportedSchema)
      else if |page.items| > pageSize then Err(TooManyItems)
      else Ok(page)
  }

  predicate ValidCursor(cursor: string) {
    cursor != "" && ByteLength(cursor) <= MAX_CURSOR_BYTES && forall c <- cursor :: !IsControlChar(c)
  }

  /** The cursor sent with fetch `k`, counting from zero: the one that the page before gave. */
  function CursorAt(server: Server, pageSize: nat, k: nat): Option<string>
    decreases k, 0
  {
    if k == 0 then None
    else
      match PageAt(server, pageSize, k - 1)
      case Ok(page) => page.nextCursor
      case Err(_) => None
  }

  /** The cursor that page `k` gives. */
  function CursorFrom(server: Server, pageSize: nat, k: nat): Option<string> {
    CursorAt(server, pageSize, k + 1)
  }

  function PageAt(server: Server, pageSize: nat, k: nat): Result<Page, ScanError>
    decreases k, 1
  {
    FetchPage(server(k, CursorAt(server, pageSize, k)), pageSize)
  }

  predicate LeadsOn(server: Server, pageSize: nat, k: nat) {
    var page := PageAt(server, pageSize, k);
    page.Ok? && page.value.nextCursor.Some? && ValidCursor(page.value.nextCursor.value)
  }

  /** The first `n` pages arrive and each gives a valid cursor that was not given before. */
  predicate Goes(server: Server, pageSize: nat, n: nat) {
    && (forall k | 0 <= k < n :: LeadsOn(server, pageSize, k))
    && forall j, k | 0 <= j < k < n :: CursorFrom(server, pageSize, j) != CursorFrom(server, pageSize, k)
  }

  /** Page `n` is the last. */
  predicate Ends(server: Server, pageSize: nat, n: nat) {
    && n >= 1 && Goes(server, pageSize, n - 1)
    && var page := PageAt(server, pageSize, n - 1); page.Ok? && page.value.nextCursor == None
  }

  // ------------------------------------------------------------------ the items

  function Classify(item: Item, place: Place, maxFileSize: nat): Seen {
    match item
    case Malformed => Refused(place, NotReadable)
    case Descriptor(id, name, size, sha256, mediaType, createdAt) =>
      var d := Delivery(MANIFEST_SCHEMA_VERSION, id, name, "", size, sha256, mediaType, createdAt);
      if ValidMetadata(d, maxFileSize) then Offered(place, d) else Refused(place, MetadataRefused)
  }

  function SeenOnPage(items: seq<Item>, page: nat, maxFileSize: nat): (seen: seq<Seen>)
    ensures |seen| == |items|
  {
    seq(|items|, i requires 0 <= i < |items| => Classify(items[i], PageItem(page, i + 1), maxFileSize))
  }

  /** Every item of the first `n` pages. */
  function SeenUpTo(server: Server, pageSize: nat, n: nat, maxFileSize: nat): seq<Seen> {
    if n == 0 then []
    else
      SeenUpTo(server, pageSize, n - 1, maxFileSize) +
      match PageAt(server, pageSize, n - 1)
      case Ok(page) => SeenOnPage(page.items, n, maxFileSize)
      case Err(_) => []
  }

  /** What the limit bounds: the number of ids, where an id used more than once counts twice. */
  function Load(seen: seq<Seen>): nat {
    if seen == [] then 0
    else
      var before, last := seen[..|seen| - 1], seen[|seen| - 1];
      Load(before) + if last.Offered? && |Offers(before, last.delivery.id)| < 2 then 1 else 0
  }

  lemma {:induction false} LoadGrows(a: seq<Seen>, b: seq<Seen>)
    requires a <= b
    ensures Load(a) <= Load(b)
  {
    if |a| < |b| {
      LoadGrows(a, b[..|b| - 1]);
    } else {
      assert a == b;
    }
  }

  lemma LoadStep(seen: seq<Seen>, t: Tally, x: Seen)
    requires IsTally(seen, t) && |t.byId| + |t.conflicts| == Load(seen)
    ensures var t' := Add(t, x); |t'.byId| + |t'.conflicts| == Load(seen + [x])
  {
    hide Offers, Complaints, Repeated, Filed;
    assert (seen + [x])[..|seen|] == seen;
    if x.Offered? {
      var id := x.delivery.id;
      assert Filed(t, id, Offers(seen, id));
      FiledMeans(t, id, Offers(seen, id));
      OneMore(t.conflicts, id);
    }
  }

  lemma OneMore(s: set<string>, x: string)
    ensures |s + {x}| == |s| + if x in s then 0 else 1
  {
    assert x in s ==> s + {x} == s;
  }

  lemma {:induction false} SeenGrows(server: Server, pageSize: nat, m: nat, n: nat, maxFileSize: nat)
    requires m <= n
    ensures SeenUpTo(server, pageSize, m, maxFileSize) <= SeenUpTo(server, pageSize, n, maxFileSize)
  {
    if m < n {
      SeenGrows(server, pageSize, m, n - 1, maxFileSize);
    }
  }

  // ------------------------------------------------------- what a server must send

  /**
   What the server sends, page by page: each answer is of this protocol and no longer than
   asked for, each cursor is sensible and new, and the last page gives none.
   */
  predicate IsChain(server: Server, pageSize: nat, pages: seq<Page>) {
    && pages != []
    && (forall k | 0 <= k < |pages| :: IsAnswer(server, pageSize, pages, k))
    && (forall k | 0 <= k < |pages| - 1 :: pages[k].nextCursor.Some? && SensibleCursor(pages[k].nextCursor.value))
    && (forall j, k | 0 <= j < k < |pages| - 1 :: pages[j].nextCursor != pages[k].nextCursor)
    && pages[|pages| - 1].nextCursor == None
  }

  predicate IsAnswer(server: Server, pageSize: nat, pages: seq<Page>, k: nat)
    requires k < |pages|
  {
    && server(k, if k == 0 then None else pages[k - 1].nextCursor) == Some(pages[k])
    && pages[k].schemaVersion == 1 && |pages[k].items| <= pageSize
  }

  predicate SensibleCursor(cursor: string) {
    && cursor != "" && ByteLength(cursor) <= 2048
    && forall c | c in cursor :: c > '\U{1F}' && !('\U{7F}' <= c <= '\U{9F}')
  }

  /** The pages of a chain are the pages that the scan fetches. */
  lemma {:induction false} ChainIsFetched(server: Server, pageSize: nat, pages: seq<Page>, k: nat)
    requires IsChain(server, pageSize, pages) && k < |pages|
    ensures PageAt(server, pageSize, k) == Ok(pages[k])
    ensures CursorFrom(server, pageSize, k) == pages[k].nextCursor
  {
    if k > 0 {
      ChainIsFetched(server, pageSize, pages, k - 1);
    }
    var cursor := if k == 0 then None else pages[k - 1].nextCursor;
    assert IsAnswer(server, pageSize, pages, k);
    assert CursorAt(server, pageSize, k) == cursor && server(k, cursor) == Some(pages[k]);
  }

  /** The pages end after `n` fetches exactly if they form a chain of that length. */
  lemma EndsMeansChain(server: Server, pageSize: nat, n: nat)
    ensures Ends(server, pageSize, n) <==> exists pages: seq<Page> :: IsChain(server, pageSize, pages) && |pages| == n
  {
    hide Ends, IsChain;
    if pages: seq<Page> :| IsChain(server, pageSize, pages) && |pages| == n {
      ChainEnds(server, pageSize, pages);
    }
    if Ends(server, pageSize, n) {
      var pages := FetchedPages(server, pageSize, n);
    }
  }

  lemma ChainEnds(server: Server, pageSize: nat, pages: seq<Page>)
    requires IsChain(server, pageSize, pages)
    ensures Ends(server, pageSize, |pages|)
  {
    hide PageAt, CursorAt, ByteLength, CursorFrom, IsAnswer;
    forall k | 0 <= k < |pages|
      ensures PageAt(server, pageSize, k) == Ok(pages[k])
      ensures CursorFrom(server, pageSize, k) == pages[k].nextCursor
    {
      ChainIsFetched(server, pageSize, pages, k);
    }
  }

  lemma FetchedPages(server: Server, pageSize: nat, n: nat) returns (pages: seq<Page>)
    requires Ends(server, pageSize, n)
    ensures IsChain(server, pageSize, pages) && |pages| == n
  {
    hide PageAt, CursorAt, CursorFrom, Ends, LeadsOn, SensibleCursor;
    AllArrive(server, pageSize, n);
    pages := seq(n, k requires 0 <= k < n => PageAt(server, pageSize, k).value);
    forall k | 0 <= k < n ensures IsAnswer(server, pageSize, pages, k) {
      FetchedPage(server, pageSize, k);
      if k > 0 {
        FetchedPage(server, pageSize, k - 1);
      }
    }
    hide IsAnswer;
  }

  /** With the pages ending after `n` fetches, all of them arrive and their cursors are as a chain has them. */
  lemma AllArrive(server: Server, pageSize: nat, n: nat)
    requires Ends(server, pageSize, n)
    ensures n >= 1 && forall k | 0 <= k < n :: PageAt(server, pageSize, k).Ok?
    ensures forall k | 0 <= k < n - 1 ::
              var next := PageAt(server, pageSize, k).value.nextCursor; next.Some? && SensibleCursor(next.value)
    ensures forall j, k | 0 <= j < k < n - 1 ::
              PageAt(server, pageSize, j).value.nextCursor != PageAt(server, pageSize, k).value.nextCursor
    ensures PageAt(server, pageSize, n - 1).value.nextCursor == None
  {
    hide PageAt, CursorAt, ByteLength, CursorFrom;
    forall k | 0 <= k < n
      ensures PageAt(server, pageSize, k).Ok?
      ensures k < n - 1 ==> LeadsOn(server, pageSize, k)
      ensures CursorFrom(server, pageSize, k) == PageAt(server, pageSize, k).value.nextCursor
    {
      assert k < n - 1 ==> LeadsOn(server, pageSize, k);
      FetchedPage(server, pageSize, k);
    }
    forall j, k | 0 <= j < k < n - 1
      ensures PageAt(server, pageSize, j).value.nextCursor != PageAt(server, pageSize, k).value.nextCursor
    {
      assert CursorFrom(server, pageSize, j) != CursorFrom(server, pageSize, k);
    }
  }

  lemma FetchedPage(server: Server, pageSize: nat, k: nat)
    requires PageAt(server, pageSize, k).Ok?
    ensures server(k, CursorAt(server, pageSize, k)) == Some(PageAt(server, pageSize, k).value)
    ensures PageAt(server, pageSize, k).value.schemaVersion == 1 && |PageAt(server, pageSize, k).value.items| <= pageSize
    ensures CursorAt(server, pageSize, k + 1) == PageAt(server, pageSize, k).value.nextCursor
    ensures CursorFrom(server, pageSize, k) == CursorAt(server, pageSize, k + 1)
    ensures k == 0 ==> CursorAt(server, pageSize, k) == None
  {
  }

  /** The delivery that a descriptor speaks of. */
  function AsSent(item: Item): Delivery
    requires item.Descriptor?
  {
    Delivery(1, item.deliveryId, item.originalName, "", item.sizeBytes, item.sha256, item.mediaType, item.createdAt)
  }

  /** What the scan sees of these pages. */
  function SeenOf(pages: seq<Page>, maxFileSize: nat): seq<Seen> {
    if pages == [] then []
    else SeenOf(pages[..|pages| - 1], maxFileSize) + SeenOnPage(pages[|pages| - 1].items, |pages|, maxFileSize)
  }

  lemma {:induction false} ChainIsSeen(server: Server, pageSize: nat, pages: seq<Page>, n: nat, maxFileSize: nat)
    requires IsChain(server, pageSize, pages) && n <= |pages|
    ensures SeenUpTo(server, pageSize, n, maxFileSize) == SeenOf(pages[..n], maxFileSize)
  {
    if n > 0 {
      ChainIsSeen(server, pageSize, pages, n - 1, maxFileSize);
      ChainIsFetched(server, pageSize, pages, n - 1);
      assert pages[..n][..n - 1] == pages[..n - 1];
    }
  }

  /** Each item of the pages is seen at a place of its own. */
  lemma {:induction false} ItemIsSeen(pages: seq<Page>, k: nat, i: nat, maxFileSize: nat) returns (at: nat)
    requires k < |pages| && i < |pages[k].items|
    ensures at < |SeenOf(pages, maxFileSize)|
    ensures SeenOf(pages, maxFileSize)[at] == Classify(pages[k].items[i], PageItem(k + 1, i + 1), maxFileSize)
  {
    var front := pages[..|pages| - 1];
    var before := SeenOf(front, maxFileSize);
    if k == |front| {
      at := |before| + i;
    } else {
      at := ItemIsSeen(front, k, i, maxFileSize);
    }
  }

  lemma {:induction false} SeenIsItem(pages: seq<Page>, at: nat, maxFileSize: nat) returns (k: nat, i: nat)
    requires at < |SeenOf(pages, maxFileSize)|
    ensures k < |pages| && i < |pages[k].items|
    ensures SeenOf(pages, maxFileSize)[at] == Classify(pages[k].items[i], PageItem(k + 1, i + 1), maxFileSize)
  {
    var front := pages[..|pages| - 1];
    var before := SeenOf(front, maxFileSize);
    if at < |before| {
      k, i := SeenIsItem(front, at, maxFileSize);
    } else {
      k, i := |front|, at - |before|;
    }
  }

  lemma {:induction false} PlacesDiffer(pages: seq<Page>, a: nat, b: nat, maxFileSize: nat)
    requires a < b < |SeenOf(pages, maxFileSize)|
    ensures SeenOf(pages, maxFileSize)[a].place != SeenOf(pages, maxFileSize)[b].place
  {
    var front := pages[..|pages| - 1];
    var before := SeenOf(front, maxFileSize);
    if b < |before| {
      PlacesDiffer(front, a, b, maxFileSize);
    } else if a < |before| {
      var k, i := SeenIsItem(front, a, maxFileSize);
    }
  }

  /**
   Item by item: what is not a descriptor, or describes nothing acceptable, is a complaint
   under its page and number; an acceptable descriptor that no other shares its id with is
   listed with everything as it was sent.
   */
  lemma ListedAsSent(pages: seq<Page>, maxFileSize: nat, scan: SourceScan, k: nat, i: nat)
    requires IsScan(SeenOf(pages, maxFileSize), scan) && k < |pages| && i < |pages[k].items|
    ensures var (item, place) := (pages[k].items[i], PageItem(k + 1, i + 1));
            match item
            case Malformed => SourceIssue(place, NotReadable) in scan.issues
            case Descriptor(id, _, _, _, _, _) =>
              if !WellDescribed(AsSent(item), maxFileSize) then SourceIssue(place, MetadataRefused) in scan.issues
              else OnlyOneOf(pages, id, k, i) ==> AsSent(item) in scan.deliveries
  {
    hide IsScan;
    var seen := SeenOf(pages, maxFileSize);
    var item := pages[k].items[i];
    var at := ItemIsSeen(pages, k, i, maxFileSize);
    ClassifiedAs(item, PageItem(k + 1, i + 1), maxFileSize);
    if item.Descriptor? && WellDescribed(AsSent(item), maxFileSize) && OnlyOneOf(pages, item.deliveryId, k, i) {
      forall j | 0 <= j < |seen| && j != at && seen[j].Offered? ensures seen[j].delivery.id != item.deliveryId {
        var k', i' := SeenIsItem(pages, j, maxFileSize);
        ClassifiedAs(pages[k'].items[i'], PageItem(k' + 1, i' + 1), maxFileSize);
        if j < at { PlacesDiffer(pages, j, at, maxFileSize); } else { PlacesDiffer(pages, at, j, maxFileSize); }
      }
    }
    ItemByItem(seen, scan, at);
  }

  /** No other item of the pages is a descriptor with this id. */
  predicate OnlyOneOf(pages: seq<Page>, id: string, k: nat, i: nat) {
    forall k', i' | 0 <= k' < |pages| && 0 <= i' < |pages[k'].items| && pages[k'].items[i'].Descriptor?
                    && pages[k'].items[i'].deliveryId == id :: k' == k && i' == i
  }

  lemma ClassifiedAs(item: Item, place: Place, maxFileSize: nat)
    ensures var x := Classify(item, place, maxFileSize);
            && x.place == place
            && match item
               case Malformed => x == Refused(place, NotReadable)
               case Descriptor(_, _, _, _, _, _) =>
                 x == if WellDescribed(AsSent(item), maxFileSize) then Offered(place, AsSent(item)) else Refused(place, MetadataRefused)
  {
    hide ValidMetadata, WellDescribed;
    if item.Descriptor? {
      ValidMeansWellDescribed(AsSent(item), maxFileSize);
    }
  }

  /** Nothing is listed that no item of the pages describes. */
  lemma NothingElseIsListed(pages: seq<Page>, maxFileSize: nat, scan: SourceScan, d: Delivery)
    requires IsScan(SeenOf(pages, maxFileSize), scan) && d in scan.deliveries
    ensures exists k, i :: 0 <= k < |pages| && 0 <= i < |pages[k].items| && pages[k].items[i].Descriptor?
                           && AsSent(pages[k].items[i]) == d && WellDescribed(d, maxFileSize)
  {
    hide Offers, Complaints, OldestFirst;
    var seen := SeenOf(pages, maxFileSize);
    assert d in Offers(seen, d.id);
    OfferedSomewhere(seen, d.id, d);
    var at :| 0 <= at < |seen| && seen[at].Offered? && seen[at].delivery == d;
    var k, i := SeenIsItem(pages, at, maxFileSize);
    ClassifiedAs(pages[k].items[i], PageItem(k + 1, i + 1), maxFileSize);
  }

  // ------------------------------------------------------------------- the scan

  /** A scan can succeed after `n` fetches, and after no other number. */
  predicate Succeeds(server: Server, pageSize: nat, n: nat, maxFileSize: nat) {
    && 1 <= n <= 100 && Ends(server, pageSize, n)
    && Load(SeenUpTo(server, pageSize, n, maxFileSize)) <= 10_000
  }

  lemma EndsOnce(server: Server, pageSize: nat, m: nat, n: nat)
    requires Ends(server, pageSize, m) && Ends(server, pageSize, n)
    ensures m == n
  {
    NotEarlier(server, pageSize, m - 1);
    NotEarlier(server, pageSize, n - 1);
  }

  /** With page `k` reached, nothing that ends earlier or needs that page differently is possible. */
  lemma NotEarlier(server: Server, pageSize: nat, k: nat)
    requires Goes(server, pageSize, k)
    ensures forall n | Ends(server, pageSize, n) :: k < n
    ensures forall n | Ends(server, pageSize, n) && k + 1 < n :: LeadsOn(server, pageSize, k) && Goes(server, pageSize, k + 1)
  {
    forall n: nat | 1 <= n <= k ensures !Ends(server, pageSize, n) {
      assert LeadsOn(server, pageSize, n - 1);
    }
  }

  method AddPage(ghost seen: seq<Seen>, tally: Tally, items: seq<Item>, page: nat, maxFileSize: nat) returns (ok: bool, t: Tally)
    requires IsTally(seen, tally) && |tally.byId| + |tally.conflicts| == Load(seen) <= MAX_DELIVERIES_PER_SCAN
    ensures ok <==> Load(seen + SeenOnPage(items, page, maxFileSize)) <= MAX_DELIVERIES_PER_SCAN
    ensures ok ==> IsTally(seen + SeenOnPage(items, page, maxFileSize), t)
                   && |t.byId| + |t.conflicts| == Load(seen + SeenOnPage(items, page, maxFileSize))
  {
    hide IsTally, Load;
    ghost var all := SeenOnPage(items, page, maxFileSize);
    t := tally;
    assert seen + all[..0] == seen;
    for index := 0 to |items|
      invariant IsTally(seen + all[..index], t)
      invariant |t.byId| + |t.conflicts| == Load(seen + all[..index]) <= MAX_DELIVERIES_PER_SCAN
    {
      var x := Classify(items[index], PageItem(page, index + 1), maxFileSize);
      ghost var now := seen + all[..index];
      assert seen + all[..index + 1] == now + [x];
      TallyStep(now, t, x);
      LoadStep(now, t, x);
      ConflictsAreFiled(now, t);
      match x {
        case Refused(place, complaint) =>
          t := t.(issues := t.issues + [SourceIssue(place, complaint)]);
        case Offered(place, d) =>
          if d.id in t.byId {
            t := t.(conflicts := t.conflicts + {d.id}, issues := t.issues + [SourceIssue(place, DuplicateId)]);
          } else if d.id !in t.conflicts {
            t := t.(byId := t.byId[d.id := d]);
          }
          if |t.byId| + |t.conflicts| > MAX_DELIVERIES_PER_SCAN {
            LoadGrows(now + [x], seen + all);
            return false, t;
          }
      }
    }
    assert all[..|items|] == all;
    ok := true;
  }

  lemma ConflictsAreFiled(seen: seq<Seen>, t: Tally)
    requires IsTally(seen, t)
    ensures t.conflicts <= t.byId.Keys
  {
    hide Offers, Complaints, Repeated;
    forall id | id in t.conflicts ensures id in t.byId {
      assert Filed(t, id, Offers(seen, id));
    }
  }

  /**
   A scan stops within a hundred fetches whatever the server answers, succeeds
   exactly when the pages end in time with few enough ids, and then lists what the
   items determine.
   */
  method ScanPending(server: Server, pageSize: nat, maxFileSize: nat) returns (r: Result<SourceScan, ScanError>, fetches: nat)
    ensures 1 <= fetches <= 100
    ensures r.Ok? ==> Succeeds(server, pageSize, fetches, maxFileSize) && IsScan(SeenUpTo(server, pageSize, fetches, maxFileSize), r.value)
    ensures r.Err? ==> forall n :: !Succeeds(server, pageSize, n, maxFileSize)
    ensures r.Ok? ==> exists pages :: IsChain(server, pageSize, pages) && |pages| == fetches && IsScan(SeenOf(pages, maxFileSize), r.value)
  {
    hide IsChain, SeenOf, IsScan, Load;
    hide Goes, LeadsOn, IsTally, Load, PageAt, CursorAt, SeenUpTo, SeenOnPage, ValidCursor;
    var t := Tally(map[], {}, []);
    var seenCursors: set<string> := {};
    var cursor: Option<string> := None;
    ghost var seen := [];
    EmptyTally();
    Beginning(server, pageSize, maxFileSize);
    for pageNumber := 1 to MAX_PAGES_PER_SCAN + 1
      invariant Goes(server, pageSize, pageNumber - 1) && cursor == CursorAt(server, pageSize, pageNumber - 1)
      invariant seenCursors == CursorsSeen(server, pageSize, pageNumber - 1)
      invariant seen == SeenUpTo(server, pageSize, pageNumber - 1, maxFileSize) && IsTally(seen, t)
      invariant |t.byId| + |t.conflicts| == Load(seen) <= MAX_DELIVERIES_PER_SCAN
      invariant pageNumber <= MAX_PAGES_PER_SCAN
    {
      fetches := pageNumber;
      NotEarlier(server, pageSize, pageNumber - 1);
      var page := FetchPage(server(pageNumber - 1, cursor), pageSize);
      OnePage(server, pageSize, pageNumber, maxFileSize);
      if page.Err? {
        return Err(page.error), fetches;
      }
      var ok;
      ok, t := AddPage(seen, t, page.value.items, pageNumber, maxFileSize);
      seen := seen + SeenOnPage(page.value.items, pageNumber, maxFileSize);
      if !ok {
        Overloaded(server, pageSize, pageNumber, maxFileSize);
        return Err(TooManyDeliveries), fetches;
      }
      match page.value.nextCursor {
        case None =>
          var scan := Finish(seen, t);
          ScannedChain(server, pageSize, pageNumber, maxFileSize);
          return Ok(scan), fetches;
        case Some(next) =>
          if !ValidCursor(next) {
            return Err(InvalidCursor), fetches;
          }
          CursorsSeenStep(server, pageSize, pageNumber - 1);
          if next in seenCursors {
            return Err(RepeatedCursor), fetches;
          }
          seenCursors := seenCursors + {next};
          cursor := Some(next);
      }
      if pageNumber == MAX_PAGES_PER_SCAN {
        NotEarlier(server, pageSize, pageNumber);
        return Err(TooManyPages), fetches;
      }
    }
  }

  lemma ScannedChain(server: Server, pageSize: nat, n: nat, maxFileSize: nat)
    requires Ends(server, pageSize, n)
    ensures exists pages :: IsChain(server, pageSize, pages) && |pages| == n
                            && SeenOf(pages, maxFileSize) == SeenUpTo(server, pageSize, n, maxFileSize)
  {
    hide Ends, IsChain, SeenOf, SeenUpTo;
    EndsMeansChain(server, pageSize, n);
    var pages :| IsChain(server, pageSize, pages) && |pages| == n;
    ChainIsSeen(server, pageSize, pages, n, maxFileSize);
    assert pages[..n] == pages;
  }

  lemma Beginning(server: Server, pageSize: nat, maxFileSize: nat)
    ensures Goes(server, pageSize, 0) && CursorAt(server, pageSize, 0) == None && CursorsSeen(server, pageSize, 0) == {}
    ensures SeenUpTo(server, pageSize, 0, maxFileSize) == [] && Load([]) == 0
  {
  }

  function CursorsSeen(server: Server, pageSize: nat, n: nat): set<string> {
    set k | 0 <= k < n && CursorFrom(server, pageSize, k).Some? :: CursorFrom(server, pageSize, k).value
  }

  /** The effect of a page that gives a valid cursor. */
  lemma CursorsSeenStep(server: Server, pageSize: nat, k: nat)
    requires Goes(server, pageSize, k) && LeadsOn(server, pageSize, k)
    ensures CursorFrom(server, pageSize, k).Some?
    ensures var next := CursorFrom(server, pageSize, k).value;
            && CursorsSeen(server, pageSize, k + 1) == CursorsSeen(server, pageSize, k) + {next}
            && (Goes(server, pageSize, k + 1) <==> next !in CursorsSeen(server, pageSize, k))
  {
    hide PageAt;
    assert forall j | 0 <= j <= k :: LeadsOn(server, pageSize, j) && CursorFrom(server, pageSize, j).Some?;
    hide CursorFrom;
    var next := CursorFrom(server, pageSize, k).value;
    if next !in CursorsSeen(server, pageSize, k) {
      assert forall j | 0 <= j < k :: CursorFrom(server, pageSize, j) != Some(next);
    } else {
      var j :| 0 <= j < k && CursorFrom(server, pageSize, j).Some? && CursorFrom(server, pageSize, j).value == next;
      assert CursorFrom(server, pageSize, j) == CursorFrom(server, pageSize, k);
    }
  }

  lemma OnePage(server: Server, pageSize: nat, n: nat, maxFileSize: nat)
    requires n >= 1
    ensures var page := PageAt(server, pageSize, n - 1);
            && page == FetchPage(server(n - 1, CursorAt(server, pageSize, n - 1)), pageSize)
            && (page.Ok? ==>
                  && CursorAt(server, pageSize, n) == page.value.nextCursor
                  && SeenUpTo(server, pageSize, n, maxFileSize) ==
                     SeenUpTo(server, pageSize, n - 1, maxFileSize) + SeenOnPage(page.value.items, n, maxFileSize)
                  && (LeadsOn(server, pageSize, n - 1) <==> page.value.nextCursor.Some? && ValidCursor(page.value.nextCursor.value)))
            && (page.Err? ==> !LeadsOn(server, pageSize, n - 1))
  {
  }

  lemma Overloaded(server: Server, pageSize: nat, k: nat, maxFileSize: nat)
    requires k >= 1 && Goes(server, pageSize, k - 1)
    requires Load(SeenUpTo(server, pageSize, k, maxFileSize)) > MAX_DELIVERIES_PER_SCAN
    ensures forall n :: !Succeeds(server, pageSize, n, maxFileSize)
  {
    NotEarlier(server, pageSize, k - 1);
    forall n | n >= k ensures Load(SeenUpTo(server, pageSize, n, maxFileSize)) > MAX_DELIVERIES_PER_SCAN {
      SeenGrows(server, pageSize, k, n, maxFileSize);
      LoadGrows(SeenUpTo(server, pageSize, k, maxFileSize), SeenUpTo(server, pageSize, n, maxFileSize));
    }
  }
}
