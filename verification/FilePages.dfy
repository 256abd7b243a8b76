/**
 Selecting one page of the file list (src/desktop/files.rs): overlay the live files,
 filter, partition around the page limit, sort only the page.

 The order of a hash map, the partition and the unstable sort are the library's
 choice. They are parameters here, constrained only by what the library promises, so
 the theorem holds for every choice.
 */
module FilePages {
  import opened Wrappers
  import opened Model
  import opened Ordering
  import opened Files

  // ---------------------------------------------------------------- the order

  datatype Order = Lt | Eq | Gt {
    function Then(next: Order): Order {
      if this == Eq then next else this
    }

    function Reverse(): Order {
      match this case Lt => Gt case Eq => Eq case Gt => Lt
    }
  }

  function CompareNat(a: nat, b: nat): Order {
    if a < b then Lt else if a == b then Eq else Gt
  }

  function CompareString(a: string, b: string): Order {
    if a == b then Eq else if StringLess(a, b) then Lt else Gt
  }

  /** false sorts before true */
  function CompareBool(a: bool, b: bool): Order {
    CompareNat(if a then 1 else 0, if b then 1 else 0)
  }

  datatype Candidate = Candidate(entry: Entry, nameKey: string)

  function CompareNames(l: Candidate, r: Candidate): Order {
    CompareString(l.nameKey, r.nameKey).Then(CompareString(l.entry.Name(), r.entry.Name()))
  }

  function CompareBy(l: Candidate, r: Candidate, sort: FileSort): Order {
    match sort
    case Newest => CompareNat(r.entry.ReceivedAt(), l.entry.ReceivedAt())
    case Oldest => CompareNat(l.entry.ReceivedAt(), r.entry.ReceivedAt())
    case NameAsc => CompareNames(l, r)
    case NameDesc => CompareNames(l, r).Reverse()
    case Largest => CompareNat(r.entry.Size(), l.entry.Size())
    case Smallest => CompareNat(l.entry.Size(), r.entry.Size())
  }

  function Compare(l: Candidate, r: Candidate, sort: FileSort): Order {
    CompareBool(r.entry.IsActive(), l.entry.IsActive()).Then(CompareFiles(l, r, sort))
  }

  function CompareFiles(l: Candidate, r: Candidate, sort: FileSort): Order {
    CompareBy(l, r, sort).Then(CompareNames(l, r)).Then(CompareString(l.entry.Id(), r.entry.Id()))
  }

  /** The answers of a total preorder on three elements, given as a-b, b-c, a-c. */
  predicate Transitive3(ab: Order, bc: Order, ac: Order) {
    && (ab != Gt && bc != Gt ==> ac == if ab == Eq then bc else Lt)
    && (ab != Lt && bc != Lt ==> ac == if ab == Eq then bc else Gt)
  }

  lemma ThenTransitive(ab: Order, bc: Order, ac: Order, ab': Order, bc': Order, ac': Order)
    requires Transitive3(ab, bc, ac) && Transitive3(ab', bc', ac')
    ensures Transitive3(ab.Then(ab'), bc.Then(bc'), ac.Then(ac'))
  {
  }

  lemma StringLaws(a: string, b: string, c: string)
    ensures CompareString(b, a) == CompareString(a, b).Reverse()
    ensures Transitive3(CompareString(a, b), CompareString(b, c), CompareString(a, c))
  {
    StringOrder(a, b);
    StringOrder(b, c);
    StringOrder(a, c);
    if StringLess(a, b) && StringLess(b, c) { StringTransitive(a, b, c); }
    if StringLess(c, b) && StringLess(b, a) { StringTransitive(c, b, a); }
  }

  lemma NameLaws(a: Candidate, b: Candidate, c: Candidate)
    ensures CompareNames(b, a) == CompareNames(a, b).Reverse()
    ensures Transitive3(CompareNames(a, b), CompareNames(b, c), CompareNames(a, c))
  {
    hide StringLess, Transitive3, CompareString;
    StringLaws(a.nameKey, b.nameKey, c.nameKey);
    StringLaws(a.entry.Name(), b.entry.Name(), c.entry.Name());
    ThenTransitive(CompareString(a.nameKey, b.nameKey), CompareString(b.nameKey, c.nameKey), CompareString(a.nameKey, c.nameKey),
                   CompareString(a.entry.Name(), b.entry.Name()), CompareString(b.entry.Name(), c.entry.Name()),
                   CompareString(a.entry.Name(), c.entry.Name()));
  }

  lemma SortKeyLaws(a: Candidate, b: Candidate, c: Candidate, sort: FileSort)
    ensures CompareBy(b, a, sort) == CompareBy(a, b, sort).Reverse()
    ensures Transitive3(CompareBy(a, b, sort), CompareBy(b, c, sort), CompareBy(a, c, sort))
  {
    hide CompareNames;
    NameLaws(a, b, c);
  }

  lemma FileLaws(a: Candidate, b: Candidate, c: Candidate, sort: FileSort)
    ensures CompareFiles(b, a, sort) == CompareFiles(a, b, sort).Reverse()
    ensures CompareFiles(a, b, sort) == Eq ==> a.entry.Id() == b.entry.Id()
    ensures Transitive3(CompareFiles(a, b, sort), CompareFiles(b, c, sort), CompareFiles(a, c, sort))
  {
    hide Transitive3, CompareNames, CompareBy, StringLess;
    var (i, j, k) := (a.entry.Id(), b.entry.Id(), c.entry.Id());
    StringLaws(i, j, k);
    NameLaws(a, b, c);
    SortKeyLaws(a, b, c, sort);
    var (xn, yn, zn) := (CompareNames(a, b), CompareNames(b, c), CompareNames(a, c));
    var (xs, ys, zs) := (CompareBy(a, b, sort), CompareBy(b, c, sort), CompareBy(a, c, sort));
    ThenTransitive(xs, ys, zs, xn, yn, zn);
    ThenTransitive(xs.Then(xn), ys.Then(yn), zs.Then(zn), CompareString(i, j), CompareString(j, k), CompareString(i, k));
  }

  /** The comparator is antisymmetric and transitive, and only equal ids compare equal. */
  lemma CompareLaws(a: Candidate, b: Candidate, c: Candidate, sort: FileSort)
    ensures Compare(b, a, sort) == Compare(a, b, sort).Reverse()
    ensures Compare(a, b, sort) == Eq ==> a.entry.Id() == b.entry.Id()
    ensures Transitive3(Compare(a, b, sort), Compare(b, c, sort), Compare(a, c, sort))
  {
    hide Transitive3, CompareFiles, CompareBool;
    var (x, y, z) := (a.entry.IsActive(), b.entry.IsActive(), c.entry.IsActive());
    FileLaws(a, b, c, sort);
    ActiveLaws(x, y, z);
    ThenTransitive(CompareBool(y, x), CompareBool(z, y), CompareBool(z, x),
                   CompareFiles(a, b, sort), CompareFiles(b, c, sort), CompareFiles(a, c, sort));
  }

  lemma ActiveLaws(a: bool, b: bool, c: bool)
    ensures CompareBool(a, b) == CompareBool(b, a).Reverse()
    ensures CompareBool(a, b) == Eq ==> CompareBool(b, a) == Eq
    ensures Transitive3(CompareBool(b, a), CompareBool(c, b), CompareBool(c, a))
  {
  }

  predicate Less(a: Candidate, b: Candidate, sort: FileSort) {
    Compare(a, b, sort) == Lt
  }

  lemma LessLaws(a: Candidate, b: Candidate, c: Candidate, sort: FileSort)
    ensures !Less(a, a, sort)
    ensures !(Less(a, b, sort) && Less(b, a, sort))
    ensures a.entry.Id() != b.entry.Id() ==> Less(a, b, sort) || Less(b, a, sort)
    ensures Less(a, b, sort) && Less(b, c, sort) ==> Less(a, c, sort)
  {
    hide Compare;
    CompareLaws(a, b, c, sort);
    CompareLaws(a, a, a, sort);
  }

  // ------------------------------------------------------- sorted without ties

  predicate DistinctIds(s: seq<Candidate>) {
    forall i, j | 0 <= i < j < |s| :: s[i].entry.Id() != s[j].entry.Id()
  }

  predicate StrictlySorted(s: seq<Candidate>, sort: FileSort) {
    forall i, j | 0 <= i < j < |s| :: Less(s[i], s[j], sort)
  }

  predicate SameElements(a: seq<Candidate>, b: seq<Candidate>) {
    (forall x | x in a :: x in b) && (forall x | x in b :: x in a)
  }

  /** There is only one way to sort a set of candidates. */
  lemma {:induction false} SortedIsUnique(a: seq<Candidate>, b: seq<Candidate>, sort: FileSort)
    requires StrictlySorted(a, sort) && StrictlySorted(b, sort) && SameElements(a, b)
    ensures a == b
  {
    hide Less;
    if a == [] {
      assert forall i | 0 <= i < |b| :: b[i] in b;
    } else {
      assert a[0] in b;
      var i :| 0 <= i < |b| && b[i] == a[0];
      assert b[0] in a;
      var j :| 0 <= j < |a| && a[j] == b[0];
      LessLaws(a[0], b[0], a[0], sort);
      assert a[0] == b[0];
      TailElements(a, b, sort);
      TailElements(b, a, sort);
      SortedIsUnique(a[1..], b[1..], sort);
    }
  }

  lemma TailElements(a: seq<Candidate>, b: seq<Candidate>, sort: FileSort)
    requires a != [] && b != [] && a[0] == b[0] && StrictlySorted(a, sort) && SameElements(a, b)
    ensures forall x | x in a[1..] :: x in b[1..]
  {
    hide Less;
    forall x | x in a[1..] ensures x in b[1..] {
      var i :| 0 <= i < |a| - 1 && a[1..][i] == x;
      assert x == a[i + 1] && x in b;
      LessLaws(a[0], x, a[0], sort);
      assert x != b[0];
    }
  }

  // ------------------------------------------------------------------ the library

  datatype Query = Query(sort: FileSort, filter: FileFilter, kind: FileKind, text: string, limit: nat)

  /** The library's free choices: map order, partition around an index, unstable sort, and trimming. */
  datatype Library = Library(
    keys: map<string, FileActivity> -> seq<string>,
    partition: (seq<Candidate>, nat, FileSort) -> seq<Candidate>,
    sortUnstable: (seq<Candidate>, FileSort) -> seq<Candidate>,
    trim: string -> string)

  ghost predicate Enumerates(m: map<string, FileActivity>, s: seq<string>) {
    && (forall id :: id in s <==> id in m) && forall i, j | 0 <= i < j < |s| :: s[i] != s[j]
  }

  /** Element `k` is in its final position, with no greater element before it and no smaller one after it. */
  predicate Partitioned(s: seq<Candidate>, k: nat, sort: FileSort) {
    k < |s| && (forall i | 0 <= i < k :: !Less(s[k], s[i], sort)) && (forall j | k < j < |s| :: !Less(s[j], s[k], sort))
  }

  predicate SortedBy(s: seq<Candidate>, sort: FileSort) {
    forall i, j | 0 <= i < j < |s| :: !Less(s[j], s[i], sort)
  }

  /** What the documentation of the standard library promises. */
  ghost predicate Honest(lib: Library) {
    && (forall m {:trigger lib.keys(m)} :: Enumerates(m, lib.keys(m)))
    && (forall s, k: nat, sort {:trigger lib.partition(s, k, sort)} | k < |s| ::
          multiset(lib.partition(s, k, sort)) == multiset(s) && Partitioned(lib.partition(s, k, sort), k, sort))
    && (forall s, sort {:trigger lib.sortUnstable(s, sort)} ::
          multiset(lib.sortUnstable(s, sort)) == multiset(s) && SortedBy(lib.sortUnstable(s, sort), sort))
  }

  lemma Rearranged(a: seq<Candidate>, b: seq<Candidate>)
    requires multiset(a) == multiset(b) && DistinctIds(b)
    ensures |a| == |b| && SameElements(a, b) && DistinctIds(a)
  {
    assert |multiset(a)| == |multiset(b)|;
    forall x | x in a ensures x in b { assert x in multiset(b); }
    forall x | x in b ensures x in a { assert x in multiset(a); }
    forall i, j | 0 <= i < j < |a| ensures a[i].entry.Id() != a[j].entry.Id() {
      if a[i].entry.Id() == a[j].entry.Id() {
        assert a[i] in b && a[j] in b;
        OneById(b, a[i], a[j]);
        assert a == a[..i] + [a[i]] + a[i + 1..j] + [a[j]] + a[j + 1..];
        assert multiset(a)[a[i]] >= 2;
        CountIsOne(b, a[i]);
        assert false;
      }
    }
  }

  lemma OneById(s: seq<Candidate>, x: Candidate, y: Candidate)
    requires DistinctIds(s) && x in s && y in s && x.entry.Id() == y.entry.Id()
    ensures x == y
  {
  }

  lemma {:induction false} CountIsOne(s: seq<Candidate>, x: Candidate)
    requires DistinctIds(s)
    ensures multiset(s)[x] <= 1
  {
    if s != [] {
      CountIsOne(s[1..], x);
      assert s == [s[0]] + s[1..];
      if x == s[0] {
        assert x !in s[1..];
      }
    }
  }

  lemma SortedIsStrict(s: seq<Candidate>, sort: FileSort)
    requires SortedBy(s, sort) && DistinctIds(s)
    ensures StrictlySorted(s, sort)
  {
    hide Less;
    forall i, j | 0 <= i < j < |s| ensures Less(s[i], s[j], sort) {
      LessLaws(s[i], s[j], s[i], sort);
    }
  }

  /** The heart of the selection: partition, keep the first `k`, sort them; that is the front of the full sort. */
  lemma PageIsFront(lib: Library, visible: seq<Candidate>, k: nat, sort: FileSort, full: seq<Candidate>)
    requires Honest(lib) && DistinctIds(visible) && 0 < k < |visible|
    requires StrictlySorted(full, sort) && SameElements(full, visible)
    ensures k <= |full| && lib.sortUnstable(lib.partition(visible, k, sort)[..k], sort) == full[..k]
  {
    hide Less, SameElements, StrictlySorted, DistinctIds, SortedBy;
    var part := lib.partition(visible, k, sort);
    Rearranged(part, visible);
    var (low, high) := (part[..k], part[k..]);
    assert part == low + high;
    Halves(part, k);
    var (front, back) := (lib.sortUnstable(low, sort), lib.sortUnstable(high, sort));
    Rearranged(front, low);
    Rearranged(back, high);
    SortedIsStrict(front, sort);
    SortedIsStrict(back, sort);
    Glue(part, k, front, back, sort);
    ElementsChain(front + back, part, visible, full);
    SortedIsUnique(front + back, full, sort);
    assert (front + back)[..k] == front;
  }

  lemma Halves(s: seq<Candidate>, k: nat)
    requires DistinctIds(s) && k <= |s|
    ensures DistinctIds(s[..k]) && DistinctIds(s[k..])
  {
  }

  lemma Glue(part: seq<Candidate>, k: nat, front: seq<Candidate>, back: seq<Candidate>, sort: FileSort)
    requires Partitioned(part, k, sort) && DistinctIds(part)
    requires SameElements(front, part[..k]) && SameElements(back, part[k..])
    requires StrictlySorted(front, sort) && StrictlySorted(back, sort)
    ensures StrictlySorted(front + back, sort) && SameElements(front + back, part)
  {
    hide Less;
    forall x, y | x in front && y in back ensures Less(x, y, sort) {
      var i :| 0 <= i < k && part[..k][i] == x;
      var j :| 0 <= j < |part| - k && part[k..][j] == y;
      LessLaws(part[i], part[k], part[k + j], sort);
      LessLaws(part[k], part[k + j], part[k], sort);
      LessLaws(part[i], part[k + j], part[i], sort);
      assert part[i].entry.Id() != part[k].entry.Id();
    }
    assert part == part[..k] + part[k..];
    forall i, j | 0 <= i < j < |front + back| ensures Less((front + back)[i], (front + back)[j], sort) {
      if i < |front| <= j {
        assert front[i] in front && back[j - |front|] in back;
      }
    }
  }

  lemma ElementsChain(a: seq<Candidate>, b: seq<Candidate>, c: seq<Candidate>, d: seq<Candidate>)
    requires SameElements(a, b) && SameElements(b, c) && SameElements(d, c)
    ensures SameElements(a, d)
  {
  }

  // ------------------------------------------------------------- the naive list

  predicate StandsAt(text: string, i: nat, pattern: string) {
    i + |pattern| <= |text| && text[i..i + |pattern|] == pattern
  }

  predicate Contains(text: string, pattern: string) {
    exists i | 0 <= i <= |text| :: StandsAt(text, i, pattern)
  }

  predicate IsLastLive(activity: seq<FileActivity>, id: string, i: nat) {
    i < |activity| && activity[i].id == id && forall j | i < j < |activity| :: activity[j].id != id
  }

  predicate HasLive(activity: seq<FileActivity>, id: string) {
    exists i | 0 <= i < |activity| :: activity[i].id == id
  }

  /** What the list shows before filtering: the last live entry of an id, else the last saved one. */
  predicate Shown(records: seq<DeliveryRecord>, activity: seq<FileActivity>, e: Entry) {
    match e
    case Live(a) => exists i | 0 <= i < |activity| :: IsLastLive(activity, a.id, i) && activity[i] == a
    case Saved(r) =>
      && !HasLive(activity, r.id)
      && exists i | 0 <= i < |records| :: IsLast(records, r.id, i) && records[i] == r
  }

  predicate StatusMatches(filter: FileFilter, e: Entry) {
    match filter
    case AllStatuses => true
    case InProgress => e.IsPending()
    case Attention => e.NeedsAttention()
    case Completed => e.IsComplete()
  }

  function KindOf(text: Text, e: Entry): FileKind {
    match e case Saved(r) => text.kindOf(r.mediaType) case Live(a) => text.kindOf(a.mediaType)
  }

  predicate Passes(text: Text, q: Query, pattern: string, e: Entry) {
    && StatusMatches(q.filter, e) && (q.kind == AllKinds || q.kind == KindOf(text, e))
    && Contains(text.lower(e.Name()), pattern)
  }

  predicate Listed(text: Text, records: seq<DeliveryRecord>, activity: seq<FileActivity>, q: Query, pattern: string, c: Candidate) {
    Shown(records, activity, c.entry) && Passes(text, q, pattern, c.entry) && c.nameKey == text.lower(c.entry.Name())
  }

  /** The reference: filter the whole overlay and sort all of it. */
  ghost predicate IsFullSort(text: Text, records: seq<DeliveryRecord>, activity: seq<FileActivity>, q: Query, pattern: string,
                             full: seq<Candidate>) {
    StrictlySorted(full, q.sort) && forall c :: c in full <==> Listed(text, records, activity, q, pattern, c)
  }

  // ---------------------------------------------------------------- the fast list

  datatype FilePage = FilePage(entries: seq<Entry>, total: nat)

  function Entries(s: seq<Candidate>): seq<Entry> {
    seq(|s|, i requires 0 <= i < |s| => s[i].entry)
  }

  function Consider(text: Text, q: Query, pattern: string, e: Entry, nameKey: string): seq<Candidate> {
    if StatusMatches(q.filter, e) && (q.kind == AllKinds || q.kind == KindOf(text, e)) && Contains(nameKey, pattern)
    then [Candidate(e, nameKey)] else []
  }

  /** The candidates come from these entries, each at most once. */
  ghost predicate Gathered(text: Text, q: Query, pattern: string, visible: seq<Candidate>, shown: Entry -> bool) {
    && DistinctIds(visible)
    && forall c :: c in visible <==>
         shown(c.entry) && Passes(text, q, pattern, c.entry) && c.nameKey == text.lower(c.entry.Name())
  }

  lemma GatherOne(text: Text, q: Query, pattern: string, visible: seq<Candidate>, shown: Entry -> bool, e: Entry, shown': Entry -> bool)
    requires Gathered(text, q, pattern, visible, shown)
    requires forall x | shown(x) :: x.Id() != e.Id()
    requires forall x :: shown'(x) <==> shown(x) || x == e
    ensures Gathered(text, q, pattern, visible + Consider(text, q, pattern, e, text.lower(e.Name())), shown')
  {
    hide Contains, StatusMatches;
    var added := Consider(text, q, pattern, e, text.lower(e.Name()));
    var all := visible + added;
    assert forall i | 0 <= i < |visible| :: visible[i] in visible;
    assert forall c :: c in all <==> c in visible || c in added;
  }

  ghost function SavedAmong(records: seq<DeliveryRecord>, indices: seq<nat>, overridden: seq<bool>): Entry -> bool {
    (e: Entry) => e.Saved? && exists i :: i in indices && i < |records| && i < |overridden| && !overridden[i] && records[i] == e.record
  }

  ghost function LiveAmong(live: map<string, FileActivity>, keys: seq<string>, saved: Entry -> bool): Entry -> bool {
    (e: Entry) => saved(e) || (e.Live? && exists id :: id in keys && id in live && live[id] == e.activity)
  }

  /** Index the live entries by id and mark the saved rows they hide. */
  method Overlay(records: seq<DeliveryRecord>, prepared: Prepared, activity: seq<FileActivity>)
    returns (live: map<string, FileActivity>, overridden: seq<bool>)
    requires forall id | id in prepared.positions :: IsLast(records, id, prepared.positions[id])
    ensures |overridden| == |records|
    ensures forall id :: id in live <==> HasLive(activity, id)
    ensures forall id | id in live :: exists i | 0 <= i < |activity| :: IsLastLive(activity, id, i) && activity[i] == live[id]
    ensures forall i | 0 <= i < |records| && records[i].id in prepared.positions && prepared.positions[records[i].id] == i ::
              overridden[i] <==> HasLive(activity, records[i].id)
  {
    live := map[];
    overridden := seq(|records|, i => false);
    for n := 0 to |activity|
      invariant |overridden| == |records|
      invariant forall id :: id in live <==> HasLive(activity[..n], id)
      invariant forall id | id in live :: exists i | 0 <= i < n :: IsLastLive(activity[..n], id, i) && activity[i] == live[id]
      invariant forall i | 0 <= i < |records| && records[i].id in prepared.positions && prepared.positions[records[i].id] == i ::
                  overridden[i] <==> HasLive(activity[..n], records[i].id)
    {
      var a := activity[n];
      ghost var (before, after) := (activity[..n], activity[..n + 1]);
      assert after == before + [a];
      LiveGrows(before, a);
      forall id | id in live && id != a.id
        ensures exists i | 0 <= i < n + 1 :: IsLastLive(after, id, i) && activity[i] == live[id]
      {
        var i :| 0 <= i < n && IsLastLive(before, id, i) && activity[i] == live[id];
        assert IsLastLive(after, id, i);
      }
      live := live[a.id := a];
      assert IsLastLive(after, a.id, n);
      if a.id in prepared.positions {
        assert IsLast(records, a.id, prepared.positions[a.id]);
        overridden := overridden[prepared.positions[a.id] := true];
      }
    }
    assert activity[..|activity|] == activity;
  }

  lemma LiveGrows(before: seq<FileActivity>, a: FileActivity)
    ensures forall id :: HasLive(before + [a], id) <==> HasLive(before, id) || id == a.id
  {
    forall id | HasLive(before, id) ensures HasLive(before + [a], id) {
      var i :| 0 <= i < |before| && before[i].id == id;
      assert (before + [a])[i].id == id;
    }
    assert (before + [a])[|before|].id == a.id;
  }

  /** What the overlay left of the saved rows, and the live entries on top, are what the list shows. */
  lemma OverlayIsShown(text: Text, records: seq<DeliveryRecord>, p: Prepared, activity: seq<FileActivity>,
                       live: map<string, FileActivity>, keys: seq<string>, overridden: seq<bool>, e: Entry)
    requires IsPrepared(text, p, records) && Enumerates(live, keys) && |overridden| == |records|
    requires forall id :: id in live <==> HasLive(activity, id)
    requires forall id | id in live :: exists i | 0 <= i < |activity| :: IsLastLive(activity, id, i) && activity[i] == live[id]
    requires forall i | 0 <= i < |records| && records[i].id in p.positions && p.positions[records[i].id] == i ::
               overridden[i] <==> HasLive(activity, records[i].id)
    ensures LiveAmong(live, keys, SavedAmong(records, p.unique, overridden))(e) <==> Shown(records, activity, e)
  {
    match e
    case Live(a) =>
      if Shown(records, activity, e) {
        assert HasLive(activity, a.id);
        var i :| 0 <= i < |activity| && IsLastLive(activity, a.id, i) && activity[i] == a;
        var j :| 0 <= j < |activity| && IsLastLive(activity, a.id, j) && activity[j] == live[a.id];
        assert i == j && a.id in keys;
      }
    case Saved(r) =>
      if Shown(records, activity, e) {
        var i :| 0 <= i < |records| && IsLast(records, r.id, i) && records[i] == r;
        assert IsLast(records, r.id, p.positions[r.id]);
        assert i == p.positions[r.id] && i in p.unique;
      }
      if SavedAmong(records, p.unique, overridden)(e) {
        var i :| i in p.unique && i < |records| && !overridden[i] && records[i] == r;
        assert IsLast(records, r.id, i);
      }
  }

  /** Go through the saved rows that are not hidden. */
  method GatherSaved(text: Text, records: seq<DeliveryRecord>, p: Prepared, overridden: seq<bool>, q: Query, pattern: string)
    returns (visible: seq<Candidate>)
    requires IsPrepared(text, p, records) && |overridden| == |records|
    ensures Gathered(text, q, pattern, visible, SavedAmong(records, p.unique, overridden))
  {
    hide Gathered, Passes, Consider, IsLast;
    visible := [];
    NothingGathered(text, q, pattern, SavedAmong(records, [], overridden));
    for n := 0 to |p.unique|
      invariant Gathered(text, q, pattern, visible, SavedAmong(records, p.unique[..n], overridden))
    {
      var index := p.unique[n];
      assert index in p.unique;
      ghost var (before, after) := (p.unique[..n], p.unique[..n + 1]);
      assert after == before + [index];
      ghost var (shown, shown') := (SavedAmong(records, before, overridden), SavedAmong(records, after, overridden));
      if !overridden[index] {
        var e := Saved(records[index]);
        SavedAppears(records, before, index, overridden);
        forall x | shown(x) ensures x.Id() != e.Id() {
          var i :| i in before && i < |records| && records[i] == x.record;
          assert i in p.unique && i != index;
        }
        GatherOne(text, q, pattern, visible, shown, e, shown');
        visible := visible + Consider(text, q, pattern, e, p.names[index]);
      } else {
        SavedHidden(records, before, index, overridden);
        SameGathered(text, q, pattern, visible, shown, shown');
      }
    }
    assert p.unique[..|p.unique|] == p.unique;
  }

  lemma NothingGathered(text: Text, q: Query, pattern: string, shown: Entry -> bool)
    requires forall e :: !shown(e)
    ensures Gathered(text, q, pattern, [], shown)
  {
  }

  lemma SameGathered(text: Text, q: Query, pattern: string, visible: seq<Candidate>, shown: Entry -> bool, shown': Entry -> bool)
    requires Gathered(text, q, pattern, visible, shown) && forall e :: shown(e) == shown'(e)
    ensures Gathered(text, q, pattern, visible, shown')
  {
  }

  lemma SavedAppears(records: seq<DeliveryRecord>, before: seq<nat>, index: nat, overridden: seq<bool>)
    requires index < |records| == |overridden| && !overridden[index]
    ensures forall e :: SavedAmong(records, before + [index], overridden)(e)
                    <==> SavedAmong(records, before, overridden)(e) || e == Saved(records[index])
  {
    forall e | e == Saved(records[index]) ensures SavedAmong(records, before + [index], overridden)(e) {
      assert (before + [index])[|before|] == index;
    }
    forall e | SavedAmong(records, before, overridden)(e) ensures SavedAmong(records, before + [index], overridden)(e) {
      var i :| i in before && i < |records| && !overridden[i] && records[i] == e.record;
      assert i in before + [index];
    }
  }

  lemma SavedHidden(records: seq<DeliveryRecord>, before: seq<nat>, index: nat, overridden: seq<bool>)
    requires index < |records| == |overridden| && overridden[index]
    ensures forall e :: SavedAmong(records, before + [index], overridden)(e) == SavedAmong(records, before, overridden)(e)
  {
    forall e | SavedAmong(records, before, overridden)(e) ensures SavedAmong(records, before + [index], overridden)(e) {
      var i :| i in before && i < |records| && !overridden[i] && records[i] == e.record;
      assert i in before + [index];
    }
  }

  lemma LiveAppears(live: map<string, FileActivity>, before: seq<string>, id: string, saved: Entry -> bool)
    requires id in live
    ensures forall e :: LiveAmong(live, before + [id], saved)(e) <==> LiveAmong(live, before, saved)(e) || e == Live(live[id])
  {
    assert id in before + [id];
    assert forall x :: x in before + [id] <==> x in before || x == id;
  }

  /** Then through the live entries, in the order of the hash map. */
  method GatherLive(text: Text, live: map<string, FileActivity>, keys: seq<string>, q: Query, pattern: string,
                    start: seq<Candidate>, ghost saved: Entry -> bool)
    returns (visible: seq<Candidate>)
    requires Enumerates(live, keys) && (forall id | id in live :: live[id].id == id)
    requires Gathered(text, q, pattern, start, saved) && forall e | saved(e) :: e.Saved? && e.Id() !in live
    ensures Gathered(text, q, pattern, visible, LiveAmong(live, keys, saved))
  {
    hide Gathered, Passes, Consider;
    visible := start;
    SameGathered(text, q, pattern, visible, saved, LiveAmong(live, [], saved));
    for n := 0 to |keys|
      invariant Gathered(text, q, pattern, visible, LiveAmong(live, keys[..n], saved))
    {
      var id := keys[n];
      assert id in keys;
      ghost var before := keys[..n];
      assert keys[..n + 1] == before + [id];
      var e := Live(live[id]);
      LiveAppears(live, before, id, saved);
      GatherOne(text, q, pattern, visible, LiveAmong(live, before, saved), e, LiveAmong(live, before + [id], saved));
      visible := visible + Consider(text, q, pattern, e, text.lower(live[id].originalName));
    }
    assert keys[..|keys|] == keys;
  }

  /** Keep the page: nothing, everything, or what the partition puts in front; then sort only that. */
  method Front(lib: Library, visible: seq<Candidate>, limit: nat, sort: FileSort) returns (page: seq<Candidate>)
    requires Honest(lib) && DistinctIds(visible)
    ensures forall full | StrictlySorted(full, sort) && SameElements(full, visible) ::
              |full| == |visible| && page == full[..if limit < |full| then limit else |full|]
    ensures exists full :: StrictlySorted(full, sort) && SameElements(full, visible)
  {
    hide Less, SameElements, StrictlySorted, DistinctIds, SortedBy, Partitioned;
    var total := |visible|;
    var size := if limit < total then limit else total;
    page := visible;
    if size == 0 {
      page := [];
    } else if size < total {
      page := lib.partition(visible, size, sort)[..size];
    }
    ghost var kept := page;
    page := lib.sortUnstable(page, sort);
    assert |page| == |multiset(page)| == |multiset(kept)| == |kept|;
    ghost var all := lib.sortUnstable(visible, sort);
    Rearranged(all, visible);
    SortedIsStrict(all, sort);
    forall full | StrictlySorted(full, sort) && SameElements(full, visible)
      ensures |full| == total && page == full[..size]
    {
      ElementsBack(all, visible, full);
      SortedIsUnique(all, full, sort);
      if size == 0 {
        assert page == [] == full[..0];
      } else if size < total {
        PageIsFront(lib, visible, size, sort, full);
      } else {
        assert full[..size] == full;
      }
    }
  }

  lemma ElementsBack(a: seq<Candidate>, b: seq<Candidate>, c: seq<Candidate>)
    requires SameElements(a, b) && SameElements(c, b)
    ensures SameElements(a, c)
  {
  }

  /**
   The page is the front of the full sort of the filtered overlay, and `total` is the
   size of that list. `full` is unique, and it exists.
   */
  method SelectPage(text: Text, lib: Library, records: seq<DeliveryRecord>, p: Prepared, activity: seq<FileActivity>, q: Query)
    returns (page: FilePage)
    requires IsPrepared(text, p, records) && Honest(lib)
    ensures var pattern := text.lower(lib.trim(q.text));
            && (exists full :: IsFullSort(text, records, activity, q, pattern, full))
            && forall full | IsFullSort(text, records, activity, q, pattern, full) ::
                 page.total == |full| && page.entries == Entries(full[..if q.limit < |full| then q.limit else |full|])
  {
    hide Gathered, Passes, Shown, StrictlySorted, DistinctIds, HasLive, IsLastLive, IsLast, LiveAmong, SavedAmong;
    var live, overridden := Overlay(records, p, activity);
    var pattern := text.lower(lib.trim(q.text));
    var keys := lib.keys(live);
    assert Enumerates(live, keys);
    ghost var saved := SavedAmong(records, p.unique, overridden);
    var visible := GatherSaved(text, records, p, overridden, q, pattern);
    LiveIds(activity, live);
    SavedNotLive(text, records, p, activity, live, overridden);
    visible := GatherLive(text, live, keys, q, pattern, visible, saved);
    forall e ensures LiveAmong(live, keys, saved)(e) <==> Shown(records, activity, e) {
      OverlayIsShown(text, records, p, activity, live, keys, overridden, e);
    }
    VisibleIsListed(text, records, activity, q, pattern, visible, LiveAmong(live, keys, saved));
    var front := Front(lib, visible, q.limit, q.sort);
    forall full ensures IsFullSort(text, records, activity, q, pattern, full)
                    <==> StrictlySorted(full, q.sort) && SameElements(full, visible) {
    }
    page := FilePage(Entries(front), |visible|);
  }

  lemma LiveIds(activity: seq<FileActivity>, live: map<string, FileActivity>)
    requires forall id | id in live :: exists i | 0 <= i < |activity| :: IsLastLive(activity, id, i) && activity[i] == live[id]
    ensures forall id | id in live :: live[id].id == id
  {
  }

  lemma SavedNotLive(text: Text, records: seq<DeliveryRecord>, p: Prepared, activity: seq<FileActivity>,
                     live: map<string, FileActivity>, overridden: seq<bool>)
    requires IsPrepared(text, p, records) && |overridden| == |records|
    requires forall id :: id in live <==> HasLive(activity, id)
    requires forall i | 0 <= i < |records| && records[i].id in p.positions && p.positions[records[i].id] == i ::
               overridden[i] <==> HasLive(activity, records[i].id)
    ensures forall e | SavedAmong(records, p.unique, overridden)(e) :: e.Saved? && e.Id() !in live
  {
    hide IsLast, HasLive;
  }

  lemma VisibleIsListed(text: Text, records: seq<DeliveryRecord>, activity: seq<FileActivity>, q: Query, pattern: string,
                        visible: seq<Candidate>, shown: Entry -> bool)
    requires Gathered(text, q, pattern, visible, shown) && forall e :: shown(e) <==> Shown(records, activity, e)
    ensures DistinctIds(visible) && forall c :: c in visible <==> Listed(text, records, activity, q, pattern, c)
  {
    hide Shown, Passes, DistinctIds;
  }

  // ------------------------------------------------- what the page looks like

  /** What the list goes by, read off an entry. */
  datatype Facts = Facts(active: bool, received: nat, size: nat, name: string, id: string)

  function FactsOf(e: Entry): Facts {
    match e
    case Saved(r) => Facts(false, r.receivedAt, r.size, r.originalName, r.id)
    case Live(a) => Facts(a.phase.Some?, 0, a.size, a.originalName, a.id)
  }

  /** Two entries in this order by name: lower-cased names first, then the names themselves, then ids. */
  predicate NamesAscend(text: Text, a: Facts, b: Facts) {
    var (x, y) := (text.lower(a.name), text.lower(b.name));
    || StringLess(x, y)
    || (x == y && (StringLess(a.name, b.name) || (a.name == b.name && StringLess(a.id, b.id))))
  }

  /** The same, with names in the opposite order and ids still ascending. */
  predicate NamesDescend(text: Text, a: Facts, b: Facts) {
    var (x, y) := (text.lower(a.name), text.lower(b.name));
    || StringLess(y, x)
    || (x == y && (StringLess(b.name, a.name) || (a.name == b.name && StringLess(a.id, b.id))))
  }

  /** `a` belongs before `b`: transfers in progress lead, then the chosen order decides, and names settle ties. */
  predicate StandsBefore(text: Text, a: Facts, b: Facts, sort: FileSort) {
    || (a.active && !b.active)
    || (a.active == b.active &&
        match sort
        case Newest => a.received > b.received || (a.received == b.received && NamesAscend(text, a, b))
        case Oldest => a.received < b.received || (a.received == b.received && NamesAscend(text, a, b))
        case Largest => a.size > b.size || (a.size == b.size && NamesAscend(text, a, b))
        case Smallest => a.size < b.size || (a.size == b.size && NamesAscend(text, a, b))
        case NameAsc => NamesAscend(text, a, b)
        case NameDesc => NamesDescend(text, a, b))
  }

  /** The status filter, field by field. */
  predicate Admits(filter: FileFilter, e: Entry) {
    match (filter, e)
    case (AllStatuses, _) => true
    case (InProgress, Saved(r)) => r.deliveryStatus == AckPending || r.wallpaperStatus in {Pending, Running}
    case (InProgress, Live(a)) => a.phase.Some?
    case (Attention, Saved(r)) => r.deliveryError.Some? || r.wallpaperError.Some? || r.wallpaperStatus in {Failed, Uncertain}
    case (Attention, Live(a)) => a.error.Some?
    case (Completed, Saved(r)) =>
      && r.deliveryStatus == Acknowledged && r.wallpaperStatus in {NotApplicable, NotConfigured, Applied}
      && r.deliveryError == None && r.wallpaperError == None
    case (Completed, Live(_)) => false
  }

  /** The entry meets the filter, is of the wanted kind, and has the pattern somewhere in its lower-cased name. */
  ghost predicate Wanted(text: Text, q: Query, pattern: string, e: Entry) {
    && Admits(q.filter, e)
    && (q.kind == AllKinds || q.kind == text.kindOf(if e.Saved? then e.record.mediaType else e.activity.mediaType))
    && exists before: string, after: string :: text.lower(FactsOf(e).name) == before + pattern + after
  }

  /** The whole list: the shown entries that are wanted, in order. */
  ghost predicate IsList(text: Text, records: seq<DeliveryRecord>, activity: seq<FileActivity>, q: Query, pattern: string,
                         list: seq<Entry>) {
    && (forall e :: e in list <==> Shown(records, activity, e) && Wanted(text, q, pattern, e))
    && forall i, j | 0 <= i < j < |list| :: StandsBefore(text, FactsOf(list[i]), FactsOf(list[j]), q.sort)
  }

  lemma LessIsBefore(text: Text, a: Candidate, b: Candidate, sort: FileSort)
    requires a.nameKey == text.lower(a.entry.Name()) && b.nameKey == text.lower(b.entry.Name()) && Less(a, b, sort)
    ensures StandsBefore(text, FactsOf(a.entry), FactsOf(b.entry), sort)
  {
    hide StringLess;
    OneOrder(a.nameKey, b.nameKey);
    OneOrder(a.entry.Name(), b.entry.Name());
  }

  lemma OneOrder(a: string, b: string)
    ensures CompareString(a, b) == Gt <==> a != b && StringLess(b, a)
  {
    StringOrder(a, b);
  }

  lemma WantedPasses(text: Text, q: Query, pattern: string, e: Entry)
    ensures Wanted(text, q, pattern, e) <==> Passes(text, q, pattern, e)
  {
    assert StatusMatches(q.filter, e) <==> Admits(q.filter, e);
    var name := text.lower(FactsOf(e).name);
    if before: string, after: string :| name == before + pattern + after {
      assert name[|before|..|before| + |pattern|] == pattern;
      assert StandsAt(name, |before|, pattern);
    }
    if i :| 0 <= i <= |name| && StandsAt(name, i, pattern) {
      assert name == name[..i] + pattern + name[i + |pattern|..];
    }
  }

  /** The reference sort, entry by entry. */
  lemma FullSortIsList(text: Text, records: seq<DeliveryRecord>, activity: seq<FileActivity>, q: Query, pattern: string,
                       full: seq<Candidate>)
    requires IsFullSort(text, records, activity, q, pattern, full)
    ensures IsList(text, records, activity, q, pattern, Entries(full))
  {
    hide Shown, Passes, Wanted, Less, StandsBefore, FactsOf;
    var list := Entries(full);
    forall e ensures e in list <==> Shown(records, activity, e) && Wanted(text, q, pattern, e) {
      WantedPasses(text, q, pattern, e);
      var c := Candidate(e, text.lower(e.Name()));
      assert c in full <==> Listed(text, records, activity, q, pattern, c);
      if c in full {
        var i :| 0 <= i < |full| && full[i] == c;
        assert list[i] == e;
      }
      if e in list {
        var i :| 0 <= i < |list| && list[i] == e;
        assert full[i] in full;
      }
    }
    forall i, j | 0 <= i < j < |list| ensures StandsBefore(text, FactsOf(list[i]), FactsOf(list[j]), q.sort) {
      assert full[i] in full && full[j] in full;
      LessIsBefore(text, full[i], full[j], q.sort);
    }
  }

  /** The page of a history, through its index, which is built when it is missing. */
  method Page(h: FileHistory, lib: Library, activity: seq<FileActivity>, q: Query) returns (page: FilePage)
    requires h.Valid() && Honest(lib)
    modifies h`prepared
    ensures h.Valid()
    ensures var pattern := h.text.lower(lib.trim(q.text));
            && (exists full :: IsFullSort(h.text, h.records, activity, q, pattern, full))
            && forall full | IsFullSort(h.text, h.records, activity, q, pattern, full) ::
              page.total == |full| && page.entries == Entries(full[..if q.limit < |full| then q.limit else |full|])
    ensures exists list ::
              && IsList(h.text, h.records, activity, q, h.text.lower(lib.trim(q.text)), list)
              && page.total == |list| && page.entries == list[..if q.limit < |list| then q.limit else |list|]
  {
    hide IsFullSort, IsList, IsPrepared, Honest;
    var p := h.Index();
    page := SelectPage(h.text, lib, h.records, p, activity, q);
    ghost var pattern := h.text.lower(lib.trim(q.text));
    ghost var full :| IsFullSort(h.text, h.records, activity, q, pattern, full);
    FullSortIsList(h.text, h.records, activity, q, pattern, full);
    ghost var list := Entries(full);
    assert IsList(h.text, h.records, activity, q, pattern, list);
    assert page.entries == list[..if q.limit < |list| then q.limit else |list|];
  }

  // ---------------------------------------------------- a library as documented

  ghost function InSomeOrder(ids: set<string>): (s: seq<string>)
    ensures forall id :: id in s <==> id in ids
  {
    if ids == {} then []
    else
      var id :| id in ids;
      [id] + InSomeOrder(ids - {id})
  }

  lemma {:induction false} EachOnce(ids: set<string>)
    ensures forall i, j | 0 <= i < j < |InSomeOrder(ids)| :: InSomeOrder(ids)[i] != InSomeOrder(ids)[j]
  {
    if ids != {} {
      var s := InSomeOrder(ids);
      EachOnce(ids - {s[0]});
      assert s == [s[0]] + InSomeOrder(ids - {s[0]});
    }
  }

  function Insert(x: Candidate, s: seq<Candidate>, sort: FileSort): (r: seq<Candidate>)
    ensures multiset(r) == multiset(s) + multiset{x}
  {
    if s == [] then [x]
    else if Less(x, s[0], sort) then [x] + s
    else
      assert s == [s[0]] + s[1..];
      [s[0]] + Insert(x, s[1..], sort)
  }

  function InsertionSort(s: seq<Candidate>, sort: FileSort): (r: seq<Candidate>)
    ensures multiset(r) == multiset(s)
  {
    if s == [] then []
    else
      assert s == [s[0]] + s[1..];
      Insert(s[0], InsertionSort(s[1..], sort), sort)
  }

  lemma PutInFront(x: Candidate, s: seq<Candidate>, sort: FileSort)
    requires SortedBy(s, sort) && (s != [] ==> Less(x, s[0], sort))
    ensures SortedBy([x] + s, sort)
  {
    hide Less;
    forall j | 0 <= j < |s| ensures !Less(s[j], x, sort) {
      LessLaws(s[j], x, s[0], sort);
      LessLaws(s[0], x, s[0], sort);
    }
  }

  lemma KeepInFront(x: Candidate, s: seq<Candidate>, rest: seq<Candidate>, sort: FileSort)
    requires s != [] && SortedBy(s, sort) && !Less(x, s[0], sort)
    requires SortedBy(rest, sort) && multiset(rest) == multiset(s[1..]) + multiset{x}
    ensures SortedBy([s[0]] + rest, sort)
  {
    hide Less;
    forall j | 0 <= j < |rest| ensures !Less(rest[j], s[0], sort) {
      assert rest[j] in multiset(rest);
      if rest[j] != x {
        assert rest[j] in s[1..];
        var k :| 0 <= k < |s| - 1 && s[1..][k] == rest[j];
        assert s[k + 1] == rest[j];
      }
    }
  }

  lemma {:induction false} InsertSorts(x: Candidate, s: seq<Candidate>, sort: FileSort)
    requires SortedBy(s, sort)
    ensures SortedBy(Insert(x, s, sort), sort)
  {
    hide Less, SortedBy;
    if s == [] || Less(x, s[0], sort) {
      PutInFront(x, s, sort);
      assert [x] + s == Insert(x, s, sort);
    } else {
      TailIsSorted(s, sort);
      InsertSorts(x, s[1..], sort);
      KeepInFront(x, s, Insert(x, s[1..], sort), sort);
    }
  }

  lemma TailIsSorted(s: seq<Candidate>, sort: FileSort)
    requires s != [] && SortedBy(s, sort)
    ensures SortedBy(s[1..], sort)
  {
    hide Less;
  }

  lemma {:induction false} InsertionSortSorts(s: seq<Candidate>, sort: FileSort)
    ensures SortedBy(InsertionSort(s, sort), sort)
  {
    if s != [] {
      InsertionSortSorts(s[1..], sort);
      InsertSorts(s[0], InsertionSort(s[1..], sort), sort);
    }
  }

  /** The promises of the documentation can be kept, for instance by insertion sort. */
  lemma HonestLibraryExists(trim: string -> string)
    ensures exists lib: Library :: Honest(lib) && lib.trim == trim
  {
    hide Less, SortedBy;
    var lib := Library((m: map<string, FileActivity>) => InSomeOrder(m.Keys), (s, k, sort) => InsertionSort(s, sort),
                       (s, sort) => InsertionSort(s, sort), trim);
    forall m: map<string, FileActivity> ensures Enumerates(m, lib.keys(m)) {
      EachOnce(m.Keys);
    }
    forall s, sort ensures SortedBy(InsertionSort(s, sort), sort) {
      InsertionSortSorts(s, sort);
    }
    forall s, k: nat, sort | k < |s| ensures Partitioned(lib.partition(s, k, sort), k, sort) {
      assert |InsertionSort(s, sort)| == |multiset(InsertionSort(s, sort))| == |multiset(s)| == |s|;
      SortedIsPartitioned(InsertionSort(s, sort), k, sort);
    }
    assert Honest(lib);
  }

  lemma SortedIsPartitioned(s: seq<Candidate>, k: nat, sort: FileSort)
    requires SortedBy(s, sort)
    ensures k < |s| ==> Partitioned(s, k, sort)
  {
    hide Less;
  }
}
