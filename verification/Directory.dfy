/** Comparing directory inventories before a one-way synchronisation (src/directory.rs). */
module Directory {
  import opened Wrappers
  import opened Model

  const MAX_ENTRIES: nat := 5000
  const VERSION: nat := 1
  const I64_MAX: nat := 0x7FFF_FFFF_FFFF_FFFF
  const MAX_DELIVERY_BYTES: nat := 100 * 1024 * 1024

  datatype InventoryEntry = InventoryEntry(path: string, sha256: string, size: nat)

  datatype Inventory = Inventory(id: string, entries: seq<InventoryEntry>)

  datatype Comparison = Comparison(identical: nat, missing: seq<string>, different: seq<string>, destinationOnly: nat)

  datatype Refusal = InvalidSource | InvalidReceiver | PathCollision | InvalidState | NoReceiver

  // ------------------------------------------------------------------- paths

  /** Components between slashes; there is always at least one, possibly empty. */
  function Split(path: string): (parts: seq<string>)
    ensures |parts| >= 1
  {
    if path == "" then [""]
    else if path[0] == '/' then [""] + Split(path[1..])
    else InFront(path[0], Split(path[1..]))
  }

  function InFront(c: char, parts: seq<string>): (r: seq<string>)
    requires |parts| >= 1
    ensures |r| == |parts|
  {
    [[c] + parts[0]] + parts[1..]
  }

  function Join(parts: seq<string>): string
    requires |parts| >= 1
  {
    if |parts| == 1 then parts[0] else parts[0] + "/" + Join(parts[1..])
  }

  lemma {:induction false} JoinSplit(path: string)
    ensures Join(Split(path)) == path
  {
    if path != "" {
      JoinSplit(path[1..]);
      if path[0] != '/' {
        var rest := Split(path[1..]);
        assert Split(path)[1..] == rest[1..];
      }
    }
  }

  lemma SplitStep(path: string)
    requires path != ""
    ensures Split(path) == if path[0] == '/' then [""] + Split(path[1..]) else InFront(path[0], Split(path[1..]))
  {
  }

  lemma InFrontAppend(c: char, a: seq<string>, b: seq<string>)
    requires |a| >= 1
    ensures InFront(c, a + b) == InFront(c, a) + b
  {
  }

  lemma {:induction false} SplitAtSlash(a: string, b: string)
    ensures Split(a + "/" + b) == Split(a) + Split(b)
  {
    var path := a + "/" + b;
    SplitStep(path);
    if a == "" {
      assert path[1..] == b;
      assert Split("") == [""];
    } else {
      hide Split, InFront;
      SplitAtSlash(a[1..], b);
      SplitStep(a);
      assert path[1..] == a[1..] + "/" + b;
      if a[0] != '/' {
        InFrontAppend(a[0], Split(a[1..]), Split(b));
      }
    }
  }

  lemma {:induction false} JoinAppend(a: seq<string>, b: seq<string>)
    requires |a| >= 1 && |b| >= 1
    ensures Join(a + b) == Join(a) + "/" + Join(b)
  {
    if |a| == 1 {
      assert (a + b)[1..] == b;
    } else {
      JoinAppend(a[1..], b);
      assert (a + b)[1..] == a[1..] + b;
    }
  }

  /** `p` names a directory above `q`: its components are a proper prefix of those of `q`. */
  predicate Ancestor(p: string, q: string) {
    |Split(p)| < |Split(q)| && Split(q)[..|Split(p)|] == Split(p)
  }

  /** What the program looks for: `p` is what stands before some slash of `q`. */
  predicate SlashPrefix(p: string, q: string) {
    |p| < |q| && q[|p|] == '/' && q[..|p|] == p
  }

  lemma AncestorIsSlashPrefix(p: string, q: string)
    ensures Ancestor(p, q) <==> SlashPrefix(p, q)
  {
    if SlashPrefix(p, q) {
      var rest := q[|p| + 1..];
      assert q == p + "/" + rest;
      SplitAtSlash(p, rest);
    }
    if Ancestor(p, q) {
      var a, b := Split(q)[..|Split(p)|], Split(q)[|Split(p)|..];
      assert Split(q) == a + b;
      JoinAppend(a, b);
      JoinSplit(p);
      JoinSplit(q);
      assert q == p + "/" + Join(b);
    }
  }

  function LowerAscii(c: char): char {
    if 'A' <= c <= 'Z' then c - 'A' + 'a' else c
  }

  predicate ReservedComponent(part: string) {
    |part| >= 8 && forall i | 0 <= i < 8 :: LowerAscii(part[i]) == ".mirelay"[i]
  }

  predicate ValidComponent(part: string) {
    && part != "" && part != "." && part != ".." && ByteLength(part) <= 255
    && (forall c <- part :: !IsControlChar(c) && c != ':')
    && !ReservedComponent(part)
  }

  predicate ValidPath(path: string) {
    && path != "" && ByteLength(path) <= 1024 && '\\' !in path
    && |Split(path)| <= 17 && forall part <- Split(path) :: ValidComponent(part)
  }

  /** One component of a path that may be written: nothing that leaves the directory or touches this program's own files. */
  predicate SafeComponent(part: string) {
    && part != "" && part != "." && part != ".." && ByteLength(part) <= 255
    && (forall c | c in part :: c > '\U{1F}' && !('\U{7F}' <= c <= '\U{9F}') && c != ':' && c != '\\')
    && !(|part| >= 8 && forall i | 0 <= i < 8 :: part[i] == ".mirelay"[i] || part[i] == ".MIRELAY"[i])
  }

  lemma {:induction false} SplitJoin(parts: seq<string>)
    requires parts != [] && forall part | part in parts :: '/' !in part
    ensures Split(Join(parts)) == parts
  {
    if |parts| == 1 {
      NoSlash(parts[0]);
    } else {
      assert forall part | part in parts[1..] :: part in parts;
      SplitAtSlash(parts[0], Join(parts[1..]));
      NoSlash(parts[0]);
      SplitJoin(parts[1..]);
    }
  }

  lemma {:induction false} NoSlash(part: string)
    requires '/' !in part
    ensures Split(part) == [part]
  {
    if part != "" {
      assert part[0] in part && part == [part[0]] + part[1..];
      NoSlash(part[1..]);
    }
  }

  /** Which paths are accepted, by their components. */
  lemma ComponentsDecide(parts: seq<string>)
    requires parts != [] && forall part | part in parts :: '/' !in part
    ensures ValidPath(Join(parts)) <==>
              |parts| <= 17 && ByteLength(Join(parts)) <= 1024 && forall part | part in parts :: SafeComponent(part)
  {
    var path := Join(parts);
    SplitJoin(parts);
    CharsOfJoin(parts);
    forall part | part in parts && '\\' !in part ensures ValidComponent(part) <==> SafeComponent(part) {
      ComponentIsSafe(part);
    }
    if forall part | part in parts :: SafeComponent(part) {
      assert forall part | part in parts :: '\\' !in part;
    }
  }

  lemma ComponentIsSafe(part: string)
    requires '\\' !in part
    ensures ValidComponent(part) <==> SafeComponent(part)
  {
    assert ReservedComponent(part) <==>
           |part| >= 8 && forall i | 0 <= i < 8 :: part[i] == ".mirelay"[i] || part[i] == ".MIRELAY"[i];
  }

  lemma {:induction false} CharsOfJoin(parts: seq<string>)
    requires parts != []
    ensures '\\' in Join(parts) <==> exists part :: part in parts && '\\' in part
  {
    if |parts| > 1 {
      CharsOfJoin(parts[1..]);
    }
  }

  predicate CanonicalUuid(id: string) {
    |id| == 36 && forall i | 0 <= i < 36 ::
      if i == 8 || i == 13 || i == 18 || i == 23 then id[i] == '-' else '0' <= id[i] <= '9' || 'a' <= id[i] <= 'f'
  }

  // --------------------------------------------------------------- inventories

  predicate ValidEntry(e: InventoryEntry) {
    ValidPath(e.path) && ValidSha256(e.sha256) && e.size <= I64_MAX
  }

  function Paths(entries: seq<InventoryEntry>): set<string> {
    set i | 0 <= i < |entries| :: entries[i].path
  }

  predicate DistinctPaths(entries: seq<InventoryEntry>) {
    forall i, j | 0 <= i < j < |entries| :: entries[i].path != entries[j].path
  }

  /** No file is a directory above another. */
  predicate Treelike(paths: set<string>) {
    forall p, q | p in paths && q in paths :: !Ancestor(p, q)
  }

  predicate ValidInventory(inventory: Inventory) {
    && CanonicalUuid(inventory.id) && |inventory.entries| <= 5000
    && (forall i | 0 <= i < |inventory.entries| :: ValidEntry(inventory.entries[i]))
    && DistinctPaths(inventory.entries) && Treelike(Paths(inventory.entries))
  }

  method AnySlashPrefix(paths: set<string>, path: string) returns (found: bool)
    ensures found <==> exists p :: p in paths && Ancestor(p, path)
  {
    var offset := 0;
    while offset < |path|
      invariant 0 <= offset <= |path|
      invariant forall p | p in paths && |p| < offset :: !SlashPrefix(p, path)
    {
      if path[offset] == '/' && path[..offset] in paths {
        AncestorIsSlashPrefix(path[..offset], path);
        return true;
      }
      offset := offset + 1;
    }
    forall p | p in paths ensures !Ancestor(p, path) {
      AncestorIsSlashPrefix(p, path);
    }
    found := false;
  }

  method CheckTree(paths: set<string>) returns (ok: bool)
    ensures ok <==> Treelike(paths)
  {
    var rest := paths;
    while rest != {}
      invariant rest <= paths
      invariant forall p, q | p in paths && q in paths - rest :: !Ancestor(p, q)
      decreases rest
    {
      var path :| path in rest;
      var found := AnySlashPrefix(paths, path);
      if found {
        return false;
      }
      rest := rest - {path};
    }
    ok := true;
  }

  method Validate(inventory: Inventory) returns (ok: bool)
    ensures ok <==> ValidInventory(inventory)
  {
    hide Treelike, ValidEntry, CanonicalUuid;
    if !CanonicalUuid(inventory.id) || |inventory.entries| > MAX_ENTRIES {
      return false;
    }
    var paths: set<string> := {};
    for i := 0 to |inventory.entries|
      invariant paths == Paths(inventory.entries[..i])
      invariant forall j | 0 <= j < i :: ValidEntry(inventory.entries[j])
      invariant DistinctPaths(inventory.entries[..i])
    {
      var entry := inventory.entries[i];
      if !ValidEntry(entry) {
        return false;
      }
      if entry.path in paths {
        var j :| 0 <= j < i && inventory.entries[..i][j].path == entry.path;
        return false;
      }
      PathsGrow(inventory.entries, i);
      paths := paths + {entry.path};
    }
    assert inventory.entries[..|inventory.entries|] == inventory.entries;
    ok := CheckTree(paths);
  }

  lemma PathsGrow(entries: seq<InventoryEntry>, i: nat)
    requires i < |entries|
    ensures Paths(entries[..i + 1]) == Paths(entries[..i]) + {entries[i].path}
  {
    var (a, b) := (entries[..i], entries[..i + 1]);
    forall p | p in Paths(a) ensures p in Paths(b) {
      var j :| 0 <= j < i && a[j].path == p;
      assert b[j].path == p;
    }
    assert b[i].path == entries[i].path;
    forall p | p in Paths(b) ensures p in Paths(a) + {entries[i].path} {
      var j :| 0 <= j < i + 1 && b[j].path == p;
      if j < i {
        assert a[j].path == p;
      }
    }
  }

  // ---------------------------------------------------------------- comparison

  type Entries = map<string, InventoryEntry>

  function EntryMap(entries: seq<InventoryEntry>): Entries {
    if entries == [] then map[]
    else
      var last := entries[|entries| - 1];
      EntryMap(entries[..|entries| - 1])[last.path := last]
  }

  /** The map holds these entries and nothing else. */
  ghost predicate Indexes(m: Entries, entries: seq<InventoryEntry>) {
    && m.Keys == Paths(entries) && |m| == |entries|
    && forall i | 0 <= i < |entries| :: entries[i].path in m && m[entries[i].path] == entries[i]
  }

  lemma IndexMore(m: Entries, entries: seq<InventoryEntry>, n: nat)
    requires n < |entries| && DistinctPaths(entries) && Indexes(m, entries[..n])
    ensures Indexes(m[entries[n].path := entries[n]], entries[..n + 1])
  {
    hide Paths;
    PathsGrow(entries, n);
    NotSeen(entries, n);
    var m' := m[entries[n].path := entries[n]];
    assert m'.Keys == m.Keys + {entries[n].path};
    forall i | 0 <= i < n ensures m'[entries[i].path] == entries[i] {
      assert entries[..n][i] == entries[i];
    }
  }

  lemma {:induction false} EntryMapIndexes(entries: seq<InventoryEntry>, n: nat)
    requires DistinctPaths(entries) && n <= |entries|
    ensures Indexes(EntryMap(entries[..n]), entries[..n])
  {
    if n > 0 {
      EntryMapIndexes(entries, n - 1);
      IndexMore(EntryMap(entries[..n - 1]), entries, n - 1);
      assert entries[..n][..n - 1] == entries[..n - 1];
    }
  }

  lemma EntryMapFacts(entries: seq<InventoryEntry>)
    requires DistinctPaths(entries)
    ensures Indexes(EntryMap(entries), entries)
  {
    EntryMapIndexes(entries, |entries|);
    assert entries[..|entries|] == entries;
  }

  predicate SameContent(a: InventoryEntry, b: InventoryEntry) {
    a.sha256 == b.sha256 && a.size == b.size
  }

  function Missing(source: Entries, receiver: Entries): set<string> {
    source.Keys - receiver.Keys
  }

  function Identical(source: Entries, receiver: Entries): set<string> {
    set p | p in source && p in receiver && source[p].sha256 == receiver[p].sha256 && source[p].size == receiver[p].size
  }

  function Different(source: Entries, receiver: Entries): set<string> {
    set p | p in source && p in receiver && !(source[p].sha256 == receiver[p].sha256 && source[p].size == receiver[p].size)
  }

  ghost predicate Lists(q: seq<string>, s: set<string>) {
    (forall p :: p in q <==> p in s) && |q| == |s|
  }

  /** Path and content decide: each source path is identical, missing or different; the rest is only at the receiver. */
  ghost predicate IsComparison(source: Entries, receiver: Entries, c: Comparison) {
    && Lists(c.missing, Missing(source, receiver)) && Lists(c.different, Different(source, receiver))
    && c.identical == |Identical(source, receiver)| && c.destinationOnly == |receiver.Keys - source.Keys|
  }

  /** How far the loop over the source has got. */
  ghost predicate Classified(from: Entries, to: Entries, seen: set<string>, missing: seq<string>, different: seq<string>, identical: nat) {
    && Lists(missing, Missing(from, to) * seen) && Lists(different, Different(from, to) * seen)
    && identical == |Identical(from, to) * seen|
  }

  lemma ClassifyOne(from: Entries, to: Entries, seen: set<string>, missing: seq<string>, different: seq<string>, identical: nat, p: string)
    requires Classified(from, to, seen, missing, different, identical) && p in from && p !in seen
    ensures p !in to ==> Classified(from, to, seen + {p}, missing + [p], different, identical)
    ensures p in to && SameContent(to[p], from[p]) ==> Classified(from, to, seen + {p}, missing, different, identical + 1)
    ensures p in to && !SameContent(to[p], from[p]) ==> Classified(from, to, seen + {p}, missing, different + [p], identical)
  {
    hide Lists, Missing, Different, Identical;
    ClassOf(from, to, p);
    Meet(Missing(from, to), seen, p);
    Meet(Different(from, to), seen, p);
    Meet(Identical(from, to), seen, p);
    if p !in to {
      ListMore(missing, Missing(from, to) * seen, p);
    } else if !SameContent(to[p], from[p]) {
      ListMore(different, Different(from, to) * seen, p);
    }
  }

  lemma ClassOf(from: Entries, to: Entries, p: string)
    requires p in from
    ensures p in Missing(from, to) <==> p !in to
    ensures p in Identical(from, to) <==> p in to && SameContent(to[p], from[p])
    ensures p in Different(from, to) <==> p in to && !SameContent(to[p], from[p])
  {
  }

  lemma Meet(s: set<string>, seen: set<string>, p: string)
    requires p !in seen
    ensures p in s ==> s * (seen + {p}) == s * seen + {p} && p !in s * seen
    ensures p !in s ==> s * (seen + {p}) == s * seen
  {
  }

  lemma ClassifyNone(from: Entries, to: Entries)
    ensures Classified(from, to, {}, [], [], 0)
  {
    assert Missing(from, to) * {} == {} && Different(from, to) * {} == {} && Identical(from, to) * {} == {};
  }

  lemma ClassifyAll(from: Entries, to: Entries, missing: seq<string>, different: seq<string>, identical: nat)
    requires Classified(from, to, from.Keys, missing, different, identical)
    ensures IsComparison(from, to, Comparison(identical, missing, different, |to.Keys - from.Keys|))
  {
    assert Missing(from, to) * from.Keys == Missing(from, to);
    assert Identical(from, to) * from.Keys == Identical(from, to) && Different(from, to) * from.Keys == Different(from, to);
  }

  /** The paths that lie in `s`, in the order of the entries. */
  function PathsWithin(entries: seq<InventoryEntry>, s: set<string>): seq<string> {
    if entries == [] then []
    else
      var front, last := PathsWithin(entries[..|entries| - 1], s), entries[|entries| - 1].path;
      if last in s then front + [last] else front
  }

  /** Both lists follow the order of the source inventory. */
  predicate InOrder(source: seq<InventoryEntry>, receiver: Entries, c: Comparison) {
    && c.missing == PathsWithin(source, Missing(EntryMap(source), receiver))
    && c.different == PathsWithin(source, Different(EntryMap(source), receiver))
  }

  method Compare(source: Inventory, receiver: Inventory) returns (r: Result<Comparison, Refusal>)
    ensures r.Ok? <==> ValidInventory(source) && ValidInventory(receiver)
                       && Treelike(Paths(source.entries) + Paths(receiver.entries))
    ensures !ValidInventory(source) ==> r == Err(InvalidSource)
    ensures ValidInventory(source) && !ValidInventory(receiver) ==> r == Err(InvalidReceiver)
    ensures ValidInventory(source) && ValidInventory(receiver) && r.Err? ==> r == Err(PathCollision)
    ensures r.Ok? ==> IsComparison(EntryMap(source.entries), EntryMap(receiver.entries), r.value)
    ensures r.Ok? ==> InOrder(source.entries, EntryMap(receiver.entries), r.value)
  {
    hide Treelike, Paths, ValidEntry, CanonicalUuid, EntryMap, Classified, IsComparison, Missing, Different, Identical;
    var valid := Validate(source);
    if !valid {
      return Err(InvalidSource);
    }
    valid := Validate(receiver);
    if !valid {
      return Err(InvalidReceiver);
    }
    EntryMapFacts(source.entries);
    EntryMapFacts(receiver.entries);
    ghost var from := EntryMap(source.entries);
    var targets := CollectEntries(receiver.entries);
    var identical, missing, different := 0, [], [];
    var paths: set<string> := {};
    ClassifyNone(from, targets);
    NoPaths();
    for i := 0 to |source.entries|
      invariant paths == Paths(source.entries[..i])
      invariant Classified(from, targets, paths, missing, different, identical)
      invariant missing == PathsWithin(source.entries[..i], Missing(from, targets))
      invariant different == PathsWithin(source.entries[..i], Different(from, targets))
    {
      var entry := source.entries[i];
      NotSeen(source.entries, i);
      ClassOf(from, targets, entry.path);
      assert source.entries[..i + 1][..i] == source.entries[..i];
      ClassifyOne(from, targets, paths, missing, different, identical, entry.path);
      if entry.path !in targets {
        missing := missing + [entry.path];
      } else if SameContent(targets[entry.path], entry) {
        identical := identical + 1;
      } else {
        different := different + [entry.path];
      }
      PathsGrow(source.entries, i);
      paths := paths + {entry.path};
    }
    assert source.entries[..|source.entries|] == source.entries;
    ClassifyAll(from, targets, missing, different, identical);
    var destinationOnly := |targets.Keys - paths|;
    var ok := CheckTree(paths + targets.Keys);
    if !ok {
      return Err(PathCollision);
    }
    r := Ok(Comparison(identical, missing, different, destinationOnly));
  }

  method CollectEntries(entries: seq<InventoryEntry>) returns (m: Entries)
    ensures m == EntryMap(entries)
  {
    m := map[];
    for i := 0 to |entries|
      invariant m == EntryMap(entries[..i])
    {
      assert entries[..i + 1][..i] == entries[..i];
      m := m[entries[i].path := entries[i]];
    }
    assert entries[..|entries|] == entries;
  }

  lemma NoPaths()
    ensures Paths([]) == {}
  {
  }

  lemma NotSeen(entries: seq<InventoryEntry>, i: nat)
    requires DistinctPaths(entries) && i < |entries|
    ensures entries[i].path !in Paths(entries[..i]) && entries[i].path in Paths(entries)
  {
  }

  lemma ListMore(q: seq<string>, s: set<string>, p: string)
    requires Lists(q, s) && p !in s
    ensures Lists(q + [p], s + {p})
  {
  }

  /** Conservation: every source entry and every receiver entry is counted exactly once. */
  lemma ComparisonConserves(source: Entries, receiver: Entries, c: Comparison)
    requires IsComparison(source, receiver, c)
    ensures c.identical + |c.missing| + |c.different| == |source|
    ensures c.identical + |c.different| + c.destinationOnly == |receiver|
  {
    var (i, d) := (Identical(source, receiver), Different(source, receiver));
    Partition3(source.Keys, i, d, source.Keys - receiver.Keys);
    Partition3(receiver.Keys, i, d, receiver.Keys - source.Keys);
  }

  lemma Partition3(all: set<string>, a: set<string>, b: set<string>, c: set<string>)
    requires forall x :: x in all <==> x in a || x in b || x in c
    requires forall x :: !(x in a && x in b) && !(x in a && x in c) && !(x in b && x in c)
    ensures |all| == |a| + |b| + |c|
  {
    assert all == (a + b) + c;
    assert |a + b| == |a| + |b|;
  }

  // ---------------------------------------------------------------- transferring

  /** `after` is the receiver once every missing and different entry has been written over it. */
  ghost predicate Overwritten(source: Entries, receiver: Entries, c: Comparison, after: Entries) {
    && after.Keys == receiver.Keys + source.Keys
    && forall p | p in after ::
         if p in c.missing || p in c.different then p in source && after[p] == source[p] else p in receiver && after[p] == receiver[p]
  }

  /** After the transfer a second comparison finds everything identical, and nothing else has moved. */
  lemma SecondComparison(source: Entries, receiver: Entries, c: Comparison, after: Entries, c': Comparison)
    requires IsComparison(source, receiver, c) && Overwritten(source, receiver, c, after)
    requires IsComparison(source, after, c')
    ensures c'.missing == [] && c'.different == [] && c'.identical == |source| && c'.destinationOnly == c.destinationOnly
    ensures forall p | p in source :: p in after && after[p].sha256 == source[p].sha256 && after[p].size == source[p].size
    ensures forall p | p in receiver && p !in source :: p in after && after[p] == receiver[p]
  {
    hide Lists;
    OverwrittenMatches(source, receiver, c, after);
    ComparisonMembers(source, receiver, c);
    AllTheSame(source, after);
    NothingToList(c'.missing);
    NothingToList(c'.different);
    assert after.Keys - source.Keys == receiver.Keys - source.Keys;
  }

  lemma AllTheSame(source: Entries, after: Entries)
    requires forall p | p in source :: p in after && after[p].sha256 == source[p].sha256 && after[p].size == source[p].size
    ensures Missing(source, after) == {} && Different(source, after) == {} && Identical(source, after) == source.Keys
  {
  }

  lemma NothingToList(q: seq<string>)
    ensures Lists(q, {}) ==> q == []
  {
  }

  lemma OverwrittenMatches(source: Entries, receiver: Entries, c: Comparison, after: Entries)
    requires IsComparison(source, receiver, c) && Overwritten(source, receiver, c, after)
    ensures forall p | p in source :: p in after && after[p].sha256 == source[p].sha256 && after[p].size == source[p].size
  {
    forall p | p in source ensures p in after && after[p].sha256 == source[p].sha256 && after[p].size == source[p].size {
      ClassOf(source, receiver, p);
      assert p in c.missing <==> p in Missing(source, receiver);
      assert p in c.different <==> p in Different(source, receiver);
    }
  }

  /** The second comparison is possible: the overwritten receiver is a valid inventory unless it grew too large. */
  lemma OverwrittenIsValid(source: Inventory, receiver: Inventory, c: Comparison, after: Inventory)
    requires ValidInventory(source) && ValidInventory(receiver) && Treelike(Paths(source.entries) + Paths(receiver.entries))
    requires IsComparison(EntryMap(source.entries), EntryMap(receiver.entries), c)
    requires DistinctPaths(after.entries) && after.id == receiver.id
    requires Overwritten(EntryMap(source.entries), EntryMap(receiver.entries), c, EntryMap(after.entries))
    ensures ValidInventory(after) <==> |after.entries| <= 5000
    ensures Treelike(Paths(source.entries) + Paths(after.entries))
  {
    hide Treelike, ValidEntry, IsComparison, EntryMap, Paths, CanonicalUuid;
    EntryMapFacts(source.entries);
    EntryMapFacts(receiver.entries);
    EntryMapFacts(after.entries);
    var (s, r, a) := (EntryMap(source.entries), EntryMap(receiver.entries), EntryMap(after.entries));
    assert Paths(source.entries) + Paths(after.entries) == Paths(source.entries) + Paths(receiver.entries) == a.Keys;
    MapEntriesValid(source.entries);
    MapEntriesValid(receiver.entries);
    ComparisonMembers(s, r, c);
    forall i | 0 <= i < |after.entries| ensures ValidEntry(after.entries[i]) {
      assert a[after.entries[i].path] == after.entries[i];
    }
  }

  lemma MapEntriesValid(entries: seq<InventoryEntry>)
    requires DistinctPaths(entries) && forall i | 0 <= i < |entries| :: ValidEntry(entries[i])
    ensures forall p | p in EntryMap(entries) :: EntryMap(entries)[p].path == p && ValidEntry(EntryMap(entries)[p])
  {
    hide ValidEntry, EntryMap;
    EntryMapFacts(entries);
    var m := EntryMap(entries);
    forall p | p in m ensures m[p].path == p && ValidEntry(m[p]) {
      var i :| 0 <= i < |entries| && entries[i].path == p;
    }
  }

  lemma ComparisonMembers(source: Entries, receiver: Entries, c: Comparison)
    requires IsComparison(source, receiver, c)
    ensures forall p | p in c.missing || p in c.different :: p in source
    ensures forall p | p in source && p !in receiver :: p in c.missing
  {
  }

  // ---------------------------------------------------------- pending versions

  datatype DirectoryEntry = DirectoryEntry(
    path: string, version: nat, deliveryId: string, sha256: string, size: nat, mediaType: MediaType,
    acknowledged: bool, conflict: bool)

  datatype DirectoryState = DirectoryState(schemaVersion: nat, receiver: Option<Inventory>, entries: seq<DirectoryEntry>)

  function LastComponent(path: string): string {
    var parts := Split(path);
    parts[|parts| - 1]
  }

  function DeliveryOf(e: DirectoryEntry): Delivery {
    Delivery(MANIFEST_SCHEMA_VERSION, e.deliveryId, LastComponent(e.path), "", e.size, e.sha256, e.mediaType, None)
  }

  predicate ValidVersion(e: DirectoryEntry) {
    && ValidPath(e.path) && 0 < e.version < I64_MAX && ValidDeliveryId(e.deliveryId)
    && ValidMetadata(DeliveryOf(e), MAX_DELIVERY_BYTES)
  }

  predicate ValidState(state: DirectoryState) {
    && state.schemaVersion == VERSION && |state.entries| <= MAX_ENTRIES
    && (state.receiver.Some? ==> ValidInventory(state.receiver.value))
    && (forall i | 0 <= i < |state.entries| :: ValidVersion(state.entries[i]))
    && forall i, j | 0 <= i < j < |state.entries| :: state.entries[i].path != state.entries[j].path
  }

  function EntryOf(e: DirectoryEntry): InventoryEntry {
    InventoryEntry(e.path, e.sha256, e.size)
  }

  /** The receiver as it will be once every version still under way has arrived. */
  function WithPending(receiver: Entries, entries: seq<DirectoryEntry>): Entries {
    if entries == [] then receiver
    else
      var last := entries[|entries| - 1];
      var front := WithPending(receiver, entries[..|entries| - 1]);
      if last.acknowledged then front else front[last.path := EntryOf(last)]
  }

  predicate IsPending(entries: seq<DirectoryEntry>, i: nat, p: string) {
    i < |entries| && entries[i].path == p && !entries[i].acknowledged
  }

  /** Pending versions win; other paths are as the receiver published them. */
  lemma {:induction false} PendingWins(receiver: Entries, entries: seq<DirectoryEntry>, n: nat, p: string)
    requires n <= |entries| && forall i, j | 0 <= i < j < |entries| :: entries[i].path != entries[j].path
    ensures var m := WithPending(receiver, entries[..n]);
            && (forall i | 0 <= i < n && IsPending(entries, i, p) ::
                  p in m && m[p] == InventoryEntry(p, entries[i].sha256, entries[i].size))
            && ((forall i | 0 <= i < n :: !IsPending(entries, i, p)) ==>
                  (p in m <==> p in receiver) && (p in m ==> m[p] == receiver[p]))
  {
    if n > 0 {
      PendingWins(receiver, entries, n - 1, p);
      assert entries[..n][..n - 1] == entries[..n - 1];
      assert IsPending(entries, n - 1, p) <==> entries[n - 1].path == p && !entries[n - 1].acknowledged;
    }
  }

  method CompareRemote(source: Inventory, remote: DirectoryState) returns (r: Result<Comparison, Refusal>)
    ensures !ValidState(remote) <==> r == Err(InvalidState)
    ensures ValidState(remote) && remote.receiver.None? <==> r == Err(NoReceiver)
    ensures r.Ok? ==> ValidState(remote) && remote.receiver.Some? && ValidInventory(source)
    ensures r.Ok? ==>
              IsComparison(EntryMap(source.entries), WithPending(EntryMap(remote.receiver.value.entries), remote.entries), r.value)
    ensures ValidState(remote) && remote.receiver.Some? && ValidInventory(source) ==>
              (r.Ok? <==> && |WithPending(EntryMap(remote.receiver.value.entries), remote.entries)| <= 5000
                          && Treelike(WithPending(EntryMap(remote.receiver.value.entries), remote.entries).Keys)
                          && Treelike(Paths(source.entries) + WithPending(EntryMap(remote.receiver.value.entries), remote.entries).Keys))
  {
    hide Treelike, Paths, ValidEntry, CanonicalUuid, EntryMap, IsComparison, WithPending, ValidVersion;
    if !ValidState(remote) {
      return Err(InvalidState);
    }
    if remote.receiver.None? {
      return Err(NoReceiver);
    }
    var receiver := remote.receiver.value;
    EntryMapFacts(receiver.entries);
    MapEntriesValid(receiver.entries);
    var expected := CollectEntries(receiver.entries);
    expected := ApplyPending(expected, remote.entries);
    var entries := Listing(expected);
    EntryMapFacts(entries);
    SameMap(expected, entries);
    forall i | 0 <= i < |entries| ensures ValidEntry(entries[i]) {
      assert expected[entries[i].path] == entries[i];
    }
    r := Compare(source, Inventory(receiver.id, entries));
  }

  method ApplyPending(receiver: Entries, entries: seq<DirectoryEntry>) returns (m: Entries)
    requires (forall p | p in receiver :: receiver[p].path == p && ValidEntry(receiver[p]))
    requires forall i | 0 <= i < |entries| :: ValidVersion(entries[i])
    ensures m == WithPending(receiver, entries)
    ensures forall p | p in m :: m[p].path == p && ValidEntry(m[p])
  {
    hide ValidEntry, ValidVersion;
    m := receiver;
    for i := 0 to |entries|
      invariant m == WithPending(receiver, entries[..i])
      invariant forall p | p in m :: m[p].path == p && ValidEntry(m[p])
    {
      assert entries[..i + 1][..i] == entries[..i];
      if !entries[i].acknowledged {
        PendingIsValid(entries[i]);
        m := m[entries[i].path := EntryOf(entries[i])];
      }
    }
    assert entries[..|entries|] == entries;
  }

  lemma PendingIsValid(e: DirectoryEntry)
    requires ValidVersion(e)
    ensures ValidEntry(EntryOf(e))
  {
  }

  lemma OneMorePath(entries: seq<InventoryEntry>, e: InventoryEntry)
    requires e.path !in Paths(entries)
    ensures Paths(entries + [e]) == Paths(entries) + {e.path}
    ensures forall i | 0 <= i < |entries| :: entries[i].path != e.path
  {
    PathsGrow(entries + [e], |entries|);
    assert (entries + [e])[..|entries|] == entries && (entries + [e])[..|entries| + 1] == entries + [e];
    forall i | 0 <= i < |entries| ensures entries[i].path != e.path {
      assert entries[i].path in Paths(entries);
    }
  }

  /** The values of the map, one per path. */
  method Listing(m: Entries) returns (entries: seq<InventoryEntry>)
    requires forall p | p in m :: m[p].path == p
    ensures DistinctPaths(entries) && |entries| == |m|
    ensures forall i | 0 <= i < |entries| :: entries[i].path in m && m[entries[i].path] == entries[i]
    ensures Paths(entries) == m.Keys
  {
    hide Paths;
    entries := [];
    var rest := m.Keys;
    NoPaths();
    while rest != {}
      invariant rest <= m.Keys && |entries| + |rest| == |m|
      invariant DistinctPaths(entries) && Paths(entries) == m.Keys - rest
      invariant forall i | 0 <= i < |entries| :: entries[i].path in m && m[entries[i].path] == entries[i]
      decreases rest
    {
      var p :| p in rest;
      OneMorePath(entries, m[p]);
      entries := entries + [m[p]];
      rest := rest - {p};
    }
  }

  lemma SameMap(m: Entries, entries: seq<InventoryEntry>)
    requires Indexes(EntryMap(entries), entries) && Paths(entries) == m.Keys
    requires forall i | 0 <= i < |entries| :: entries[i].path in m && m[entries[i].path] == entries[i]
    ensures EntryMap(entries) == m
  {
    hide EntryMap;
    var m' := EntryMap(entries);
    forall p | p in m ensures m'[p] == m[p] {
      var i :| 0 <= i < |entries| && entries[i].path == p;
    }
  }
}
