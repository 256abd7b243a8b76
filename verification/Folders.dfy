/** What registered Folders own, and how the registry keeps them apart (src/desktop.rs). */
module Folders {
  import opened Wrappers
  import opened Model

  // ---------------------------------------------------------------------- paths

  datatype Component = CurDir | ParentDir | Normal(name: string)

  /** A path as the user gives it. */
  datatype RawPath = RawPath(absolute: bool, parts: seq<Component>)

  datatype PathError = NotAbsolute | EscapesRoot

  function Names(parts: seq<Component>): nat {
    if parts == [] then 0 else Names(parts[..|parts| - 1]) + if parts[|parts| - 1].Normal? then 1 else 0
  }

  function Parents(parts: seq<Component>): nat {
    if parts == [] then 0 else Parents(parts[..|parts| - 1]) + if parts[|parts| - 1].ParentDir? then 1 else 0
  }

  /** Somewhere along the way there are more steps up than down. */
  ghost predicate Escapes(parts: seq<Component>) {
    exists k :: 0 <= k <= |parts| && Parents(parts[..k]) > Names(parts[..k])
  }

  /** Where a walk along `parts` that begins at `from` ends. */
  function Walk(from: Path, parts: seq<Component>): Path {
    if parts == [] then from
    else
      var here := Walk(from, parts[..|parts| - 1]);
      match parts[|parts| - 1]
      case CurDir => here
      case ParentDir => if here == [] then [] else here[..|here| - 1]
      case Normal(name) => here + [name]
  }

  function Plain(path: Path): seq<Component> {
    seq(|path|, i requires 0 <= i < |path| => Normal(path[i]))
  }

  method NormalizeAbsolutePath(path: RawPath) returns (r: Result<Path, PathError>)
    ensures r == Err(NotAbsolute) <==> !path.absolute
    ensures path.absolute ==> (r == Err(EscapesRoot) <==> Escapes(path.parts))
    ensures r.Ok? ==> r.value == Walk([], path.parts) && |r.value| == Names(path.parts) - Parents(path.parts)
  {
    hide Walk, Names, Parents;
    if !path.absolute {
      return Err(NotAbsolute);
    }
    var normalized: Path := [];
    NoParts();
    for i := 0 to |path.parts|
      invariant normalized == Walk([], path.parts[..i])
      invariant |normalized| == Names(path.parts[..i]) - Parents(path.parts[..i])
      invariant forall k | 0 <= k <= i :: Parents(path.parts[..k]) <= Names(path.parts[..k])
    {
      NextPart(path.parts, i);
      match path.parts[i]
      case CurDir =>
      case ParentDir =>
        if normalized == [] {
          return Err(EscapesRoot);
        }
        normalized := normalized[..|normalized| - 1];
      case Normal(name) => normalized := normalized + [name];
    }
    assert path.parts[..|path.parts|] == path.parts;
    r := Ok(normalized);
  }

  lemma NoParts()
    ensures Walk([], []) == [] && Names([]) == 0 && Parents([]) == 0
  {
  }

  lemma NextPart(parts: seq<Component>, i: nat)
    requires i < |parts|
    ensures var here := Walk([], parts[..i]);
            Walk([], parts[..i + 1]) == match parts[i]
              case CurDir => here
              case ParentDir => if here == [] then [] else here[..|here| - 1]
              case Normal(name) => here + [name]
    ensures Names(parts[..i + 1]) == Names(parts[..i]) + if parts[i].Normal? then 1 else 0
    ensures Parents(parts[..i + 1]) == Parents(parts[..i]) + if parts[i].ParentDir? then 1 else 0
  {
    assert parts[..i + 1][..i] == parts[..i];
  }

  /** A normalized path is its own normal form, and walks compose. */
  lemma {:induction false} WalkPlain(from: Path, path: Path)
    ensures Walk(from, Plain(path)) == from + path
    ensures !Escapes(Plain(path))
  {
    if path != [] {
      var front := path[..|path| - 1];
      WalkPlain(from, front);
      assert Plain(path)[..|path| - 1] == Plain(front);
      assert front + [path[|path| - 1]] == path;
    }
    forall k | 0 <= k <= |path| ensures Parents(Plain(path)[..k]) == 0 {
      NoParents(path, k);
    }
  }

  lemma {:induction false} NoParents(path: Path, k: nat)
    requires k <= |path|
    ensures Parents(Plain(path)[..k]) == 0
  {
    if k > 0 {
      NoParents(path, k - 1);
      assert Plain(path)[..k][..k - 1] == Plain(path)[..k - 1];
    }
  }

  lemma {:induction false} WalkAppend(from: Path, a: seq<Component>, b: seq<Component>)
    ensures Walk(from, a + b) == Walk(Walk(from, a), b)
  {
    if b == [] {
      assert a + b == a;
    } else {
      assert (a + b)[..|a + b| - 1] == a + b[..|b| - 1];
      WalkAppend(from, a, b[..|b| - 1]);
    }
  }

  /** Component-wise prefix, as `Path::starts_with`. */
  predicate StartsWith(path: Path, base: Path) {
    base <= path
  }

  predicate PathsOverlap(left: Path, right: Path) {
    left == right || StartsWith(left, right) || StartsWith(right, left)
  }

  /** Overlapping means having a path in common. */
  lemma OverlapIsIntersection(left: Path, right: Path)
    ensures PathsOverlap(left, right) <==> exists x: Path :: StartsWith(x, left) && StartsWith(x, right)
  {
    if PathsOverlap(left, right) {
      var x := if |left| >= |right| then left else right;
      assert StartsWith(x, left) && StartsWith(x, right);
    }
  }

  // ------------------------------------------------------------------ resources

  datatype BridgeResources = BridgeResources(
    libraryDir: Path,
    stateFile: Path,
    deviceId: string,
    filesystemInbox: Option<Path>,
    httpEndpoint: Option<string>,
    directoryState: Option<Path>)

  datatype Conflict =
    | StateOverlapsLibrary | StateFileInLibrary | InboxOverlapsLibrary | StateFileInInbox // within a Folder
    | DirectoryStateOverlaps | LibrariesOverlap | SharedStateFile | StateFileInOtherLibrary // between Folders
    | SharedDevice | SharedEndpoint | InboxesOverlap | InboxInOtherLibrary | StateFileInOtherInbox

  predicate Within(path: Path, base: Option<Path>) {
    base.Some? && StartsWith(path, base.value)
  }

  predicate Overlap(path: Path, other: Option<Path>) {
    other.Some? && PathsOverlap(path, other.value)
  }

  function SelfResourceProblem(r: BridgeResources): Option<Conflict> {
    if Overlap(r.libraryDir, r.directoryState) then Some(StateOverlapsLibrary)
    else if StartsWith(r.stateFile, r.libraryDir) then Some(StateFileInLibrary)
    else if Overlap(r.libraryDir, r.filesystemInbox) then Some(InboxOverlapsLibrary)
    else if Within(r.stateFile, r.filesystemInbox) then Some(StateFileInInbox)
    else None
  }

  predicate DirectoryStateClashes(owner: BridgeResources, other: BridgeResources) {
    && owner.directoryState.Some?
    && var state := owner.directoryState.value;
       PathsOverlap(state, other.libraryDir) || StartsWith(other.stateFile, state)
       || Overlap(state, other.directoryState) || Overlap(state, other.filesystemInbox)
  }

  function ResourceProblem(left: BridgeResources, right: BridgeResources): Option<Conflict> {
    if DirectoryStateClashes(left, right) || DirectoryStateClashes(right, left) then Some(DirectoryStateOverlaps)
    else if PathsOverlap(left.libraryDir, right.libraryDir) then Some(LibrariesOverlap)
    else if left.stateFile == right.stateFile then Some(SharedStateFile)
    else if StartsWith(left.stateFile, right.libraryDir) || StartsWith(right.stateFile, left.libraryDir) then
      Some(StateFileInOtherLibrary)
    else if left.deviceId == right.deviceId then Some(SharedDevice)
    else if left.httpEndpoint.Some? && left.httpEndpoint == right.httpEndpoint then Some(SharedEndpoint)
    else if left.filesystemInbox.Some? && Overlap(left.filesystemInbox.value, right.filesystemInbox) then Some(InboxesOverlap)
    else if Overlap(right.libraryDir, left.filesystemInbox) || Overlap(left.libraryDir, right.filesystemInbox) then
      Some(InboxInOtherLibrary)
    else if Within(right.stateFile, left.filesystemInbox) || Within(left.stateFile, right.filesystemInbox) then Some(StateFileInOtherInbox)
    else None
  }

  lemma ResourceProblemIsSymmetric(left: BridgeResources, right: BridgeResources)
    ensures ResourceProblem(left, right) == ResourceProblem(right, left)
  {
  }

  /** The places that belong to a Folder: three subtrees and a file. */
  predicate Owns(r: BridgeResources, x: Path) {
    StartsWith(x, r.libraryDir) || Within(x, r.filesystemInbox) || Within(x, r.directoryState) || x == r.stateFile
  }

  ghost predicate Apart(left: BridgeResources, right: BridgeResources) {
    && (forall x :: !(Owns(left, x) && Owns(right, x)))
    && left.deviceId != right.deviceId
    && (left.httpEndpoint.Some? ==> left.httpEndpoint != right.httpEndpoint)
  }

  /** The chain of checks finds nothing exactly when no place, device or queue is shared. */
  lemma ResourceProblemIsExact(left: BridgeResources, right: BridgeResources)
    ensures ResourceProblem(left, right) == None <==> Apart(left, right)
  {
    hide Apart, PathsOverlap, StartsWith;
    if ResourceProblem(left, right) == None {
      NothingShared(left, right);
    }
    if Apart(left, right) {
      SharingFound(left, right);
    }
  }

  lemma NothingShared(left: BridgeResources, right: BridgeResources)
    requires ResourceProblem(left, right) == None
    ensures Apart(left, right)
  {
    hide PathsOverlap, StartsWith;
    forall x ensures !(Owns(left, x) && Owns(right, x)) {
      forall a, b | a in Trees(left) && b in Trees(right) ensures !(StartsWith(x, a) && StartsWith(x, b)) {
        OverlapIsIntersection(a, b);
        OverlapIsIntersection(b, a);
      }
    }
  }

  function Trees(r: BridgeResources): set<Path> {
    {r.libraryDir} + (if r.filesystemInbox.Some? then {r.filesystemInbox.value} else {})
    + if r.directoryState.Some? then {r.directoryState.value} else {}
  }

  lemma SharingFound(left: BridgeResources, right: BridgeResources)
    requires Apart(left, right)
    ensures ResourceProblem(left, right) == None
  {
    hide PathsOverlap, StartsWith;
    assert !Owns(left, right.stateFile) && !Owns(right, left.stateFile);
    forall a, b | a in Trees(left) && b in Trees(right) ensures !PathsOverlap(a, b) && !PathsOverlap(b, a) {
      OverlapIsIntersection(a, b);
      OverlapIsIntersection(b, a);
      forall x | StartsWith(x, a) ensures !StartsWith(x, b) {
        assert Owns(left, x);
      }
    }
  }

  /** A Folder's own places do not meet. */
  ghost predicate Tidy(r: BridgeResources) {
    && (forall x :: !(StartsWith(x, r.libraryDir) && (Within(x, r.filesystemInbox) || Within(x, r.directoryState))))
    && !StartsWith(r.stateFile, r.libraryDir) && !Within(r.stateFile, r.filesystemInbox)
  }

  lemma SelfProblemIsExact(r: BridgeResources)
    ensures SelfResourceProblem(r) == None <==> Tidy(r)
  {
    if r.filesystemInbox.Some? {
      OverlapIsIntersection(r.libraryDir, r.filesystemInbox.value);
    }
    if r.directoryState.Some? {
      OverlapIsIntersection(r.libraryDir, r.directoryState.value);
    }
  }
}
