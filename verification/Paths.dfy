/** Separation of the state root from a workspace (`core/workspace/paths.go`), on
    canonical paths: lists of names below the file system root. */
module Paths {
  import opened Wrappers

  type Path = seq<string>

  /** The identity of the object at a path, None where there is none. */
  type Disk = Path -> Option<int>

  /** `SamePath`. */
  predicate Same(disk: Disk, a: Path, b: Path) {
    a == b || (disk(a).Some? && disk(a) == disk(b))
  }

  /** Some directory on the way to `child`, short of it, is `parent`. */
  predicate Above(disk: Disk, parent: Path, child: Path) {
    exists k :: 0 <= k < |child| && Same(disk, child[..k], parent)
  }

  /** Neither path is the other or lies above it, under any name. */
  predicate Separate(disk: Disk, a: Path, b: Path) {
    !Same(disk, a, b) && !Above(disk, a, b) && !Above(disk, b, a)
  }

  /** `pathContains`: a textual test, then a walk upward from the child. */
  method PathContains(disk: Disk, parent: Path, child: Path) returns (contains: bool)
    ensures contains <==> !Same(disk, parent, child) && Above(disk, parent, child)
  {
    if Same(disk, parent, child) {
      return false;
    }
    if parent <= child {
      assert child[..|parent|] == parent;
      return true;
    }
    var current := child;
    while current != []
      invariant |current| <= |child| && current == child[..|current|]
      invariant forall k :: |current| <= k < |child| ==> !Same(disk, child[..k], parent)
      decreases |current|
    {
      current := current[..|current| - 1];
      assert current == child[..|current|];
      if disk(current).Some? && Same(disk, current, parent) {
        return true;
      }
      assert current != parent;
    }
    return false;
  }

  /** `ValidateSeparation` succeeds exactly for separate paths. */
  method ValidateSeparation(disk: Disk, state: Path, work: Path) returns (ok: bool)
    ensures ok <==> Separate(disk, state, work)
  {
    if Same(disk, state, work) {
      return false;
    }
    var contains := PathContains(disk, state, work);
    if contains {
      return false;
    }
    contains := PathContains(disk, work, state);
    ok := !contains;
  }

  /** Separate directories share no path: whatever lies below both gives the overlap
      away. */
  lemma OverlapNotSeparate(disk: Disk, a: Path, b: Path, x: Path, y: Path)
    requires a + x == b + y
    ensures !Separate(disk, a, b)
  {
    if |a| <= |b| {
      OverlapPrefix(a, x, b, y);
      assert Same(disk, b[..|a|], a);
    } else {
      OverlapPrefix(b, y, a, x);
      assert Same(disk, a[..|b|], b);
    }
  }

  lemma OverlapPrefix(a: Path, x: Path, b: Path, y: Path)
    requires a + x == b + y && |a| <= |b|
    ensures b[..|a|] == a
  {
    assert (a + x)[..|a|] == a && (b + y)[..|a|] == b[..|a|];
  }
}
