/**
 * Absolute paths as sequences of segments from the root, so that `join`,
 * `dirname` and `basename` of Node's `path` module are exact operations.
 * The root directory is the empty sequence.
 */
module Paths {

  type Path = seq<string>

  /** `path.dirname(p)`: the parent directory; the root is its own parent. */
  function Dirname(p: Path): (r: Path)
    ensures p != [] ==> p == r + [Basename(p)]
    ensures p == [] ==> r == []
  {
    if p == [] then [] else p[..|p| - 1]
  }

  /** `path.basename(p)`: the last segment; "" for the root. */
  function Basename(p: Path): string {
    if p == [] then "" else p[|p| - 1]
  }

  /** `path.join(p, name)` for a name that is one plain segment. */
  function Join(p: Path, name: string): Path {
    p + [name]
  }

  /** `q` lies at or below `root`. */
  predicate Within(root: Path, q: Path) {
    |root| <= |q| && q[..|root|] == root
  }

  /** POSIX rendering of a path, as printed in messages and passed on command lines. */
  function PathString(p: Path): string {
    if p == [] then "/" else if |p| == 1 then "/" + p[0] else PathString(p[..|p| - 1]) + "/" + p[|p| - 1]
  }
}
