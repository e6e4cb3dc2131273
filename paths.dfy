/**
 * Host paths as `executeCode` builds them: `path.join` of a directory and a
 * file name, the job directory under the output directory, and the rewrite
 * of the job directory into the form Docker's `-v` flag is given
 * (backend/execute.js:5, 12-13, 18, 24).
 */
module Paths {
  /** The host platform decides the separator `path.join` inserts. */
  datatype Platform = Posix | Windows

  const Backslash: char := '\\'
  const Slash: char := '/'

  function Sep(p: Platform): char {
    match p
    case Posix => Slash
    case Windows => Backslash
  }

  /** `path.join(dir, name)` for a normalised `dir` and a plain file name. */
  function Join(p: Platform, dir: string, name: string): (r: string)
    ensures |r| == |dir| + 1 + |name|
    ensures r[..|dir|] == dir && r[|dir|] == Sep(p) && r[|dir| + 1..] == name
  {
    dir + [Sep(p)] + name
  }

  /** `path` is `dir` itself or lies below it. */
  predicate Within(p: Platform, path: string, dir: string) {
    path == dir || dir + [Sep(p)] <= path
  }

  lemma JoinIsWithin(p: Platform, dir: string, name: string)
    ensures Within(p, Join(p, dir, name), dir)
  {
    assert (dir + [Sep(p)] + name)[..|dir| + 1] == dir + [Sep(p)];
  }

  /** `jobDir.replace(/\\/g, "/")`: every backslash becomes a forward slash. */
  function ToForwardSlashes(path: string): (r: string)
    ensures |r| == |path|
    ensures forall i :: 0 <= i < |path| ==> r[i] == (if path[i] == Backslash then Slash else path[i])
    ensures Backslash !in r
  {
    if path == [] then []
    else [if path[0] == Backslash then Slash else path[0]] + ToForwardSlashes(path[1..])
  }

  /** Rewriting twice is rewriting once. */
  lemma ToForwardSlashesIdempotent(path: string)
    ensures ToForwardSlashes(ToForwardSlashes(path)) == ToForwardSlashes(path)
  {
    var once := ToForwardSlashes(path);
    var twice := ToForwardSlashes(once);
    assert forall i :: 0 <= i < |twice| ==> twice[i] == once[i];
  }

  /** A path without backslashes, every path on a POSIX host here, is left as it is. */
  lemma ToForwardSlashesKeepsPlainPath(path: string)
    requires Backslash !in path
    ensures ToForwardSlashes(path) == path
  {
    var r := ToForwardSlashes(path);
    assert forall i :: 0 <= i < |path| ==> r[i] == path[i];
  }

  /** Different file names in one directory are different paths. */
  lemma JoinDistinctNames(p: Platform, dir: string, a: string, b: string)
    requires a != b
    ensures Join(p, dir, a) != Join(p, dir, b)
  {
    assert Join(p, dir, a)[|dir| + 1..] == a;
    assert Join(p, dir, b)[|dir| + 1..] == b;
  }
}
