/**
 * The host filesystem as `executeCode` sees it, and the job directory it
 * stages each submission in (backend/execute.js:5, 12-19, 62, 76).
 *
 * Each host call either succeeds or throws; whether it throws, and with which
 * message, is given by the caller as a fault (`Some(message)`), since disk
 * exhaustion and permission errors are outside the program.
 */
module Workspace {
  import opened Wrappers
  import opened Paths

  datatype Entry = Directory | File(contents: string)

  /** The entries of `m` that lie outside `dir`: what a recursive removal of `dir` leaves. */
  function Outside(p: Platform, m: map<string, Entry>, dir: string): (r: map<string, Entry>)
    ensures forall path :: path in r <==> path in m && !Within(p, path, dir)
    ensures forall path :: path in r ==> r[path] == m[path]
  {
    map path | path in m && !Within(p, path, dir) :: m[path]
  }

  /** The proper ancestors of `path`: every non-empty prefix that ends just before a separator. */
  function Ancestors(p: Platform, path: string): set<string> {
    set k | 0 < k < |path| && path[k] == Sep(p) :: path[..k]
  }

  /** `a` is an ancestor of `path` exactly when it is a non-empty proper prefix followed by a separator. */
  lemma AncestorIsSeparatedPrefix(p: Platform, path: string, a: string)
    ensures a in Ancestors(p, path) <==> 0 < |a| < |path| && path[..|a|] == a && path[|a|] == Sep(p)
  {
    if 0 < |a| < |path| && path[..|a|] == a && path[|a|] == Sep(p) {
      assert path[..|a|] in Ancestors(p, path);
    }
  }

  /**
   * What a recursive mkdir of `path` leaves: `path` and each missing ancestor
   * become directories; every existing entry stays as it was.
   */
  function MadeDirectory(p: Platform, m: map<string, Entry>, path: string): (r: map<string, Entry>)
    ensures forall q :: q in r <==> q in m || q == path || q in Ancestors(p, path)
    ensures forall q :: q in m ==> r[q] == m[q]
    ensures forall q :: q in r && q !in m ==> r[q] == Directory
  {
    map q | q in m.Keys + Ancestors(p, path) + {path} :: if q in m then m[q] else Directory
  }

  /** A recursive mkdir changes nothing outside `path` but the ancestors it had to create. */
  lemma MadeDirectoryOutside(p: Platform, m: map<string, Entry>, path: string)
    ensures forall q :: q in Outside(p, m, path) ==> q in Outside(p, MadeDirectory(p, m, path), path)
    ensures forall q :: q in Outside(p, MadeDirectory(p, m, path), path) ==>
      if q in m then Outside(p, MadeDirectory(p, m, path), path)[q] == m[q]
      else q in Ancestors(p, path) && Outside(p, MadeDirectory(p, m, path), path)[q] == Directory
  {
  }

  /** With every ancestor already present, a recursive mkdir changes nothing outside `path`. */
  lemma MadeDirectoryWithParents(p: Platform, m: map<string, Entry>, path: string)
    requires forall a :: a in Ancestors(p, path) ==> a in m
    ensures Outside(p, MadeDirectory(p, m, path), path) == Outside(p, m, path)
  {
    forall q | q in Ancestors(p, path)
      ensures !Within(p, q, path)
    {
      AncestorIsSeparatedPrefix(p, path, q);
    }
  }

  class FileSystem {
    const platform: Platform
    var entries: map<string, Entry>

    constructor (platform: Platform, entries: map<string, Entry>)
      ensures this.platform == platform && this.entries == entries
    {
      this.platform := platform;
      this.entries := entries;
    }

    /** `fs.promises.mkdir(path, { recursive: true })`: missing ancestors are created, an existing directory is kept. */
    method MakeDirectory(path: string, fault: Option<string>) returns (err: Option<string>)
      modifies this
      ensures err == fault
      ensures entries == if fault.None? then MadeDirectory(platform, old(entries), path) else old(entries)
    {
      err := fault;
      if fault.None? {
        entries := MadeDirectory(platform, entries, path);
      }
    }

    /** `fs.promises.writeFile(path, data)`: creates or replaces the file. */
    method WriteFile(path: string, data: string, fault: Option<string>) returns (err: Option<string>)
      modifies this
      ensures err == fault
      ensures entries == if fault.None? then old(entries)[path := File(data)] else old(entries)
    {
      err := fault;
      if fault.None? {
        entries := entries[path := File(data)];
      }
    }

    /** `fs.promises.rm(path, { recursive: true, force: true })`: removes the tree; a missing path is no error. */
    method RemoveTree(path: string, fault: Option<string>) returns (err: Option<string>)
      modifies this
      ensures err == fault
      ensures entries == if fault.None? then Outside(platform, old(entries), path) else old(entries)
    {
      err := fault;
      if fault.None? {
        entries := Outside(platform, entries, path);
      }
    }
  }

  function DigitChar(d: nat): (c: char)
    requires d < 10
    ensures '0' <= c <= '9' && c as int - '0' as int == d
  {
    ['0', '1', '2', '3', '4', '5', '6', '7', '8', '9'][d]
  }

  /** The decimal rendering of a non-negative integer, as a template literal prints `Date.now()`. */
  function Decimal(n: nat): (r: string)
    ensures 1 <= |r| && forall i :: 0 <= i < |r| ==> '0' <= r[i] <= '9'
    ensures n < 10 <==> |r| == 1
  {
    if n < 10 then [DigitChar(n)] else Decimal(n / 10) + [DigitChar(n % 10)]
  }

  /** Distinct timestamps are rendered differently. */
  lemma {:induction false} DecimalInjective(a: nat, b: nat)
    requires Decimal(a) == Decimal(b)
    ensures a == b
  {
    var r := Decimal(a);
    if a >= 10 && b >= 10 {
      assert r[..|r| - 1] == Decimal(a / 10) && r[..|r| - 1] == Decimal(b / 10);
      DecimalInjective(a / 10, b / 10);
      assert DigitChar(a % 10) == r[|r| - 1] == DigitChar(b % 10);
    }
  }

  /** `job-${Date.now()}`: the job id is the bare millisecond timestamp, a single path component. */
  function JobId(now: nat): (id: string)
    ensures |id| > 4 && id[..4] == "job-" && id[4..] == Decimal(now)
    ensures Slash !in id && Backslash !in id
  {
    "job-" + Decimal(now)
  }

  /** `path.join(OUTPUT_DIR, jobId)`: a directory directly below the output directory. */
  function JobDir(p: Platform, outputDir: string, now: nat): (dir: string)
    ensures Within(p, dir, outputDir) && dir != outputDir
    ensures dir[|outputDir| + 1..] == JobId(now)
  {
    JoinIsWithin(p, outputDir, JobId(now));
    Join(p, outputDir, JobId(now))
  }

  /**
   * Jobs started in different milliseconds get different directories; jobs
   * started in the same millisecond get the same one, since nothing else
   * enters the name.
   */
  lemma JobDirsDifferExactlyByTimestamp(p: Platform, outputDir: string, t1: nat, t2: nat)
    ensures JobDir(p, outputDir, t1) == JobDir(p, outputDir, t2) <==> t1 == t2
  {
    if JobDir(p, outputDir, t1) == JobDir(p, outputDir, t2) {
      var n := |outputDir| + 1 + |"job-"|;
      assert JobDir(p, outputDir, t1)[n..] == Decimal(t1);
      assert JobDir(p, outputDir, t2)[n..] == Decimal(t2);
      DecimalInjective(t1, t2);
    }
  }
}
