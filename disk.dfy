/** An abstract file system: a finite map from paths to file contents, with
    the few operations the generator uses (write a whole file, test for a
    file, delete a file, pick a fresh name for a temporary file). */
module Disk {
  import opened Fields

  type FileMap = map<Path, seq<byte>>

  /** `after` keeps every file of `before`, with the same contents. */
  predicate Extends(before: FileMap, after: FileMap) {
    forall p :: p in before ==> p in after && after[p] == before[p]
  }

  /** The i-th name the temporary-file oracle tries. The names differ in
      length, so no two are equal. */
  function Candidate(i: nat): (p: Path)
    ensures |p| == i + 4
  {
    seq(i, _ => 't') + ".png"
  }

  /** The first n names the oracle tries. */
  function Candidates(n: nat): (c: set<Path>)
    ensures |c| == n
    ensures forall p :: p in c ==> |p| < n + 4
  {
    if n == 0 then {} else Candidates(n - 1) + {Candidate(n - 1)}
  }

  lemma SubsetSize(a: set<Path>, b: set<Path>)
    requires a <= b
    ensures |a| <= |b|
  {
    assert b == a + (b - a);
  }

  /** The first candidate name not in `used`, looking from the i-th on. */
  function FirstUnused(used: set<Path>, i: nat): (p: Path)
    requires Candidates(i) <= used
    ensures p !in used
    decreases |used| - i
  {
    SubsetSize(Candidates(i), used);
    if Candidate(i) !in used then Candidate(i)
    else
      SubsetSize(Candidates(i + 1), used);
      FirstUnused(used, i + 1)
  }

  /** The name of a new temporary file: one that no existing file has.
      This stands for a random name in the temporary directory; nothing
      about the model depends on which unused name is chosen. */
  function FreshPath(files: FileMap): (p: Path)
    ensures p !in files
  {
    FirstUnused(files.Keys, 0)
  }

  /** The machine's file system, changed in place by the generator. */
  class FileSystem {
    var files: FileMap

    constructor (initial: FileMap)
      ensures files == initial
    {
      files := initial;
    }

    /** `File.Exists` */
    predicate Exists(path: Path)
      reads this
    {
      path in files
    }

    /** `File.WriteAllBytes`: creates the file, or replaces its contents. */
    method WriteAllBytes(path: Path, bytes: seq<byte>)
      modifies this
      ensures files == old(files)[path := bytes]
    {
      files := files[path := bytes];
    }

    /** `File.Delete` */
    method Delete(path: Path)
      modifies this
      ensures files == old(files) - {path}
    {
      files := files - {path};
    }

    /** A path in the temporary directory with a random name and a `.png`
        extension, modelled as a name that no existing file has. */
    method TempFilePath() returns (path: Path)
      ensures path == FreshPath(files)
      ensures path !in files
    {
      path := FreshPath(files);
    }
  }
}
