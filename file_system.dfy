/** The parts of the host file system the core touches, as a value: regular
    files with their contents and the set of existing directories, with the
    PHP calls `file_exists`, `is_readable` + `file_get_contents`, recursive
    `mkdir`, `file_put_contents` and `unlink` as functions on it. The `Disk`
    object is the one mutable file system every operation reads and writes. */
module FileSystem {
  import opened Common

  /** `DIRECTORY_SEPARATOR` on the POSIX hosts the model assumes. */
  const SEP: char := '/'

  /** What `sys_get_temp_dir()` returns; the model fixes it to a constant. */
  const TEMP_DIR: string := "/tmp"

  datatype Fs = Fs(files: map<string, string>, dirs: set<string>)

  /** No path names both a regular file and a directory. */
  predicate Valid(fs: Fs) {
    fs.files.Keys !! fs.dirs
  }

  /** `dir . DIRECTORY_SEPARATOR . name`. */
  function JoinPath(dir: string, name: string): string {
    dir + [SEP] + name
  }

  /** `file_exists`: true for regular files and for directories. */
  predicate FileExists(fs: Fs, path: string) {
    path in fs.files || path in fs.dirs
  }

  /** `is_readable` followed by `file_get_contents`; `None` for a missing file. */
  function ReadFile(fs: Fs, path: string): Option<string> {
    if path in fs.files then Some(fs.files[path]) else None
  }

  /** The directories `mkdir(path, 0777, true)` creates: every non-empty
      prefix of `path` that ends just before a separator, and `path` itself. */
  function Ancestors(path: string): set<string> {
    set i | 0 < i <= |path| && (i == |path| || path[i] == SEP) :: path[..i]
  }

  /** Recursive `mkdir`: fails, changing nothing, when a regular file stands
      where one of the directories should be. */
  function MakeDirs(fs: Fs, path: string): Fs {
    if Ancestors(path) * fs.files.Keys != {} then fs
    else fs.(dirs := fs.dirs + Ancestors(path))
  }

  /** The index of the last `c` in `s`. */
  function LastIndex(s: string, c: char): (r: Option<nat>)
    ensures r.None? <==> c !in s
    ensures r.Some? ==> r.value < |s| && s[r.value] == c && c !in s[r.value + 1..]
  {
    if s == [] then None
    else if s[|s| - 1] == c then Some(|s| - 1)
    else LastIndex(s[..|s| - 1], c)
  }

  /** The directory that would hold `path` exists (the working directory and
      the root always do). */
  predicate ParentIsDir(fs: Fs, path: string) {
    match LastIndex(path, SEP)
    case None => true
    case Some(i) => i == 0 || path[..i] in fs.dirs
  }

  /** `file_put_contents`: the number of bytes written, or `false` (here
      `None`) when `path` is a directory or its parent does not exist. */
  function PutContents(fs: Fs, path: string, content: string): (Fs, Option<nat>) {
    if path !in fs.dirs && ParentIsDir(fs, path)
    then (fs.(files := fs.files[path := content]), Some(|content|))
    else (fs, None)
  }

  /** `unlink`: removes a regular file; fails on anything else. */
  function Unlink(fs: Fs, path: string): (Fs, bool) {
    if path in fs.files then (fs.(files := fs.files - {path}), true) else (fs, false)
  }

  /** The host file system, which the cache operations read and change. */
  class Disk {
    var fs: Fs

    constructor(fs: Fs)
      ensures this.fs == fs
    {
      this.fs := fs;
    }
  }

  /** The separator that `JoinPath` adds is the last one when the name holds none. */
  lemma JoinPathLastSeparator(dir: string, name: string)
    requires SEP !in name
    ensures LastIndex(JoinPath(dir, name), SEP) == Some(|dir|)
  {
    var p := JoinPath(dir, name);
    assert p[|dir|] == SEP;
    assert p[|dir| + 1..] == name;
  }

  /** A file `dir/name` can be written exactly when `dir` exists (or is the root). */
  lemma ParentOfJoin(fs: Fs, dir: string, name: string)
    requires SEP !in name
    ensures ParentIsDir(fs, JoinPath(dir, name)) <==> (dir == "" || dir in fs.dirs)
  {
    JoinPathLastSeparator(dir, name);
    assert JoinPath(dir, name)[..|dir|] == dir;
  }

  /** Two names joined to different directories never give the same path
      when neither name holds a separator. */
  lemma JoinPathInjective(d1: string, n1: string, d2: string, n2: string)
    requires SEP !in n1 && SEP !in n2
    requires JoinPath(d1, n1) == JoinPath(d2, n2)
    ensures d1 == d2 && n1 == n2
  {
    JoinPathLastSeparator(d1, n1);
    JoinPathLastSeparator(d2, n2);
    var p := JoinPath(d1, n1);
    assert p[..|d1|] == d1;
    assert JoinPath(d2, n2)[..|d2|] == d2;
    assert p[|d1| + 1..] == n1;
    assert JoinPath(d2, n2)[|d2| + 1..] == n2;
  }

  lemma AncestorsHoldPath(path: string)
    requires path != ""
    ensures path in Ancestors(path)
  {
    assert path[..|path|] == path;
  }

  /** A successful write can be read back, reports its length and touches no
      other file and no directory. */
  lemma ReadAfterPut(fs: Fs, path: string, content: string, other: string)
    requires PutContents(fs, path, content).1.Some?
    ensures var r := PutContents(fs, path, content);
            && ReadFile(r.0, path) == Some(content) && r.1 == Some(|content|)
            && (other != path ==> ReadFile(r.0, other) == ReadFile(fs, other))
            && r.0.dirs == fs.dirs
  {
  }

  /** Every operation that changes the file system keeps files and
      directories apart. */
  lemma OperationsKeepValid(fs: Fs, path: string, content: string)
    requires Valid(fs)
    ensures Valid(MakeDirs(fs, path))
    ensures Valid(PutContents(fs, path, content).0)
    ensures Valid(Unlink(fs, path).0)
  {
    var a := Ancestors(path);
    if a * fs.files.Keys == {} {
      forall x | x in fs.files.Keys
        ensures x !in fs.dirs + a
      {
        assert x in a ==> x in a * fs.files.Keys;
      }
    }
  }
}

/** The class constants of the facade that every component reads. */
module Dataset {
  /** Current version of the package; part of every versioned cache path. */
  const VERSION: string := "1.1.0"

  const DATASET_TYPE_DEFAULT: int := 1
  const DATASET_TYPE_SMALL: int := 2
  const DATASET_TYPE_LARGE: int := 3

  predicate IsDataSetType(t: int) {
    t == DATASET_TYPE_DEFAULT || t == DATASET_TYPE_SMALL || t == DATASET_TYPE_LARGE
  }
}
