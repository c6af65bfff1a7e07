/** The file cache: a key/value store whose keys are file names under a cache
    directory. The versioned directory adds a sub directory per data set type,
    parser data version and package version, so every such combination is a
    namespace of its own. */
module FileCache {
  import opened Common
  import opened PhpStrings
  import opened FileSystem
  import opened Dataset

  /** The sub directory of a data set type: one per type, the default type
      and every unknown value sharing "browscap". */
  function SubDirName(dataSetType: int): string {
    if dataSetType == DATASET_TYPE_SMALL then "smallbrowscap"
    else if dataSetType == DATASET_TYPE_LARGE then "largebrowscap"
    else "browscap"
  }

  /** The main cache directory used while none has been set. */
  function DefaultCacheDir(): string {
    RTrimChar(TEMP_DIR + [SEP] + "browscap", SEP)
  }

  /** The main cache directory a (possibly unset) `$cacheDir` stands for. */
  function BaseDir(setting: Option<string>): string {
    setting.GetOr(DefaultCacheDir())
  }

  /** The main directory, or with `withVersion` the versioned directory
      `base/<subDir>_v<parserVersion>_<VERSION>`. */
  function CacheDirectory(base: string, withVersion: bool, dataSetType: int, parserVersion: int): string {
    if withVersion then JoinPath(base, VersionedName(dataSetType, parserVersion)) else base
  }

  /** `<subDir>_v<parserVersion>_<VERSION>`. */
  function VersionedName(dataSetType: int, parserVersion: int): string {
    SubDirName(dataSetType) + VersionSuffix(parserVersion)
  }

  function VersionSuffix(parserVersion: int): string {
    "_v" + (IntToString(parserVersion) + VersionTail())
  }

  function VersionTail(): string {
    "_" + VERSION
  }

  /** The file that holds the entry `key`. */
  function CacheFileName(base: string, withVersion: bool, dataSetType: int, parserVersion: int, key: string): string {
    JoinPath(CacheDirectory(base, withVersion, dataSetType, parserVersion), key)
  }

  /** The `createDir` step: a missing directory is created with its parents. */
  function EnsureDir(fs: Fs, dir: string): Fs {
    if FileExists(fs, dir) then fs else MakeDirs(fs, dir)
  }

  /** `delete`: a missing file counts as deleted; an existing one is unlinked. */
  function DeleteFile(fs: Fs, path: string): (Fs, bool) {
    if FileExists(fs, path) then Unlink(fs, path) else (fs, true)
  }

  /** The static properties of the file cache class (its one static, the main
      cache directory, shared by every cache object). */
  class FileStatics {
    var cacheDir: Option<string>

    constructor()
      ensures cacheDir == None
    {
      cacheDir := None;
    }

    /** Sets the main cache directory, without its trailing separators. */
    method SetCacheDirectory(dir: string)
      modifies this
      ensures cacheDir == Some(RTrimChar(dir, SEP))
    {
      cacheDir := Some(RTrimChar(dir, SEP));
    }

    /** The main or versioned directory; an unset main directory is first
        set to the default one, and with `createDir` a missing directory is
        created. */
    method GetCacheDirectory(withVersion: bool, createDir: bool, dataSetType: int, parserVersion: int, disk: Disk)
      returns (path: string)
      modifies this, if createDir then {disk} else {}
      ensures cacheDir == Some(BaseDir(old(cacheDir)))
      ensures path == CacheDirectory(BaseDir(old(cacheDir)), withVersion, dataSetType, parserVersion)
      ensures disk.fs == if createDir then EnsureDir(old(disk.fs), path) else old(disk.fs)
    {
      var subDirName := SubDirName(dataSetType);
      if cacheDir.None? {
        SetCacheDirectory(TEMP_DIR + [SEP] + "browscap");
      }
      path := cacheDir.value;
      if withVersion {
        ghost var base := path;
        path := path + [SEP] + subDirName;
        path := path + "_v" + IntToString(parserVersion);
        path := path + "_" + VERSION;
        VersionedPath(base, dataSetType, parserVersion);
      }
      if createDir && !FileExists(disk.fs, path) {
        disk.fs := MakeDirs(disk.fs, path);
      }
    }
  }

  /** A file cache object. All its state is the shared static directory. */
  class File {
    const statics: FileStatics

    constructor(statics: FileStatics)
      ensures this.statics == statics
    {
      this.statics := statics;
    }

    /** The file name of `key`: the selected directory, a separator, the key. */
    method GetFileName(key: string, withVersion: bool, createDir: bool, dataSetType: int, parserVersion: int, disk: Disk)
      returns (file: string)
      modifies statics, if createDir then {disk} else {}
      ensures statics.cacheDir == Some(BaseDir(old(statics.cacheDir)))
      ensures file == CacheFileName(BaseDir(old(statics.cacheDir)), withVersion, dataSetType, parserVersion, key)
      ensures disk.fs == if createDir
                         then EnsureDir(old(disk.fs), CacheDirectory(BaseDir(old(statics.cacheDir)), withVersion, dataSetType, parserVersion))
                         else old(disk.fs)
    {
      file := statics.GetCacheDirectory(withVersion, createDir, dataSetType, parserVersion, disk);
      file := file + [SEP] + key;
    }

    /** The cached contents of `key`, or `null` when its file is not readable. */
    method Get(key: string, withVersion: bool, dataSetType: int, parserVersion: int, disk: Disk)
      returns (r: Option<string>)
      modifies statics
      ensures statics.cacheDir == Some(BaseDir(old(statics.cacheDir)))
      ensures r == ReadFile(disk.fs, CacheFileName(BaseDir(old(statics.cacheDir)), withVersion, dataSetType, parserVersion, key))
    {
      var file := GetFileName(key, withVersion, false, dataSetType, parserVersion, disk);
      if file in disk.fs.files {
        r := Some(disk.fs.files[file]);
      } else {
        r := None;
      }
    }

    /** Stores `content` under `key`, creating the directory first; the number
        of bytes written, or `false` (here `None`). */
    method Set(key: string, content: string, withVersion: bool, dataSetType: int, parserVersion: int, disk: Disk)
      returns (r: Option<nat>)
      modifies statics, disk
      ensures statics.cacheDir == Some(BaseDir(old(statics.cacheDir)))
      ensures var base := BaseDir(old(statics.cacheDir));
              var fs1 := EnsureDir(old(disk.fs), CacheDirectory(base, withVersion, dataSetType, parserVersion));
              (disk.fs, r) == PutContents(fs1, CacheFileName(base, withVersion, dataSetType, parserVersion, key), content)
    {
      var file := GetFileName(key, withVersion, true, dataSetType, parserVersion, disk);
      var written := PutContents(disk.fs, file, content);
      disk.fs := written.0;
      r := written.1;
    }

    /** Removes the entry `key`; true when it is gone or was never there. */
    method Delete(key: string, withVersion: bool, dataSetType: int, parserVersion: int, disk: Disk)
      returns (ok: bool)
      modifies statics, disk
      ensures statics.cacheDir == Some(BaseDir(old(statics.cacheDir)))
      ensures (disk.fs, ok) == DeleteFile(old(disk.fs), CacheFileName(BaseDir(old(statics.cacheDir)), withVersion, dataSetType, parserVersion, key))
    {
      var file := GetFileName(key, withVersion, false, dataSetType, parserVersion, disk);
      if FileExists(disk.fs, file) {
        var unlinked := Unlink(disk.fs, file);
        disk.fs := unlinked.0;
        ok := unlinked.1;
      } else {
        ok := true;
      }
    }

    /** Whether something exists at the file name of `key`. */
    method Exists(key: string, withVersion: bool, dataSetType: int, parserVersion: int, disk: Disk)
      returns (b: bool)
      modifies statics
      ensures statics.cacheDir == Some(BaseDir(old(statics.cacheDir)))
      ensures b == FileExists(disk.fs, CacheFileName(BaseDir(old(statics.cacheDir)), withVersion, dataSetType, parserVersion, key))
    {
      var file := GetFileName(key, withVersion, false, dataSetType, parserVersion, disk);
      b := FileExists(disk.fs, file);
    }
  }

  // ---------------------------------------------------------------- properties

  /** The versioned directory, as `getCacheDirectory` appends it piece by piece. */
  lemma VersionedPath(base: string, t: int, pv: int)
    ensures base + [SEP] + SubDirName(t) + "_v" + IntToString(pv) + "_" + VERSION
            == CacheDirectory(base, true, t, pv)
  {
    var v := IntToString(pv);
    calc {
      base + [SEP] + SubDirName(t) + "_v" + v + "_" + VERSION;
      base + [SEP] + (SubDirName(t) + ("_v" + (v + ("_" + VERSION))));
      JoinPath(base, VersionedName(t, pv));
    }
  }

  /** The default main directory is the temporary directory's "browscap". */
  lemma DefaultCacheDirValue()
    ensures DefaultCacheDir() == "/tmp/browscap"
  {
    assert TEMP_DIR + [SEP] + "browscap" == "/tmp/browscap";
  }

  /** The main directory in use, the default one or one stored by
      `SetCacheDirectory(dir)`, never ends with a separator; a stored one is
      `dir` with only separators cut from its end. */
  lemma StoredDirHasNoTrailingSeparator(dir: string, setting: Option<string>)
    requires setting == None || setting == Some(RTrimChar(dir, SEP))
    ensures var b := BaseDir(setting); b == [] || b[|b| - 1] != SEP
    ensures setting.Some? ==>
              var b := BaseDir(setting);
              && |b| <= |dir| && b == dir[..|b|]
              && forall i :: |b| <= i < |dir| ==> dir[i] == SEP
  {
    RTrimCharShape(dir, SEP);
    DefaultCacheDirValue();
  }

  /** The sub directory names are told apart by their first letter. */
  lemma SubDirNameFirstChar(t1: int, t2: int)
    requires SubDirName(t1)[0] == SubDirName(t2)[0]
    ensures SubDirName(t1) == SubDirName(t2)
  {
  }

  /** The three data set types have three different sub directories. */
  lemma SubDirNamesDistinct(t1: int, t2: int)
    requires IsDataSetType(t1) && IsDataSetType(t2) && t1 != t2
    ensures SubDirName(t1) != SubDirName(t2)
  {
  }

  /** Two strings that share a prefix agree after it. */
  lemma CancelPrefix(p: string, x: string, y: string)
    requires p + x == p + y
    ensures x == y
  {
    assert x == (p + x)[|p|..];
    assert y == (p + y)[|p|..];
  }

  /** Two strings that share a suffix agree before it. */
  lemma CancelSuffix(x: string, y: string, q: string)
    requires x + q == y + q
    ensures x == y
  {
    assert x == (x + q)[..|x|];
    assert y == (y + q)[..|y|];
  }

  /** Versioned directory names coincide only for the same sub directory and
      the same parser data version. */
  lemma VersionedNameInjective(t1: int, v1: int, t2: int, v2: int)
    requires VersionedName(t1, v1) == VersionedName(t2, v2)
    ensures SubDirName(t1) == SubDirName(t2) && v1 == v2
  {
    var n1 := VersionedName(t1, v1);
    assert n1[0] == SubDirName(t1)[0];
    assert VersionedName(t2, v2)[0] == SubDirName(t2)[0];
    SubDirNameFirstChar(t1, t2);
    CancelPrefix(SubDirName(t1), VersionSuffix(v1), VersionSuffix(v2));
    CancelPrefix("_v", IntToString(v1) + VersionTail(), IntToString(v2) + VersionTail());
    CancelSuffix(IntToString(v1), IntToString(v2), VersionTail());
    IntToStringInjective(v1, v2);
  }

  /** Versioned directories with the same main directory coincide only for the
      same sub directory and the same parser data version. */
  lemma VersionedDirInjective(base: string, t1: int, v1: int, t2: int, v2: int)
    requires CacheDirectory(base, true, t1, v1) == CacheDirectory(base, true, t2, v2)
    ensures SubDirName(t1) == SubDirName(t2) && v1 == v2
  {
    CancelPrefix(base + [SEP], VersionedName(t1, v1), VersionedName(t2, v2));
    VersionedNameInjective(t1, v1, t2, v2);
  }

  /** Namespace isolation: entries of different data set types or parser data
      versions live in different files, whatever their keys. */
  lemma NamespacesNeverCollide(base: string, t1: int, v1: int, k1: string, t2: int, v2: int, k2: string)
    requires SEP !in k1 && SEP !in k2
    requires SubDirName(t1) != SubDirName(t2) || v1 != v2
    ensures CacheFileName(base, true, t1, v1, k1) != CacheFileName(base, true, t2, v2, k2)
  {
    if CacheFileName(base, true, t1, v1, k1) == CacheFileName(base, true, t2, v2, k2) {
      JoinPathInjective(CacheDirectory(base, true, t1, v1), k1, CacheDirectory(base, true, t2, v2), k2);
      VersionedDirInjective(base, t1, v1, t2, v2);
    }
  }

  /** A set followed by a get of the same key returns what was stored; a
      fresh namespace is created by the set, so the write succeeds when the key
      names a plain file and no regular file blocks the directory. */
  lemma GetAfterSet(fs: Fs, base: string, withVersion: bool, t: int, v: int, key: string, content: string)
    requires SEP !in key
    requires CacheDirectory(base, withVersion, t, v) != ""
    requires Ancestors(CacheDirectory(base, withVersion, t, v)) * fs.files.Keys == {}
    requires CacheFileName(base, withVersion, t, v, key) !in fs.dirs
    ensures var dir := CacheDirectory(base, withVersion, t, v);
            var path := CacheFileName(base, withVersion, t, v, key);
            var r := PutContents(EnsureDir(fs, dir), path, content);
            && r.1 == Some(|content|)
            && ReadFile(r.0, path) == Some(content)
  {
    var dir := CacheDirectory(base, withVersion, t, v);
    var path := CacheFileName(base, withVersion, t, v, key);
    var fs1 := EnsureDir(fs, dir);
    AncestorsHoldPath(dir);
    assert dir !in fs.files by {
      assert dir in fs.files ==> dir in Ancestors(dir) * fs.files.Keys;
    }
    assert dir in fs1.dirs;
    ParentOfJoin(fs1, dir, key);
    assert path !in Ancestors(dir) by {
      assert |path| > |dir|;
    }
  }

  /** Writing one entry changes no other cache file, in this namespace or any other. */
  lemma SetLeavesOtherFiles(fs: Fs, dir: string, path: string, content: string, other: string)
    requires other != path
    ensures ReadFile(PutContents(EnsureDir(fs, dir), path, content).0, other) == ReadFile(fs, other)
  {
  }

  /** After a delete that reports success nothing exists at the file name;
      a missing entry is reported deleted; other files and the directories
      are unchanged. */
  lemma DeleteSemantics(fs: Fs, path: string, other: string)
    requires Valid(fs)
    ensures var r := DeleteFile(fs, path);
            && (r.1 ==> !FileExists(r.0, path))
            && (!FileExists(fs, path) ==> r.1 && r.0 == fs)
            && (path !in fs.dirs ==> r.1)
            && (other != path ==> ReadFile(r.0, other) == ReadFile(fs, other))
            && r.0.dirs == fs.dirs
  {
  }
}
