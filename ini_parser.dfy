/** The INI parser's pattern scan. The patterns of the source data are
    spread over cache files, one per start hash ("bucket"). Each line of such
    a file is `<start hash> <length> <pattern>`: the hash (32 characters, then a
    space), the length of the pattern without wildcards written at offset 33,
    and the pattern. The lines of one hash stand together. For a user agent the
    scan visits the buckets of its start hashes and then the fall-back bucket
    of the default browser, and produces the patterns that may match, then
    `false`. */
module IniParser {
  import opened Common
  import opened PhpStrings
  import opened FileSystem
  import opened FileCache
  import opened Parsers

  /** The start hash of the fall-back bucket: 32 times 'z'. */
  const SENTINEL: string := "zzzzzzzzzzzzzzzzzzzzzzzzzzzzzzzz"

  /** What the scan produces: a candidate pattern, the final `false`, or the
      `TypeError` that ends it when a matching line has fewer than two spaces
      (the missing third field is `null`, which `trim` refuses under strict
      types). */
  datatype Emit = Pattern(pattern: string) | Done | Malformed

  /** The length written in a line: the 4 characters at offset 33, cut at their
      first space and cast to int; 0 when they hold no space. */
  function StoredLength(line: string): int {
    match BeforeFirst(Substr(line, 33, 4), ' ')
    case None => 0
    case Some(t) => IntCast(t)
  }

  /** How one line of a bucket file is treated. */
  datatype LineKind = Unrelated | TooLong | Accepted(pattern: string) | Broken

  function Classify(line: string, start: string, uaLength: nat): LineKind {
    if !StartsWith(line, start) then Unrelated
    else if StoredLength(line) > uaLength then TooLong
    else match ThirdField(line)
      case None => Broken
      case Some(p) => Accepted(Trim(p))
  }

  /** The treatment of each line of a bucket file. */
  function Kinds(lines: seq<string>, start: string, uaLength: nat): (ks: seq<LineKind>)
    ensures |ks| == |lines| && forall i :: 0 <= i < |lines| ==> ks[i] == Classify(lines[i], start, uaLength)
  {
    seq(|lines|, i requires 0 <= i < |lines| => Classify(lines[i], start, uaLength))
  }

  /** The `while (fgets)` loop over the classified lines of one file; `found`
      says whether a line of the bucket has been seen already. An unrelated
      line after the run stops the loop, a broken one throws. */
  function ScanKinds(ks: seq<LineKind>, found: bool): seq<Emit> {
    if ks == [] then []
    else match ks[0]
      case Unrelated => if found then [] else ScanKinds(ks[1..], false)
      case TooLong => ScanKinds(ks[1..], true)
      case Accepted(p) => [Pattern(p)] + ScanKinds(ks[1..], true)
      case Broken => [Malformed]
  }

  /** The scan of the lines of one bucket file. */
  function ScanLines(lines: seq<string>, start: string, uaLength: nat, found: bool): seq<Emit> {
    ScanKinds(Kinds(lines, start, uaLength), found)
  }

  /** What the scan reads: the file system, the versioned cache directory, the
      cache prefix, the sub key function and the length of the user agent. */
  datatype Setup = Setup(fs: Fs, dir: string, prefix: string, subKey: string -> string, uaLength: nat)

  /** The cache file of a bucket: the entry `<prefix>.patterns.<sub key>`. */
  function BucketPath(s: Setup, start: string): string {
    JoinPath(s.dir, s.prefix + ".patterns." + s.subKey(start))
  }

  /** What one bucket contributes; an unreadable file contributes nothing. */
  function BucketEmits(s: Setup, start: string): seq<Emit> {
    match ReadFile(s.fs, BucketPath(s, start))
    case None => []
    case Some(content) => ScanLines(Lines(content), start, s.uaLength, false)
  }

  /** The scan's output from the contributions `cs` of the visited buckets,
      in order: a broken bucket ends it, otherwise the final `false` does. */
  function Walk(cs: seq<seq<Emit>>): seq<Emit> {
    if cs == [] then [Done]
    else if Malformed in cs[0] then cs[0] else cs[0] + Walk(cs[1..])
  }

  /** What `f` gives for each of the buckets `starts`. */
  function Contributions(f: string -> seq<Emit>, starts: seq<string>): (cs: seq<seq<Emit>>)
    ensures |cs| == |starts| && forall i :: 0 <= i < |starts| ==> cs[i] == f(starts[i])
  {
    seq(|starts|, i requires 0 <= i < |starts| => f(starts[i]))
  }

  function BucketChunk(s: Setup): string -> seq<Emit> {
    start => BucketEmits(s, start)
  }

  /** The contributions of the buckets `starts`. */
  function Chunks(s: Setup, starts: seq<string>): seq<seq<Emit>> {
    Contributions(BucketChunk(s), starts)
  }

  /** The buckets visited for the start hashes `starts`. */
  function Buckets(starts: seq<string>): (bs: seq<string>)
    ensures |bs| == |starts| + 1 && bs[..|starts|] == starts && bs[|starts|] == SENTINEL
  {
    starts + [SENTINEL]
  }

  /** `getPatterns($userAgent)`; `patternStart` and `subKey` stand for the
      start hash and sub key functions of the parent parser class. */
  method GetPatterns(parser: Parser, userAgent: string, dataSetType: int, parserVersion: int,
                     patternStart: string -> seq<string>, subKey: string -> string, disk: Disk)
    returns (out: seq<Emit>)
    modifies parser.statics, parser.statics.CacheFileStatics()
    ensures var base := BaseDir(old(parser.statics.CacheFileStatics().cacheDir));
            var dir := CacheDirectory(base, true, dataSetType, parserVersion);
            out == Walk(Chunks(Setup(disk.fs, dir, CachePrefix(dataSetType), subKey, |userAgent|),
                               Buckets(patternStart(userAgent))))
    ensures parser.statics.CacheFileStatics() == old(parser.statics.CacheFileStatics())
    ensures parser.statics.CacheFileStatics().cacheDir == Some(BaseDir(old(parser.statics.CacheFileStatics().cacheDir)))
    ensures parser.statics.cache.Some? && (old(parser.statics.cache).Some? ==> parser.statics.cache == old(parser.statics.cache))
    ensures parser.statics.version == old(parser.statics.version)
  {
    var starts := patternStart(userAgent);
    var length := |userAgent|;
    var prefix := CachePrefix(dataSetType);
    starts := starts + [SENTINEL];
    ghost var cacheStatics := parser.statics.CacheFileStatics();
    ghost var base := BaseDir(cacheStatics.cacheDir);
    ghost var cache0, version0 := parser.statics.cache, parser.statics.version;
    ghost var setup := Setup(disk.fs, CacheDirectory(base, true, dataSetType, parserVersion),
                             prefix, subKey, length);
    ghost var cs := Chunks(setup, starts);
    out := [];
    var i := 0;
    while i < |starts|
      invariant 0 <= i <= |starts|
      invariant parser.statics.CacheFileStatics() == cacheStatics
      invariant BaseDir(cacheStatics.cacheDir) == base
      invariant i > 0 ==> cacheStatics.cacheDir == Some(base) && parser.statics.cache.Some?
      invariant cache0.Some? ==> parser.statics.cache == cache0
      invariant parser.statics.version == version0
      invariant Malformed !in out
      invariant out + Walk(cs[i..]) == Walk(cs)
    {
      var chunk := VisitBucket(parser, starts[i], prefix, subKey, length, dataSetType, parserVersion, disk, setup);
      assert chunk == cs[i];
      WalkStep(cs, i, out, chunk);
      out := out + chunk;
      if Malformed in chunk {
        return;
      }
      i := i + 1;
    }
    WalkEnd(cs, out);
    out := out + [Done];
  }

  /** `getPatterns` can be started again: a second scan of the same cache
      yields the same candidates and leaves the same state. */
  method GetPatternsTwice(parser: Parser, userAgent: string, dataSetType: int, parserVersion: int,
                          patternStart: string -> seq<string>, subKey: string -> string, disk: Disk)
    returns (first: seq<Emit>, second: seq<Emit>)
    modifies parser.statics, parser.statics.CacheFileStatics()
    ensures first == second
  {
    first := GetPatterns(parser, userAgent, dataSetType, parserVersion, patternStart, subKey, disk);
    second := GetPatterns(parser, userAgent, dataSetType, parserVersion, patternStart, subKey, disk);
  }

  /** The body of the bucket loop: the bucket's file name, then its lines. */
  method VisitBucket(parser: Parser, start: string, prefix: string, subKey: string -> string, length: nat,
                     dataSetType: int, parserVersion: int, disk: Disk, ghost setup: Setup)
    returns (chunk: seq<Emit>)
    requires setup == Setup(disk.fs, CacheDirectory(BaseDir(parser.statics.CacheFileStatics().cacheDir), true,
                                                    dataSetType, parserVersion), prefix, subKey, length)
    modifies parser.statics, parser.statics.CacheFileStatics()
    ensures parser.statics.CacheFileStatics() == old(parser.statics.CacheFileStatics())
    ensures parser.statics.CacheFileStatics().cacheDir == Some(BaseDir(old(parser.statics.CacheFileStatics().cacheDir)))
    ensures parser.statics.cache.Some? && (old(parser.statics.cache).Some? ==> parser.statics.cache == old(parser.statics.cache))
    ensures parser.statics.version == old(parser.statics.version)
    ensures chunk == BucketEmits(setup, start)
  {
    var file := BucketFile(parser, prefix + ".patterns." + subKey(start), dataSetType, parserVersion, disk);
    chunk := ReadBucket(disk, file, start, length);
  }

  /** `static::getCache()->getFileName($key)` inside the bucket loop. */
  method BucketFile(parser: Parser, key: string, dataSetType: int, parserVersion: int, disk: Disk)
    returns (file: string)
    modifies parser.statics, parser.statics.CacheFileStatics()
    ensures parser.statics.CacheFileStatics() == old(parser.statics.CacheFileStatics())
    ensures parser.statics.CacheFileStatics().cacheDir == Some(BaseDir(old(parser.statics.CacheFileStatics().cacheDir)))
    ensures parser.statics.cache.Some? && (old(parser.statics.cache).Some? ==> parser.statics.cache == old(parser.statics.cache))
    ensures parser.statics.version == old(parser.statics.version)
    ensures file == CacheFileName(BaseDir(old(parser.statics.CacheFileStatics().cacheDir)), true, dataSetType, parserVersion, key)
    ensures disk.fs == old(disk.fs)
  {
    var cache := parser.statics.GetCache();
    file := cache.GetFileName(key, true, false, dataSetType, parserVersion, disk);
  }

  /** `is_readable` and the line loop of one bucket file: nothing for a file
      that cannot be read. */
  method ReadBucket(disk: Disk, file: string, start: string, length: nat) returns (chunk: seq<Emit>)
    ensures chunk == match ReadFile(disk.fs, file)
                     case None => []
                     case Some(content) => ScanLines(Lines(content), start, length, false)
  {
    chunk := [];
    if file in disk.fs.files {
      chunk := ScanBucketFile(Lines(disk.fs.files[file]), start, length);
    }
  }

  /** The `while (fgets)` loop over the lines of one readable bucket file. */
  method ScanBucketFile(lines: seq<string>, start: string, length: nat) returns (emits: seq<Emit>)
    ensures emits == ScanLines(lines, start, length, false)
  {
    ghost var ks := Kinds(lines, start, length);
    emits := [];
    var found := false;
    var j := 0;
    while j < |lines|
      invariant 0 <= j <= |lines|
      invariant emits + ScanKinds(ks[j..], found) == ScanKinds(ks, false)
    {
      var kind := ClassifyLine(lines[j], start, length);
      assert kind == ks[j];
      ScanKindsStep(ks, j, found);
      match kind {
        case Unrelated =>
          if found {
            return;
          }
        case TooLong =>
          found := true;
        case Accepted(p) =>
          emits := emits + [Pattern(p)];
          found := true;
        case Broken =>
          return emits + [Malformed];
      }
      j := j + 1;
    }
    assert ks[j..] == [];
  }

  /** The tests the loop makes on one line: the hash at its start, then the
      stored length, then the third field. */
  method ClassifyLine(buffer: string, start: string, length: nat) returns (kind: LineKind)
    ensures kind == Classify(buffer, start, length)
  {
    if StartsWith(buffer, start) {
      var len := StoredLength(buffer);
      if len <= length {
        var third := ThirdField(buffer);
        if third.None? {
          return Broken;
        }
        return Accepted(Trim(third.value));
      }
      return TooLong;
    }
    return Unrelated;
  }

  /** How the scan goes on from the line `j` of a bucket file. */
  lemma ScanKindsStep(ks: seq<LineKind>, j: nat, found: bool)
    requires j < |ks|
    ensures ks[j] == Unrelated ==> ScanKinds(ks[j..], found) == if found then [] else ScanKinds(ks[j + 1..], false)
    ensures ks[j] == TooLong ==> ScanKinds(ks[j..], found) == ScanKinds(ks[j + 1..], true)
    ensures ks[j].Accepted? ==> ScanKinds(ks[j..], found) == [Pattern(ks[j].pattern)] + ScanKinds(ks[j + 1..], true)
    ensures ks[j] == Broken ==> ScanKinds(ks[j..], found) == [Malformed]
  {
    assert ks[j..][0] == ks[j] && ks[j..][1..] == ks[j + 1..];
  }

  // ---------------------------------------------------------------- properties

  /** One pass of the bucket loop: the output so far, followed by the
      bucket's contribution, is the whole walk when the bucket was broken, and
      otherwise still a prefix of it. */
  lemma WalkStep(cs: seq<seq<Emit>>, i: nat, out: seq<Emit>, chunk: seq<Emit>)
    requires i < |cs| && chunk == cs[i]
    requires out + Walk(cs[i..]) == Walk(cs)
    ensures Malformed in chunk ==> out + chunk == Walk(cs)
    ensures Malformed !in chunk ==> (out + chunk) + Walk(cs[i + 1..]) == Walk(cs)
  {
    var rest := cs[i..];
    assert rest[0] == chunk && rest[1..] == cs[i + 1..];
    if Malformed !in chunk {
      var tail := Walk(cs[i + 1..]);
      assert Walk(rest) == chunk + tail;
      assert out + (chunk + tail) == (out + chunk) + tail;
    }
  }

  /** After the last bucket only the final `false` is left. */
  lemma WalkEnd(cs: seq<seq<Emit>>, out: seq<Emit>)
    requires out + Walk(cs[|cs|..]) == Walk(cs)
    ensures out + [Done] == Walk(cs)
  {
    assert cs[|cs|..] == [];
  }

  /** The patterns of all buckets, concatenated, as long as none is broken. */
  function Collected(cs: seq<seq<Emit>>): seq<Emit> {
    if cs == [] then [] else cs[0] + Collected(cs[1..])
  }

  predicate NoBroken(cs: seq<seq<Emit>>) {
    forall i :: 0 <= i < |cs| ==> Malformed !in cs[i]
  }

  lemma NoBrokenTail(cs: seq<seq<Emit>>)
    requires cs != [] && NoBroken(cs)
    ensures NoBroken(cs[1..]) && Malformed !in cs[0]
  {
    forall i | 0 <= i < |cs[1..]|
      ensures Malformed !in cs[1..][i]
    {
      assert cs[1..][i] == cs[i + 1];
    }
  }

  /** Buckets are visited in order: everything the buckets `a` give comes
      before anything from the buckets `b`. */
  lemma {:induction false} WalkAppend(a: seq<seq<Emit>>, b: seq<seq<Emit>>)
    requires NoBroken(a)
    ensures Walk(a + b) == Collected(a) + Walk(b)
  {
    if a != [] {
      assert (a + b)[0] == a[0];
      assert (a + b)[1..] == a[1..] + b;
      NoBrokenTail(a);
      WalkAppend(a[1..], b);
      calc {
        Walk(a + b);
        a[0] + Walk(a[1..] + b);
        a[0] + (Collected(a[1..]) + Walk(b));
        (a[0] + Collected(a[1..])) + Walk(b);
      }
    } else {
      assert a + b == b;
    }
  }

  lemma ContributionsAppend(f: string -> seq<Emit>, a: seq<string>, b: seq<string>)
    ensures Contributions(f, a + b) == Contributions(f, a) + Contributions(f, b)
  {
    var l := Contributions(f, a + b);
    var r := Contributions(f, a) + Contributions(f, b);
    forall i | 0 <= i < |l|
      ensures l[i] == r[i]
    {
      if i < |a| {
        assert (a + b)[i] == a[i];
      } else {
        assert (a + b)[i] == b[i - |a|];
      }
    }
  }

  /** The fall-back bucket is visited last, after all start hashes. */
  lemma SentinelLast(s: Setup, starts: seq<string>)
    requires NoBroken(Chunks(s, starts))
    ensures Walk(Chunks(s, Buckets(starts))) == Collected(Chunks(s, starts)) + Walk([BucketEmits(s, SENTINEL)])
  {
    ContributionsAppend(BucketChunk(s), starts, [SENTINEL]);
    assert Chunks(s, [SENTINEL]) == [BucketEmits(s, SENTINEL)];
    WalkAppend(Chunks(s, starts), [BucketEmits(s, SENTINEL)]);
  }

  /** An unreadable bucket file is skipped and contributes nothing. */
  lemma UnreadableBucketSkipped(s: Setup, start: string, rest: seq<string>)
    requires ReadFile(s.fs, BucketPath(s, start)).None?
    ensures Walk(Chunks(s, [start] + rest)) == Walk(Chunks(s, rest))
  {
    ContributionsAppend(BucketChunk(s), [start], rest);
    var cs := Chunks(s, [start] + rest);
    assert cs[0] == BucketEmits(s, start) == [];
    assert cs[1..] == Chunks(s, rest);
  }

  /** Every element is a candidate pattern. */
  predicate AllPatterns(c: seq<Emit>) {
    c == [] || (c[0].Pattern? && AllPatterns(c[1..]))
  }

  lemma {:induction false} AllPatternsAppend(a: seq<Emit>, b: seq<Emit>)
    ensures AllPatterns(a + b) <==> AllPatterns(a) && AllPatterns(b)
  {
    if a != [] {
      assert (a + b)[1..] == a[1..] + b;
      AllPatternsAppend(a[1..], b);
    } else {
      assert a + b == b;
    }
  }

  lemma {:induction false} AllPatternsMeans(c: seq<Emit>, i: nat)
    requires AllPatterns(c) && i < |c|
    ensures c[i].Pattern?
  {
    if i > 0 {
      AllPatternsMeans(c[1..], i - 1);
    }
  }

  lemma {:induction false} AllPatternsNoMalformed(c: seq<Emit>)
    requires AllPatterns(c)
    ensures Malformed !in c && Done !in c
  {
    if c != [] {
      assert c == [c[0]] + c[1..];
      AllPatternsNoMalformed(c[1..]);
    }
  }

  /** What one bucket contributes: patterns only, or patterns ended by the
      error of a broken line. */
  predicate ChunkForm(c: seq<Emit>) {
    AllPatterns(c) || (c != [] && c[|c| - 1] == Malformed && AllPatterns(c[..|c| - 1]))
  }

  predicate AllChunkForm(cs: seq<seq<Emit>>) {
    forall i :: 0 <= i < |cs| ==> ChunkForm(cs[i])
  }

  /** The walk's output is candidate patterns ended by one `false`, or by
      the error of a broken line, when every bucket's contribution is. */
  lemma {:induction false} WalkShape(cs: seq<seq<Emit>>)
    requires AllChunkForm(cs)
    ensures var w := Walk(cs);
            && w != []
            && (w[|w| - 1] == Done || w[|w| - 1] == Malformed)
            && AllPatterns(w[..|w| - 1])
  {
    if cs == [] {
      assert Walk(cs)[..0] == [];
    } else {
      var c := cs[0];
      assert ChunkForm(c);
      ChunkEnd(c, Walk(cs[1..]), Walk(cs));
      if AllPatterns(c) {
        assert AllChunkForm(cs[1..]) by {
          forall i | 0 <= i < |cs[1..]|
            ensures ChunkForm(cs[1..][i])
          {
            assert cs[1..][i] == cs[i + 1];
          }
        }
        WalkShape(cs[1..]);
        WalkShapeStep(c, Walk(cs[1..]));
      }
    }
  }

  /** A chunk that is not all patterns ends in `Malformed`, which then ends the walk. */
  lemma ChunkEnd(c: seq<Emit>, rest: seq<Emit>, w: seq<Emit>)
    requires ChunkForm(c)
    requires w == if Malformed in c then c else c + rest
    ensures AllPatterns(c) ==> Malformed !in c && w == c + rest
    ensures !AllPatterns(c) ==> w == c && w != [] && w[|w| - 1] == Malformed && AllPatterns(w[..|w| - 1])
  {
    if AllPatterns(c) {
      AllPatternsNoMalformed(c);
    } else {
      assert Malformed in c by {
        assert c[|c| - 1] == Malformed;
      }
    }
  }

  lemma WalkShapeStep(c: seq<Emit>, r: seq<Emit>)
    requires AllPatterns(c) && r != [] && AllPatterns(r[..|r| - 1])
    ensures var w := c + r; w != [] && w[|w| - 1] == r[|r| - 1] && AllPatterns(w[..|w| - 1])
  {
    var w := c + r;
    assert w[..|w| - 1] == c + r[..|r| - 1];
    AllPatternsAppend(c, r[..|r| - 1]);
  }

  /** Each bucket contributes candidate patterns, possibly ended by the error
      of a broken line. */
  lemma ChunksShape(s: Setup, starts: seq<string>)
    ensures AllChunkForm(Chunks(s, starts))
  {
    forall i | 0 <= i < |starts|
      ensures ChunkForm(Chunks(s, starts)[i])
    {
      ScanShape(s, starts[i]);
    }
  }

  /** The scan yields candidate patterns and then stops, with `false` or with
      the error of a broken line. */
  lemma PatternsShape(s: Setup, starts: seq<string>)
    ensures var w := Walk(Chunks(s, starts));
            && w != []
            && (w[|w| - 1] == Done || w[|w| - 1] == Malformed)
            && AllPatterns(w[..|w| - 1])
  {
    ChunksShape(s, starts);
    WalkShape(Chunks(s, starts));
  }

  lemma ScanShape(s: Setup, start: string)
    ensures ChunkForm(BucketEmits(s, start))
  {
    match ReadFile(s.fs, BucketPath(s, start))
    case None =>
    case Some(content) => ScanKindsShape(Kinds(Lines(content), start, s.uaLength), false);
  }

  lemma {:induction false} ScanKindsShape(ks: seq<LineKind>, found: bool)
    ensures ChunkForm(ScanKinds(ks, found))
  {
    if ks != [] {
      match ks[0]
      case Unrelated => ScanKindsShape(ks[1..], false);
      case TooLong => ScanKindsShape(ks[1..], true);
      case Accepted(p) =>
        ScanKindsShape(ks[1..], true);
        var rest := ScanKinds(ks[1..], true);
        var c := [Pattern(p)] + rest;
        assert ScanKinds(ks, found) == c;
        assert c[1..] == rest;
        if !AllPatterns(rest) {
          assert c[..|c| - 1] == [Pattern(p)] + rest[..|rest| - 1];
          assert c[..|c| - 1][1..] == rest[..|rest| - 1];
        }
      case Broken =>
        assert ScanKinds(ks, found)[..0] == [];
    }
  }

  /** Without a broken bucket the scan ends with exactly one `false`, after
      the patterns of all buckets. */
  lemma DoneOnceAtEnd(s: Setup, starts: seq<string>)
    requires NoBroken(Chunks(s, starts))
    ensures Walk(Chunks(s, starts)) == Collected(Chunks(s, starts)) + [Done]
    ensures Done !in Collected(Chunks(s, starts))
  {
    var cs := Chunks(s, starts);
    WalkAppend(cs, []);
    assert cs + [] == cs;
    PatternsShape(s, starts);
    var w := Walk(cs);
    assert w[..|w| - 1] == Collected(cs);
    AllPatternsNoMalformed(Collected(cs));
  }

  /** An accepted line is one that starts with the bucket's hash, has a stored
      length within the user agent's length and a third field; the pattern is
      that field, trimmed. */
  lemma AcceptedMeans(line: string, start: string, n: nat, p: string)
    ensures Classify(line, start, n) == Accepted(p) <==>
            StartsWith(line, start) && StoredLength(line) <= n
            && ThirdField(line).Some? && Trim(ThirdField(line).value) == p
  {
  }

  /** Some line of the readable cache file of the bucket is accepted with pattern `p`. */
  predicate FromBucket(s: Setup, start: string, p: string) {
    match ReadFile(s.fs, BucketPath(s, start))
    case None => false
    case Some(content) =>
      var ks := Kinds(Lines(content), start, s.uaLength);
      exists i :: 0 <= i < |ks| && ks[i] == Accepted(p)
  }

  lemma {:induction false} ScanKindsSound(ks: seq<LineKind>, found: bool, p: string)
    requires Pattern(p) in ScanKinds(ks, found)
    ensures exists i :: 0 <= i < |ks| && ks[i] == Accepted(p)
  {
    var rest := ks[1..];
    match ks[0]
    case Unrelated =>
      ScanKindsSound(rest, false, p);
      var i :| 0 <= i < |rest| && rest[i] == Accepted(p);
      assert ks[i + 1] == Accepted(p);
    case TooLong =>
      ScanKindsSound(rest, true, p);
      var i :| 0 <= i < |rest| && rest[i] == Accepted(p);
      assert ks[i + 1] == Accepted(p);
    case Accepted(q) =>
      if q != p {
        ScanKindsSound(rest, true, p);
        var i :| 0 <= i < |rest| && rest[i] == Accepted(p);
        assert ks[i + 1] == Accepted(p);
      }
  }

  /** Every pattern of the walk comes from one of the buckets' contributions. */
  lemma {:induction false} WalkFrom(cs: seq<seq<Emit>>, p: string)
    requires Pattern(p) in Walk(cs)
    ensures exists k :: 0 <= k < |cs| && Pattern(p) in cs[k]
  {
    if Pattern(p) !in cs[0] {
      assert Pattern(p) in Walk(cs[1..]);
      WalkFrom(cs[1..], p);
      var k :| 0 <= k < |cs[1..]| && Pattern(p) in cs[1..][k];
      assert cs[1..][k] == cs[k + 1];
    }
  }

  /** Soundness of the scan: every pattern comes from an accepted line (see
      `AcceptedMeans`) of the readable cache file of one of the visited buckets. */
  lemma WalkSound(s: Setup, starts: seq<string>, p: string)
    requires Pattern(p) in Walk(Chunks(s, starts))
    ensures exists k :: 0 <= k < |starts| && FromBucket(s, starts[k], p)
  {
    WalkFrom(Chunks(s, starts), p);
    var k :| 0 <= k < |starts| && Pattern(p) in Chunks(s, starts)[k];
    var content := ReadFile(s.fs, BucketPath(s, starts[k])).value;
    ScanKindsSound(Kinds(Lines(content), starts[k], s.uaLength), false, p);
    assert FromBucket(s, starts[k], p);
  }

  // ---------------------------------------------------------------- completeness of the scan

  /** The patterns of the accepted lines of `ks`, in file order. */
  function AcceptedPatterns(ks: seq<LineKind>): seq<Emit> {
    if ks == [] then []
    else (if ks[0].Accepted? then [Pattern(ks[0].pattern)] else []) + AcceptedPatterns(ks[1..])
  }

  /** A line of the bucket was seen before line `k` (or before the file). */
  predicate SeenBefore(ks: seq<LineKind>, found: bool, k: nat) {
    found || exists i :: 0 <= i < k && i < |ks| && ks[i] != Unrelated
  }

  /** `k` is where the line loop ends: at the first unrelated line after a
      line of the bucket was seen, or at the end of the file. */
  predicate RunEnd(ks: seq<LineKind>, found: bool, k: nat) {
    && k <= |ks|
    && (forall i :: 0 <= i < k ==> ks[i] != Unrelated || !SeenBefore(ks, found, i))
    && (k < |ks| ==> ks[k] == Unrelated && SeenBefore(ks, found, k))
  }

  /** The line kinds of a bucket's cache file; none when it cannot be read. */
  function BucketKinds(s: Setup, start: string): seq<LineKind> {
    match ReadFile(s.fs, BucketPath(s, start))
    case None => []
    case Some(content) => Kinds(Lines(content), start, s.uaLength)
  }

  lemma SeenBeforeShift(ks: seq<LineKind>, found: bool, i: nat)
    requires ks != []
    ensures SeenBefore(ks[1..], found || ks[0] != Unrelated, i) == SeenBefore(ks, found, i + 1)
  {
    var rest := ks[1..];
    var f' := found || ks[0] != Unrelated;
    if SeenBefore(ks, found, i + 1) && !f' {
      var j :| 0 <= j < i + 1 && j < |ks| && ks[j] != Unrelated;
      assert j > 0 && rest[j - 1] == ks[j];
    }
    if SeenBefore(rest, f', i) && !found && ks[0] == Unrelated {
      var j :| 0 <= j < i && j < |rest| && rest[j] != Unrelated;
      assert ks[j + 1] == rest[j];
    }
  }

  /** The loop over a file always ends somewhere. */
  lemma {:induction false} RunEndExists(ks: seq<LineKind>, found: bool)
    ensures exists k: nat :: RunEnd(ks, found, k)
  {
    if ks == [] {
      assert RunEnd(ks, found, 0);
    } else if ks[0] == Unrelated && found {
      assert RunEnd(ks, found, 0);
    } else {
      var rest := ks[1..];
      var f' := found || ks[0] != Unrelated;
      RunEndExists(rest, f');
      var k: nat :| RunEnd(rest, f', k);
      forall i | 0 <= i < k + 1
        ensures ks[i] != Unrelated || !SeenBefore(ks, found, i)
      {
        if i > 0 {
          SeenBeforeShift(ks, found, i - 1);
          assert ks[i] == rest[i - 1];
        }
      }
      if k + 1 < |ks| {
        SeenBeforeShift(ks, found, k);
        assert ks[k + 1] == rest[k];
      }
      assert RunEnd(ks, found, k + 1);
    }
  }

  /** Completeness of the line loop: without a broken line before the loop
      ends, it yields the pattern of every accepted line up to there, in
      file order, and nothing else. */
  lemma {:induction false} ScanKindsComplete(ks: seq<LineKind>, found: bool, k: nat)
    requires RunEnd(ks, found, k) && Broken !in ks[..k]
    ensures ScanKinds(ks, found) == AcceptedPatterns(ks[..k])
  {
    if ks == [] {
      assert ks[..k] == [];
    } else if k == 0 {
      assert SeenBefore(ks, found, 0);
      assert ks[..k] == [];
    } else {
      var rest := ks[1..];
      var f' := found || ks[0] != Unrelated;
      assert ks[..k][0] == ks[0];
      assert ks[..k][1..] == rest[..k - 1];
      assert !(ks[0] == Unrelated && SeenBefore(ks, found, 0));
      forall i | 0 <= i < k - 1
        ensures rest[i] != Unrelated || !SeenBefore(rest, f', i)
      {
        SeenBeforeShift(ks, found, i);
        assert rest[i] == ks[i + 1];
      }
      if k - 1 < |rest| {
        SeenBeforeShift(ks, found, k - 1);
        assert rest[k - 1] == ks[k];
      }
      assert RunEnd(rest, f', k - 1);
      ScanKindsComplete(rest, f', k - 1);
    }
  }

  lemma {:induction false} AcceptedPatternsHas(ks: seq<LineKind>, i: nat)
    requires i < |ks| && ks[i].Accepted?
    ensures Pattern(ks[i].pattern) in AcceptedPatterns(ks)
  {
    if i > 0 {
      AcceptedPatternsHas(ks[1..], i - 1);
      assert ks[1..][i - 1] == ks[i];
    }
  }

  lemma {:induction false} AcceptedPatternsAll(ks: seq<LineKind>)
    ensures AllPatterns(AcceptedPatterns(ks))
  {
    if ks != [] {
      AcceptedPatternsAll(ks[1..]);
      var head: seq<Emit> := if ks[0].Accepted? then [Pattern(ks[0].pattern)] else [];
      assert AllPatterns(head) by {
        if head != [] {
          assert head[1..] == [];
        }
      }
      AllPatternsAppend(head, AcceptedPatterns(ks[1..]));
    }
  }

  /** A bucket contributes exactly the patterns of its accepted lines up to
      the end of its run (nothing when its file cannot be read). */
  lemma BucketComplete(s: Setup, start: string, k: nat)
    requires RunEnd(BucketKinds(s, start), false, k) && Broken !in BucketKinds(s, start)[..k]
    ensures BucketEmits(s, start) == AcceptedPatterns(BucketKinds(s, start)[..k])
  {
    match ReadFile(s.fs, BucketPath(s, start))
    case None =>
      assert BucketKinds(s, start)[..k] == [];
    case Some(content) =>
      ScanKindsComplete(BucketKinds(s, start), false, k);
  }

  /** Completeness of the scan: when no earlier bucket is broken, every
      accepted line of bucket `b` before the end of its run is yielded. */
  lemma WalkComplete(s: Setup, starts: seq<string>, b: nat, k: nat, i: nat)
    requires b < |starts| && NoBroken(Chunks(s, starts[..b]))
    requires RunEnd(BucketKinds(s, starts[b]), false, k) && Broken !in BucketKinds(s, starts[b])[..k]
    requires i < k && BucketKinds(s, starts[b])[i].Accepted?
    ensures Pattern(BucketKinds(s, starts[b])[i].pattern) in Walk(Chunks(s, starts))
  {
    var ks := BucketKinds(s, starts[b]);
    var c := BucketEmits(s, starts[b]);
    BucketComplete(s, starts[b], k);
    AcceptedPatternsHas(ks[..k], i);
    AcceptedPatternsAll(ks[..k]);
    AllPatternsNoMalformed(c);
    var cs := Chunks(s, starts);
    assert cs[..b] == Chunks(s, starts[..b]);
    assert cs[b] == c;
    WalkHas(cs, b, Pattern(ks[i].pattern));
  }

  /** An element of a bucket that is not broken, after buckets that are not
      broken, is part of the walk. */
  lemma {:induction false} WalkHas(cs: seq<seq<Emit>>, b: nat, e: Emit)
    requires b < |cs| && NoBroken(cs[..b]) && Malformed !in cs[b] && e in cs[b]
    ensures e in Walk(cs)
  {
    if b > 0 {
      assert cs[..b][0] == cs[0];
      assert cs[1..][..b - 1] == cs[..b][1..];
      NoBrokenTail(cs[..b]);
      WalkHas(cs[1..], b - 1, e);
    }
  }

  /** A line of the bucket rejected for its length still counts as part of the
      run: the lines after it are scanned as if it had been accepted. */
  lemma TooLongKeepsRun(line: string, rest: seq<string>, start: string, n: nat, found: bool)
    requires StartsWith(line, start) && StoredLength(line) > n
    ensures ScanLines([line] + rest, start, n, found) == ScanLines(rest, start, n, true)
  {
    var ks := Kinds([line] + rest, start, n);
    KindsCons(line, rest, start, n);
    assert Classify(line, start, n) == TooLong;
    assert ScanKinds(ks, found) == ScanKinds(ks[1..], true);
  }

  lemma KindsCons(line: string, rest: seq<string>, start: string, n: nat)
    ensures var ks := Kinds([line] + rest, start, n);
            ks != [] && ks[0] == Classify(line, start, n) && ks[1..] == Kinds(rest, start, n)
  {
    var lines := [line] + rest;
    var ks := Kinds(lines, start, n);
    var kr := Kinds(rest, start, n);
    assert lines[0] == line;
    assert |ks[1..]| == |kr|;
    forall i | 0 <= i < |rest|
      ensures ks[1..][i] == kr[i]
    {
      assert lines[i + 1] == rest[i];
      assert ks[1..][i] == ks[i + 1];
    }
  }

  lemma {:induction false} ScanKindsEarlyStop(ks: seq<LineKind>, found: bool, k: nat)
    requires k < |ks| && ks[k] == Unrelated
    requires found || exists i :: 0 <= i < k && ks[i] != Unrelated
    ensures ScanKinds(ks, found) == ScanKinds(ks[..k], found)
  {
    if k == 0 {
      assert found;
    } else {
      var f' := ks[0] != Unrelated || found;
      assert f' || exists i :: 0 <= i < k - 1 && ks[1..][i] != Unrelated by {
        if !f' {
          var i :| 0 <= i < k && ks[i] != Unrelated;
          assert ks[1..][i - 1] == ks[i];
        }
      }
      assert ks[..k][1..] == ks[1..][..k - 1];
      if ks[0] != Broken && !(ks[0] == Unrelated && found) {
        ScanKindsEarlyStop(ks[1..], f', k - 1);
      }
    }
  }

  /** Early stop: once a line of the bucket has been seen, the first line
      that does not start with the hash ends the scan of the file, and no
      line after it contributes. */
  lemma EarlyStop(lines: seq<string>, start: string, n: nat, found: bool, k: nat)
    requires k < |lines| && !StartsWith(lines[k], start)
    requires found || exists i :: 0 <= i < k && StartsWith(lines[i], start)
    ensures ScanLines(lines, start, n, found) == ScanLines(lines[..k], start, n, found)
  {
    var ks := Kinds(lines, start, n);
    assert found || exists i :: 0 <= i < k && ks[i] != Unrelated by {
      if !found {
        var i :| 0 <= i < k && StartsWith(lines[i], start);
        ClassifyUnrelated(lines[i], start, n);
      }
    }
    ClassifyUnrelated(lines[k], start, n);
    ScanKindsEarlyStop(ks, found, k);
    KindsPrefix(lines, start, n, k);
  }

  /** A line is unrelated to the bucket exactly when it does not start with
      the bucket's hash. */
  lemma ClassifyUnrelated(line: string, start: string, n: nat)
    ensures Classify(line, start, n) == Unrelated <==> !StartsWith(line, start)
  {
  }

  lemma KindsPrefix(lines: seq<string>, start: string, n: nat, k: nat)
    requires k <= |lines|
    ensures Kinds(lines[..k], start, n) == Kinds(lines, start, n)[..k]
  {
  }

  /** The stored length reads as 0, and the line always passes the length
      check, when the 4 characters at offset 33 hold no space. */
  lemma NoSpaceReadsZero(line: string, start: string, n: nat)
    requires ' ' !in Substr(line, 33, 4)
    ensures StoredLength(line) == 0
    ensures !Classify(line, start, n).TooLong?
  {
  }

  /** A length written as decimal digits and a space at offset 33 is read
      back exactly. */
  lemma StoredLengthReadsBack(line: string, len: nat)
    requires len < 1000
    requires |line| >= 33 && StartsWith(line[33..], NatToString(len) + " ")
    ensures StoredLength(line) == len
  {
    var d := NatToString(len);
    assert |d| <= 3 by {
      if len >= 10 {
        if len >= 100 {
          assert NatToString(len) == NatToString(len / 10) + [DigitChar(len % 10)];
          assert NatToString(len / 10) == NatToString(len / 100) + [DigitChar(len / 10 % 10)];
        }
      }
    }
    var w := Substr(line, 33, 4);
    assert line[33..][..|d| + 1] == d + " ";
    assert w[..|d| + 1] == line[33..][..|d| + 1];
    assert (d + " ")[..|d|] == d;
    assert w[..|d|] == d && w[|d|] == ' ';
    assert ' ' !in d by {
      NatToStringDigits(len);
      assert forall i :: 0 <= i < |d| ==> IsDigit(d[i]);
    }
    var b := BeforeFirst(w, ' ');
    assert b == Some(d) by {
      BeforeFirstAt(w, d);
    }
    IntCastRoundTrip(len);
  }

  lemma {:induction false} BeforeFirstAt(w: string, d: string)
    requires |d| < |w| && w[..|d|] == d && w[|d|] == ' ' && ' ' !in d
    ensures BeforeFirst(w, ' ') == Some(d)
  {
    if d != [] {
      assert w[1..][..|d| - 1] == d[1..];
      BeforeFirstAt(w[1..], d[1..]);
    }
  }
}
