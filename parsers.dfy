/** The parser base class: the mapping from data set type to source type and
    cache prefix, the static cache handle every parser shares, and the static
    data version. A concrete parser's `update` and `getBrowser` are not part of
    this model; a parser object answers them from a given oracle and records
    the calls it received. */
module Parsers {
  import opened Common
  import opened Dataset
  import opened FileCache
  import opened Formatters

  /** `getCachePrefix`: the file name prefix of the data set type's cache entries. */
  function CachePrefix(dataSetType: int): string {
    if dataSetType == DATASET_TYPE_SMALL then "smallbrowscap"
    else if dataSetType == DATASET_TYPE_LARGE then "largebrowscap"
    else "browscap"
  }

  /** The cache prefix of a data set type is the name of its cache sub
      directory, and the three data set types have three different ones. */
  lemma CachePrefixMatchesSubDir(t: int, u: int)
    ensures CachePrefix(t) == SubDirName(t)
    ensures IsDataSetType(t) && IsDataSetType(u) && t != u ==> CachePrefix(t) != CachePrefix(u)
  {
    if IsDataSetType(t) && IsDataSetType(u) && t != u {
      SubDirNamesDistinct(t, u);
    }
  }

  /** Every value other than the small and the large type, valid or not,
      selects the default prefix. */
  lemma CachePrefixDefault(t: int)
    requires t != DATASET_TYPE_SMALL && t != DATASET_TYPE_LARGE
    ensures CachePrefix(t) == CachePrefix(DATASET_TYPE_DEFAULT) == "browscap"
  {
  }

  /** A call a parser received. */
  datatype ParserCall = UpdateCall(force: bool) | LookupCall(userAgent: string)

  /** The static properties of the parser classes: the data version read
      from the source, and the cache instance. */
  class ParserStatics {
    var version: Option<int>
    var cache: Option<File>
    /** The static state of the File class, which a lazily created cache shares. */
    const fileStatics: FileStatics

    constructor(fileStatics: FileStatics)
      ensures this.fileStatics == fileStatics
      ensures version == None && cache == None
    {
      this.fileStatics := fileStatics;
      version := None;
      cache := None;
    }

    /** The cache instance; a File cache is created the first time. */
    method GetCache() returns (c: File)
      modifies this
      ensures old(cache).Some? ==> c == old(cache).value
      ensures old(cache).None? ==> fresh(c) && c.statics == fileStatics
      ensures cache == Some(c) && version == old(version)
    {
      if cache.None? {
        var f := new File(fileStatics);
        cache := Some(f);
      }
      c := cache.value;
    }

    method SetCache(c: File)
      modifies this
      ensures cache == Some(c) && version == old(version)
    {
      cache := Some(c);
    }

    /** Forgets the data version after an update of the source; the cache
        stays as it is. */
    method ResetCachedData()
      modifies this
      ensures version == None && cache == old(cache)
    {
      version := None;
    }

    /** The static state of the File class the cache instance uses (now or,
        when none is set, once `GetCache` has created it). */
    function CacheFileStatics(): FileStatics
      reads this
    {
      if cache.Some? then cache.value.statics else fileStatics
    }
  }

  /** A parser object. `answer` gives the formatter (or `null`) a lookup of a
      user agent returns after the calls recorded so far. */
  class Parser {
    const sourceType: string
    const sourceTypeSmall: string
    const sourceTypeLarge: string
    const statics: ParserStatics
    const answer: (seq<ParserCall>, string) -> Option<FormatterRef>
    var log: seq<ParserCall>

    constructor(sourceType: string, sourceTypeSmall: string, sourceTypeLarge: string,
                statics: ParserStatics, answer: (seq<ParserCall>, string) -> Option<FormatterRef>)
      ensures this.sourceType == sourceType && this.sourceTypeSmall == sourceTypeSmall
      ensures this.sourceTypeLarge == sourceTypeLarge
      ensures this.statics == statics && this.answer == answer && log == []
    {
      this.sourceType := sourceType;
      this.sourceTypeSmall := sourceTypeSmall;
      this.sourceTypeLarge := sourceTypeLarge;
      this.statics := statics;
      this.answer := answer;
      log := [];
    }

    /** `getSourceType`: the download type of the data set. */
    function GetSourceType(dataSetType: int): (r: string) {
      if dataSetType == DATASET_TYPE_SMALL then sourceTypeSmall
      else if dataSetType == DATASET_TYPE_LARGE then sourceTypeLarge
      else sourceType
    }

    /** `update($forceUpdate)`, recorded. */
    method Update(force: bool)
      modifies this
      ensures log == old(log) + [UpdateCall(force)]
    {
      log := log + [UpdateCall(force)];
    }

    /** `getBrowser($userAgent)`: the oracle's answer, recorded. */
    method GetBrowser(userAgent: string) returns (r: Option<FormatterRef>)
      modifies this
      ensures r == answer(old(log), userAgent)
      ensures log == old(log) + [LookupCall(userAgent)]
    {
      r := answer(log, userAgent);
      log := log + [LookupCall(userAgent)];
    }
  }

  /** The source type and the cache prefix select the same data set: the
      small and large types their own source type, every other value the
      default one, exactly where the prefix is the default one. */
  lemma SourceTypeFollowsPrefix(p: Parser, t: int)
    ensures CachePrefix(t) == "smallbrowscap" <==> t == DATASET_TYPE_SMALL
    ensures CachePrefix(t) == "largebrowscap" <==> t == DATASET_TYPE_LARGE
    ensures CachePrefix(t) == "smallbrowscap" ==> p.GetSourceType(t) == p.sourceTypeSmall
    ensures CachePrefix(t) == "largebrowscap" ==> p.GetSourceType(t) == p.sourceTypeLarge
    ensures CachePrefix(t) == "browscap" ==> p.GetSourceType(t) == p.sourceType
  {
  }
}
