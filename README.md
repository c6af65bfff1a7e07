# browscap-lite, modelled in Dafny

browscap-lite is a low-memory counterpart of PHP's `get_browser()`.
The `Browscap` facade takes a user agent and asks a parser for the browser settings that match it.
It may first ask the parser to update its data source.
If the parser finds nothing, the facade retries once at an update probability of 100 percent, and after that it falls back to an empty formatter.

The INI parser keeps its patterns in cache files ("buckets").
A bucket is chosen by a hash of the pattern's start string.
`getPatterns` reads the buckets of a user agent line by line and yields every pattern whose stored length fits the user agent.
After the last bucket it yields `false` once, to mark the end.
Cache entries live as files under a cache directory.
The versioned form of that directory names the data set type, the parser's data version and the package version.
The formatters store the settings they receive with lower-cased keys, either as an array or as a `stdClass` object.
Updaters carry an update interval and a fixed set of options.

The model has one module per part:

- `Common`: `Option`, `Result` and PHP scalar values.
- `PhpStrings`: the PHP string functions the core uses (`strtolower`, `trim`, `rtrim`, `substr`, `strstr`, `(int)` casts, `fgets` line splitting).
- `FileSystem`: the host file system as a value, and the `Disk` object that holds it.
- `Dataset`: the package version and the data set type constants.
- `FileCache`: `Cache\File` and its shared cache directory.
- `Parsers`: `AbstractParser` and its shared statics.
- `IniParser`: `Ini::getPatterns`.
- `Formatters`: `PhpGetBrowserArray` and `PhpGetBrowser`.
- `Updaters`: `AbstractUpdater`.
- `Facade`: `Browscap`.

Static properties become objects shared by reference: `FileStatics`, `ParserStatics` and `BrowscapStatics`.
The model takes some inputs as parameters:

- the request's `HTTP_USER_AGENT`;
- the value `random_int` draws;
- the start-hash and sub-key functions of the parser base class;
- the parser data version;
- the data set type that `Browscap::getDataSetType()` returns (src/Cache/File.php:138, src/Parser/AbstractParser.php:86 and 157). `FileCache`, `Parsers` and `IniParser` take it as a plain integer. The facade only ever stores 1, 2 or 3, and every other value selects the default names, as the source's `switch` and `default` branches do;
- the answers a concrete parser gives to lookups.

The source says the retry after a failed lookup "forces an update"; the code does not do that, and the model follows the code.
The retry calls `getBrowser` again at probability 100.
That call updates without force, and only when `autoUpdate` is on.
The retried call ends with the formatter fall-back itself, so the outer call never reaches its own fall-back.

## Model

| member | source | states |
|---|---|---|
| PhpStrings.ToLower | src/Formatter/PhpGetBrowserArray.php:45 | `strtolower` keeps the length and lowers each character. |
| PhpStrings.ToLowerIdempotent | src/Formatter/PhpGetBrowserArray.php:45 | Lowering an already lowered key changes nothing. |
| PhpStrings.RTrimCharShape | src/Cache/File.php:123 | `rtrim($dir, '/')` returns a prefix of the argument that does not end in the separator, and only separators were removed. |
| PhpStrings.RTrimCharIdempotent | src/Cache/File.php:123 | Trimming a trimmed directory again changes nothing. |
| PhpStrings.TrimShape | src/Parser/Ini.php:71 | `trim` returns a slice of the input with no whitespace at either end. |
| PhpStrings.BeforeFirst | src/Parser/Ini.php:66 | `strstr($s, ' ', true)` is the text before the first space, or nothing when there is no space. |
| PhpStrings.IntToStringInjective | src/Cache/File.php:156 | Different parser versions print as different decimal strings. |
| PhpStrings.IntCastRoundTrip | src/Parser/Ini.php:66 | `(int)` of a printed integer gives that integer back. |
| PhpStrings.IntValueOfInt | src/Updater/AbstractUpdater.php:77 | `(int)` of an int, or of its decimal string, is that int. |
| PhpStrings.LinesRoundTrip | src/Parser/Ini.php:63 | The `fgets` lines of a file, each with its newline kept, join back into the file. |
| PhpStrings.LinesShape | src/Parser/Ini.php:63 | Every `fgets` line is non-empty, and only the last one may lack a newline. |
| FileSystem.ReadAfterPut | src/Cache/File.php:61-66 | A successful `file_put_contents` reports the byte count and reads back the content. It changes no other file and no directory. |
| FileSystem.ParentOfJoin | src/Cache/File.php:65 | A file `dir/key` can be written exactly when `dir` exists. |
| FileSystem.JoinPathInjective | src/Cache/File.php:108-114 | `dir/name` for a name without separators determines both the directory and the name. |
| FileSystem.OperationsKeepValid | src/Cache/File.php:61-84 | `mkdir`, `file_put_contents` and `unlink` never make one path both a file and a directory. |
| FileCache.FileStatics.constructor | src/Cache/File.php:32 | The shared cache directory starts unset. |
| FileCache.FileStatics.SetCacheDirectory | src/Cache/File.php:121-124 | Stores the directory with its trailing separators cut. |
| FileCache.StoredDirHasNoTrailingSeparator | src/Cache/File.php:121-151 | The main directory in use never ends in a separator, whether it is the default one or one stored by `setCacheDirectory`. A stored one is its argument with only trailing separators removed. |
| FileCache.FileStatics.GetCacheDirectory | src/Cache/File.php:134-166 | An unset directory becomes the default first. The result is the main directory, or `main/<subdir>_v<version>_1.1.0` with the version flag. With `createDir`, that directory is created with its parents when the path is missing; nothing else changes. |
| FileCache.DefaultCacheDirValue | src/Cache/File.php:149-151 | The default main directory is `/tmp/browscap`. |
| FileCache.SubDirNamesDistinct | src/Cache/File.php:138-147 | The three data set types have three different sub directories. |
| FileCache.VersionedDirInjective | src/Cache/File.php:138-158 | Different (data set type, parser version) pairs give different versioned directories. |
| FileCache.NamespacesNeverCollide | src/Cache/File.php:108-114 | Two entries with different (type, version, key) triples never share a file. |
| FileCache.File.GetFileName | src/Cache/File.php:108-114 | The entry's file is the selected directory, a separator and the key. |
| FileCache.File.Get | src/Cache/File.php:42-50 | The file's content when it exists as a regular file, otherwise `null`. |
| FileCache.File.Set | src/Cache/File.php:61-66 | Creates the directory if needed and writes the file, returning `file_put_contents`' result. |
| FileCache.File.Delete | src/Cache/File.php:76-84 | Unlinks an existing file. A missing entry counts as deleted. |
| FileCache.File.Exists | src/Cache/File.php:94-97 | True exactly when the entry's path exists. |
| FileCache.GetAfterSet | src/Cache/File.php:42-66 | After a successful `set`, `get` of the same key returns the stored content. |
| FileCache.SetLeavesOtherFiles | src/Cache/File.php:61-66 | A `set` changes no other file. |
| FileCache.DeleteSemantics | src/Cache/File.php:76-97 | After `delete` succeeds the entry no longer exists. Other files are untouched. `delete` fails only on a directory. |
| Parsers.CachePrefixMatchesSubDir | src/Parser/AbstractParser.php:155-165 | The cache prefix equals the cache sub directory name, and differs between the three data set types. |
| Parsers.CachePrefixDefault | src/Parser/AbstractParser.php:155-165 | Every value other than small and large selects the prefix `browscap`. |
| Parsers.SourceTypeFollowsPrefix | src/Parser/AbstractParser.php:84-94 | The source type is the small or large one exactly where the cache prefix is, and the default one otherwise. |
| Parsers.ParserStatics.constructor | src/Parser/AbstractParser.php:37-44 | The data version and the cache start unset. |
| Parsers.ParserStatics.GetCache | src/Parser/AbstractParser.php:118-125 | Returns the set cache, or creates a File cache once and then keeps it. |
| Parsers.ParserStatics.SetCache | src/Parser/AbstractParser.php:130-133 | Replaces the cache and leaves the version alone. |
| Parsers.ParserStatics.ResetCachedData | src/Parser/AbstractParser.php:145-148 | Forgets the data version and keeps the cache. |
| Parsers.Parser.Update | src/Parser/AbstractParser.php:140 | The parser receives one update call with the given force flag. |
| Parsers.Parser.GetBrowser | src/Parser/AbstractParser.php:111 | Returns the parser's answer for the calls it received so far. The lookup is recorded. |
| IniParser.Buckets | src/Parser/Ini.php:40-48 | The buckets are the user agent's pattern starts, with the 32-`z` sentinel appended at the end. |
| IniParser.GetPatterns | src/Parser/Ini.php:38-82 | Yields exactly what the bucket walk over the versioned cache directory yields, for every file system. A missing or unreadable bucket is skipped. Afterwards the parser keeps a cache (the one it had, or a new one), the main cache directory is set (to the default when it was unset), and the data version is unchanged. |
| IniParser.GetPatternsTwice | src/Parser/Ini.php:38-82 | A second scan of the same cache yields the same candidates as the first. |
| IniParser.VisitBucket | src/Parser/Ini.php:52-79 | One pass of the bucket loop yields exactly that bucket's contribution, and the cache directory stays as it was. |
| IniParser.ReadBucket | src/Parser/Ini.php:56-79 | A bucket file that cannot be read yields nothing. A readable one yields the scan of its `fgets` lines. |
| IniParser.ClassifyLine | src/Parser/Ini.php:64-73 | The tests on one line, in the code's order, give the line's classification: unrelated, too long, accepted with its trimmed pattern, or broken when it has no third field. |
| IniParser.BucketFile | src/Parser/Ini.php:52-55 | The bucket file is the cache file of `<prefix>.patterns.<subkey>` in the versioned directory. |
| IniParser.ScanBucketFile | src/Parser/Ini.php:60-79 | The line loop yields what the line classification gives, and stops at the first line past the bucket's run of matching lines. |
| IniParser.WalkAppend | src/Parser/Ini.php:51-80 | Walking two lists of buckets yields the first list's output and then the second's, unless the first ended in a malformed line. |
| IniParser.SentinelLast | src/Parser/Ini.php:47-51 | The sentinel bucket is walked last. |
| IniParser.UnreadableBucketSkipped | src/Parser/Ini.php:56-58 | A bucket file that cannot be read adds nothing to the output. |
| IniParser.WalkShape | src/Parser/Ini.php:51-81 | When every bucket contributes patterns, possibly ended by a malformed line, the whole output is patterns ended by the one `false` or by that error. |
| IniParser.ChunksShape | src/Parser/Ini.php:60-79 | Each bucket contributes only patterns, possibly ended by the error of a malformed line. |
| IniParser.PatternsShape | src/Parser/Ini.php:51-81 | Every output of `getPatterns` is a list of patterns followed by a single `false`, or else by the error of a malformed line. |
| IniParser.DoneOnceAtEnd | src/Parser/Ini.php:51-81 | Without malformed lines, the output is the patterns of all buckets in bucket order, then exactly one `false`, which appears nowhere else. |
| IniParser.AcceptedMeans | src/Parser/Ini.php:64-71 | A yielded pattern comes from a line that starts with the bucket's start, and whose stored length is at most the user agent's. |
| IniParser.WalkFrom | src/Parser/Ini.php:51-79 | Every pattern in the output comes from the contribution of one of the buckets. |
| IniParser.WalkSound | src/Parser/Ini.php:51-79 | Every yielded pattern is the trimmed third field of an accepted line of one of the user agent's buckets. |
| IniParser.RunEndExists | src/Parser/Ini.php:62-76 | Every file has a point where the line loop ends: the first line without the hash after one with it, or the end of the file. |
| IniParser.ScanKindsComplete | src/Parser/Ini.php:62-76 | Without a broken line before that point, the loop yields the pattern of every accepted line before it, in file order, and nothing else. |
| IniParser.BucketComplete | src/Parser/Ini.php:56-79 | A bucket contributes exactly the patterns of its accepted lines up to the end of its run, and nothing when its file cannot be read. |
| IniParser.WalkComplete | src/Parser/Ini.php:51-81 | When no earlier bucket is broken, every accepted line of a bucket before the end of its run is yielded by `getPatterns`. |
| IniParser.TooLongKeepsRun | src/Parser/Ini.php:64-73 | A matching line whose pattern is too long yields nothing but still counts as in the run. |
| IniParser.EarlyStop | src/Parser/Ini.php:62-76 | Once a matching line was seen, the first non-matching line ends the bucket, and the lines after it are never read. |
| IniParser.NoSpaceReadsZero | src/Parser/Ini.php:66-69 | A line with no space in the four characters at offset 33 reads as stored length 0, so no bucket rejects it as too long. |
| IniParser.StoredLengthReadsBack | src/Parser/Ini.php:66 | A line that holds a printed length after the 32-character hash reads back that length. |
| Formatters.PutKeys | src/Formatter/PhpGetBrowserArray.php:46 | Assigning a key adds it at the end when it is new, and otherwise keeps the key order. |
| Formatters.PutFind | src/Formatter/PhpGetBrowserArray.php:46 | After the assignment the key holds the new value. Every other key keeps its value. |
| Formatters.PutKeepsUniqueKeys | src/Formatter/PhpGetBrowserArray.php:46 | An assignment never duplicates a key. |
| Formatters.LowerKeysKeys | src/Formatter/PhpGetBrowserArray.php:41-48 | The stored keys are unique, and they are exactly the lower-cased input keys. |
| Formatters.LowerKeysAreLower | src/Formatter/PhpGetBrowserArray.php:44-47 | Every stored key is lower case. |
| Formatters.LowerKeysLastWins | src/Formatter/PhpGetBrowserArray.php:44-47 | When keys differ only in case, the stored value is that of the last of them. |
| Formatters.LastWithIsLast | src/Formatter/PhpGetBrowserArray.php:44-47 | That value is the one of the last input entry lowering to the key. |
| Formatters.LowerKeysOrder | src/Formatter/PhpGetBrowserArray.php:44-47 | Stored keys keep the order in which their first spelling appeared in the input. |
| Formatters.PhpGetBrowserArray.constructor | src/Formatter/PhpGetBrowserArray.php:36 | A new array formatter holds no settings. |
| Formatters.PhpGetBrowserArray.SetData | src/Formatter/PhpGetBrowserArray.php:41-48 | Discards the old settings and the loop stores the input with lower-cased keys. |
| Formatters.PhpGetBrowserArray.GetData | src/Formatter/PhpGetBrowserArray.php:55-58 | Returns the array the last `setData` stored. |
| Formatters.StdClass.SetProperty | src/Formatter/PhpGetBrowser.php:53 | A property assignment behaves like an array assignment on the property table. |
| Formatters.PhpGetBrowser.constructor | src/Formatter/PhpGetBrowser.php:40-43 | A new object formatter holds a fresh empty `stdClass`. |
| Formatters.PhpGetBrowser.SetData | src/Formatter/PhpGetBrowser.php:48-55 | Builds a fresh object holding the input with lower-cased property names. An object handed out earlier keeps its properties. |
| Formatters.PhpGetBrowser.GetData | src/Formatter/PhpGetBrowser.php:62-65 | Returns the object the last `setData` built. |
| Formatters.SetFormatterData | src/Formatter/FormatterInterface.php:31 | Either kind of formatter ends up holding the input with lower-cased keys. |
| Updaters.AbstractUpdater.Init | src/Updater/AbstractUpdater.php:33-50 | A new updater has the five-day interval and the concrete class's default options. |
| Updaters.NewUpdater | src/Updater/AbstractUpdater.php:57-66 | `null` keeps the defaults and an array goes through `setOptions`. Any other value, or an unknown key, throws and yields no object. |
| Updaters.AbstractUpdater.SetInterval | src/Updater/AbstractUpdater.php:75-90 | The interval becomes the argument cast to int. The options stay as they are. |
| Updaters.AbstractUpdater.SetOption | src/Updater/AbstractUpdater.php:117-126 | A known key is overwritten. An unknown key is an error and changes nothing. |
| Updaters.AbstractUpdater.SetOptions | src/Updater/AbstractUpdater.php:99-106 | The loop leaves exactly the state and error of applying the entries in order, stopping at the first unknown key. |
| Updaters.OptionValue | src/Updater/AbstractUpdater.php:135-142 | `getOption` is the stored value, or `null` for an unknown key. |
| Updaters.ApplyOptionsKeepsKeys | src/Updater/AbstractUpdater.php:99-126 | Options are never added or removed. |
| Updaters.ApplyOptionsSucceeds | src/Updater/AbstractUpdater.php:99-126 | `setOptions` succeeds exactly when every key is known. |
| Updaters.ApplyOptionsValues | src/Updater/AbstractUpdater.php:99-121 | On success each option holds its last given value, or keeps its old one. |
| Updaters.ApplyOptionsPartial | src/Updater/AbstractUpdater.php:99-106 | A failing `setOptions` keeps the writes made before the first unknown key. |
| Facade.BrowscapStatics.constructor | src/Browscap.php:58-78 | No updater, parser or formatter is set yet, and the data set type is the default one. |
| Facade.BrowscapStatics.SetDataSetType | src/Browscap.php:225-246 | Accepts exactly the ints 1, 2 and 3. Anything else, the string "2" included, is an error that changes nothing. |
| Facade.BrowscapStatics.SetFormatter | src/Browscap.php:149-152 | Replaces the shared formatter only. |
| Facade.BrowscapStatics.GetFormatter | src/Browscap.php:157-164 | Returns the set formatter, or creates an empty object formatter once and then keeps it. |
| Facade.BrowscapStatics.SetParser | src/Browscap.php:171-174 | Replaces the shared parser only. |
| Facade.BrowscapStatics.GetParser | src/Browscap.php:179-186 | Returns the set parser, or creates the INI parser once and then keeps it. |
| Facade.BrowscapStatics.SetUpdater | src/Browscap.php:193-196 | Replaces the shared updater only. |
| Facade.BrowscapStatics.GetUpdater | src/Browscap.php:206-216 | Returns the set updater, or else the factory's, which may be none. |
| Facade.BrowscapStatics.Update | src/Browscap.php:253-256 | Hands one update call, with the force flag, to the (possibly new) parser. |
| Facade.Browscap.constructor | src/Browscap.php:92-95 | `autoUpdate` is the argument cast `(bool)(int)`, and the probability is 1 percent. |
| Facade.Browscap.LookupOnce | src/Browscap.php:116-125 | One attempt: an unforced update when `autoUpdate` is on and the draw is 1, then a lookup. The result is the parser's answer after those calls. |
| Facade.Browscap.GetBrowser | src/Browscap.php:105-144 | The call log and the result are those of the lookup `Run` for any parser answers, and a parser created on the way is the default INI parser. The user agent defaults to the request's. The probability is kept. A found answer is returned and leaves the formatter as it was. A miss returns the shared formatter: the one set, or else a new empty object formatter, which is then kept. |
| Facade.DrawRange | src/Browscap.php:117 | The draw range for a probability from 1 to 100 is [1, 100/p]. It is [1, 1] exactly for p > 50. |
| Facade.RunCalls | src/Browscap.php:116-135 | A lookup only appends calls: one attempt, and a second exactly when the first returned nothing below probability 100. |
| Facade.LookupCount | src/Browscap.php:125-135 | The parser sees one lookup, or two when the retry happens. |
| Facade.NoUpdateWithoutAutoUpdate | src/Browscap.php:116-122 | Without `autoUpdate` no update is ever requested. |
| Facade.UpdateGate | src/Browscap.php:116-135 | With `autoUpdate`, the first call is an unforced update exactly when the draw is 1, and always at probability 100. The retry updates too. |
| Facade.FallbackOnlyWithoutAnswer | src/Browscap.php:125-143 | The result is the fall-back formatter exactly when the last lookup had no answer. Otherwise it is that answer. |
| Facade.RandomMaxAsWritten | src/Browscap.php:117 | `floor(100 / $p)` is a float, whether `$p` is an int or a float. |
| Facade.RandomIntStrict | src/Browscap.php:118 | Under `strict_types=1`, `random_int` with a float bound is a `TypeError`. |
| Facade.UpdateCheckAsWrittenThrows | src/Browscap.php:116-118 | The update check as written throws a `TypeError` for the default probability 1.0, and for the retry's 100. |
| Facade.UpdateCheckCorrected | src/Browscap.php:116-122 | With an integer bound the draw succeeds. There are 100 possible draws at probability 1 and a single one at 100. |

## Left out

- `checkPatternFiles` is left out. `GetPatterns` reads whatever file system it is given, which stands for the state after that check, and the check's writes to the cache files are not modelled.
- The hashing of patterns into starts and sub-keys, and `getVersion`, belong to the concrete parsers' other methods. They are parameters here, and a `null` data version is not modelled.
- `FileCache.FileStatics.GetCacheDirectory`: the parser version is a parameter, so the side effect of `Browscap::getParser()` (creating the default parser when none is set, src/Cache/File.php:156) is not modelled there.
- A concrete parser's data: `getBrowser` and `update` answer from an oracle, and the model records the calls made. Parsing the INI settings, the downloads and the writing of the cache files are not modelled.
- `getPatterns` is a generator. The model returns everything it would yield at once, so laziness, and a consumer that stops early, are not modelled.
- `fopen` failing after `is_readable` succeeded is not modelled.
- `(int)` of numeric strings with exponents or fractions, and integer overflow, are not modelled. The cast reads optional leading whitespace, a sign and digits.
- PHP array keys are strings only. Integer keys, and the key coercion of numeric strings, are not modelled.
- `strtolower` lowers ASCII letters only, as PHP 8.2 and later do; the locale-dependent lowering of earlier versions is not modelled. Property names starting with a NUL byte are not modelled.
- `updateProbability` is an integer percentage, and `random_int` is a parameter. The float form as written belongs to the finding below.
- `$_SERVER['HTTP_USER_AGENT']` is a parameter, `sys_get_temp_dir()` is the constant `/tmp` and the separator is `/`. Permissions and concurrent access to the file system are not modelled.
- `FileCache.File.Get`: reading a path that is a directory is not modelled. Only regular files hold content.
- Cache implementations other than `Cache\File`, and the cache, formatter and parser interfaces, are not modelled.
- The concrete updaters (`Curl`, `FileGetContents`, `Local`, `None`) and `FactoryUpdater` are not modelled. The factory's choice is a parameter of `getUpdater`.
- `getBrowscapVersion`, `getBrowscapVersionNumber` and `getBrowscapSource` are abstract and have no body to model.
- The getters `getDataSetType`, `getInterval`, `getOption`, `getUpdateMethod` and `getSourceType` are functions on the fields. Their contracts are stated through the setters and lemmas above.

## Findings

| source | as written | input that shows it | evidently intended | confidence | as-written member | corrected member |
|---|---|---|---|---|---|---|
| src/Browscap.php:117-118 | `random_int(1, floor(100 / $this->updateProbability))` in a file with `strict_types=1`. `floor` returns a float, and `random_int` requires ints, so the call throws a `TypeError`. | `new Browscap(true)` then `getBrowser('x')`: probability 1.0, the maximum is the float 100.0. | The draw range [1, intdiv(100, p)] with integer bounds. | not executed | Facade.UpdateCheckAsWrittenThrows | Facade.UpdateCheckCorrected |
