# ga_pipeline request-to-job core, modelled in Dafny

This project models the request-to-job path of the PFS Galactic Archaeology
pipeline (`ga_pipeline`). A request names objects through command-line ID
filters. The pipeline then recovers object identities from product file
names, builds one pipeline configuration per object, and runs a tree of
pipeline steps on each object under critical and skip rules. Finally it
generates Slurm batch jobs and folds the per-object outputs into one catalog.

The model is organised by the components of the program:

- **Filters** (`values.dfy`, `filters.dfy`, `searchfilter.dfy`,
  `idfilter.dfy`, with `digits.dfy`, `dates.dfy` and `text.dfy` below them).
  These cover `SearchFilter` with its int, hex, string and date subclasses,
  and the older `IDFilter` family. Tokens become scalars or inclusive
  `lo-hi` ranges. A value matches a scalar it equals or a range it lies in.
  An empty filter matches everything. The entries render back to text and
  to glob patterns.
- **Product names and the locator** (`grammar.dfy`, `tables.dfy`,
  `tablenames.dfy`, `locator.dfy`, `connector.dfy`, `discovery.dfy`,
  `identity.dfy`, `sorting.dfy`).
  - The file-name grammar of every product table is proved to round-trip:
    render a name, then parse it, and you get the same values back.
  - The find-and-filter loop and the 0/1/many single-file rule are modelled.
  - So are the data and rerun directory discovery, `FileSystemConnector`,
    `FileSystemDiscovery`, and the identity text and visit enumeration of
    the target configuration.
- **Configuration** (`configs.dfy`, `configure.dfy`, `priors.dfy`,
  `photometry.dfy`, `grouping.dfy`).
  - The configuration base class covers the deep merge, loading from a
    dictionary and wrapping into configuration classes.
  - The configure script covers the required-products visit mask, the
    priors and photometry rules, and the `top` cutoff.
  - The older `configure.py` script groups pfsSingle files into objects
    with their visits sorted.
- **Steps** (`runner.dfy`, `gapipeline.dfy`, `loadstep.dfy`,
  `rvfitstep.dfy`, `tempfitstep.dfy`, `coaddstep.dfy`, `savestep.dfy`,
  `ga1dpipeline.dfy`).
  - The step runner has success, skip-remaining and skip-substeps results,
    records exceptions, and turns a failed critical step into a
    PipelineError.
  - The `GAPipeline` product cache and spectrum extraction are modelled.
  - So are the load, RV-fit, template-fit, coadd and save steps, and the
    legacy single-object pipeline.
- **Orchestration** (`jobs.dfy`, `runscript.dfy`, `catalog.dfy`).
  - The submit and batch scripts write sbatch files under the `top` cutoff
    and honour dry-run mode.
  - In the run script, command-line directories take precedence over a
    configuration's.
  - The catalog script requires a single catId and lists visits once each,
    in the order first seen. It also counts the visits of each arm and
    skips missing outputs.

Python exceptions become `Fail(kind)` values of the `Result` datatype in
`wrappers.dfy`. The following are parameters of the model:

- everything outside the program: the file system, the data repositories,
  FITS reading, `sbatch`, `calculatePfsVisitHash` and `wraparoundNVisit`;
- the process working directory, which `os.path.abspath` reads (`cwd`);
  `abspath` and `normpath` themselves are modelled on their POSIX
  definitions;
- all numerics: fits, PSFs, grids, masks and stacking.

Objects whose methods update fields in place are Dafny classes. Examples are
the filters, `Pipeline`, the per-object pipeline state and the scripts.
Their loops are methods proved against specification functions. Logic that
only computes a value is written as functions and lemmas.

Some behaviours of the code are worth noting; in each case the model
follows it:

- Filter ranges are not reordered: a range with `lo > hi` matches nothing.
- Hexadecimal tokens do not need a `0x` prefix.
- A malformed token raises ValueError.
- The patch is a free-text field.
- The catalog keeps the objects in the order they are found. Objects with
  different catIds are rejected with ValueError, rather than sorted and
  de-duplicated.
- A batch job carries the partition, CPU, memory and time settings only.
- Materialisation, job status tracking and retries are not part of the code
  this project models.

## Model

| member | source | states |
|---|---|---|
| Digits.ToDigits | python/pfs/ga/pipeline/data/hexfilter.py:11 | the shortest lower-case digit string of a number, whose value in the base is that number |
| Digits.FormatParseRoundTrip | python/pfs/ga/pipeline/data/hexfilter.py:11-16 | a number rendered with a zero-padded decimal or hex format code parses back (`int(s)` / `int(s, 16)`) to the same number, for every width |
| Digits.LeadingZerosIgnored | python/pfs/ga/pipeline/data/intfilter.py:9-10 | leading zeros do not change what a digit token parses to |
| Digits.HexPrefixIgnored | python/pfs/ga/pipeline/data/hexfilter.py:15-16 | `int(s, 16)` accepts and ignores a `0x`/`0X` prefix |
| Digits.HexCaseInsensitive | python/pfs/ga/pipeline/data/hexfilter.py:15-16 | hex digits read the same in upper and lower case |
| Digits.DigitsLength | python/pfs/ga/pipeline/data/hexfilter.py:11 | a number fits in `w` digits exactly when it is below `base^w` (both directions) |
| Digits.FormatWidth | python/pfs/ga/pipeline/data/hexfilter.py:11 | an in-range number renders to exactly `width` lower-case digits |
| Digits.RenderCanonical | python/pfs/ga/pipeline/data/hexfilter.py:11-16 | a `w`-digit field, parsed and rendered again with width `w`, gives its own lower-cased text |
| Dates.ParseFullDate | python/pfs/ga/pipeline/data/datefilter.py:16-18 | `date.fromisoformat` as in Python 3.10 and earlier, on `YYYY-MM-DD`: only valid calendar dates are returned, anything else is the ValueError |
| Dates.FormatThenParse | python/pfs/ga/pipeline/data/datefilter.py:12-18 | every valid date rendered with `{:%Y-%m-%d}` parses back to the same date |
| Dates.ParseThenFormat | python/pfs/ga/pipeline/data/datefilter.py:16-18 | the Python 3.10 parser accepts only canonical text: what it reads renders back to the same string |
| Values.ParseValue | python/pfs/ga/pipeline/data/searchfilter.py:110-114 | `_parse_value` of each filter kind: strings unchanged, integers and hex numbers as integers, dates as valid dates; only the numeric and date kinds can raise ValueError |
| Values.Render | python/pfs/ga/pipeline/data/searchfilter.py:58-60 | `fmt.format(v)` keeps the format's literal prefix; ValueError exactly for a string under a numeric or date code and an integer under the date code; a date under a numeric code renders the code's own text, as `strftime` does |
| Values.LessEq | python/pfs/ga/pipeline/data/searchfilter.py:148 | `a <= b` raises TypeError exactly when the two values are of different types |
| Values.DecimalRoundTrip | python/pfs/ga/pipeline/data/intfilter.py:9-10 | `int` of a zero-padded decimal rendering is the number |
| Values.HexRoundTrip | python/pfs/ga/pipeline/data/hexfilter.py:11-16 | `int(s, 16)` of a zero-padded hex rendering is the number |
| Values.PrefixedHexRoundTrip | python/pfs/ga/pipeline/util/hexidfilter.py:11-16 | the default `0x{:x}` rendering of HexIDFilter parses back to the number |
| Values.ZeroPaddedTokens | python/pfs/ga/pipeline/data/intfilter.py:9-10 | a zero-padded decimal token reads as the same number as the unpadded one |
| Values.HexTokensNumeric | python/pfs/ga/pipeline/data/hexfilter.py:15-16 | hex tokens compare as numbers: padding and letter case do not change the value |
| Values.DateRoundTrip | python/pfs/ga/pipeline/data/datefilter.py:12-18 | the default date format renders a date that parses back to it |
| Text.Count | python/pfs/ga/pipeline/data/datefilter.py:30 | `a.count('-')` is zero exactly when the character does not occur, and never exceeds the length |
| Text.Split | python/pfs/ga/pipeline/data/searchfilter.py:126 | `s.split(c)` always gives at least one part |
| Text.SplitLength | python/pfs/ga/pipeline/data/searchfilter.py:126 | `s.split(c)` has one more part than `s` has separators |
| Text.JoinSplit | python/pfs/ga/pipeline/data/datefilter.py:34-35 | joining the parts of a split with the separator gives the string back |
| Text.SplitPartsFree | python/pfs/ga/pipeline/data/datefilter.py:34 | no part of a split contains the separator |
| Text.JoinThenSplit | python/pfs/ga/pipeline/data/datefilter.py:34-35 | splitting the join of separator-free parts gives the parts back |
| Filters.SplitRange | python/pfs/ga/pipeline/data/searchfilter.py:125-127 | `start, end = a.split('-')` succeeds exactly when the token has one dash, with dash-free ends that rebuild the token; otherwise ValueError |
| Filters.RangeOf | python/pfs/ga/pipeline/data/searchfilter.py:126-127 | a range entry exists exactly when both ends parse, and holds the parsed ends |
| Filters.ScalarOf | python/pfs/ga/pipeline/data/searchfilter.py:128-129 | a scalar entry exists exactly when the token parses, and holds the parsed value |
| Filters.ParseToken | python/pfs/ga/pipeline/data/searchfilter.py:124-129 | one token of `_parse`: a range exactly when the token has a dash (five dashes for dates), a token with two or more dashes is ValueError outside dates, and entries are of the filter's kind |
| Filters.DateRangeToken | python/pfs/ga/pipeline/data/datefilter.py:30-36 | two dates joined by a dash have five dashes and split back into the two dates after the third dash |
| Filters.PlainRangeToken | python/pfs/ga/pipeline/data/searchfilter.py:125-127 | `lo-hi` with dash-free ends splits back into its ends |
| Filters.ParseTokens | python/pfs/ga/pipeline/data/searchfilter.py:116-129 | the `_parse` loop: the entries of the longest prefix of tokens that parse, in order, and the first failing token's error; no failure exactly when every token parsed |
| Filters.ParseArgs | python/pfs/ga/pipeline/data/searchfilter.py:121-123 | a None argument leaves an empty list of values |
| Filters.FirstFailure | python/pfs/ga/pipeline/data/searchfilter.py:124-129 | the first failing token decides the outcome: later tokens are never read |
| Filters.ParseAll | python/pfs/ga/pipeline/data/searchfilter.py:116-129 | the parse loop appends one entry per token and stops at the first failure, giving exactly `ParseTokens` |
| Filters.MatchEntries | python/pfs/ga/pipeline/data/searchfilter.py:147-153 | the entry loop of `match` can fail only with the TypeError of comparing values of different types |
| Filters.MatchMeaning | python/pfs/ga/pipeline/data/searchfilter.py:134-153 | with comparable entries, `match` is True exactly when some entry equals the value or is a range containing it |
| Filters.MatchAll | python/pfs/ga/pipeline/data/searchfilter.py:147-153 | the search loop, returning on the first entry that accepts, gives exactly `MatchEntries` |
| Filters.InvertedRangeEmpty | python/pfs/ga/pipeline/data/searchfilter.py:148 | a range written backwards accepts no value |
| Filters.ProbeValue | python/pfs/ga/pipeline/data/searchfilter.py:139-142 | a string argument is parsed with the filter's kind, any other argument is used as it is |
| Filters.MatchProbe | python/pfs/ga/pipeline/data/searchfilter.py:134-145 | `match`: an argument that does not parse raises; otherwise an empty or unset filter accepts everything |
| Filters.RenderEntry | python/pfs/ga/pipeline/data/searchfilter.py:57-60 | a scalar renders with the format; a range renders as its two formatted ends around one dash |
| Filters.RenderFilter | python/pfs/ga/pipeline/data/searchfilter.py:46-63 | `__str__` is `''` for an unset filter, and the entry loop otherwise |
| Filters.RenderIsSpaceJoin | python/pfs/ga/pipeline/data/searchfilter.py:51-61 | when no entry renders empty, `__str__` is the entry texts joined by single spaces |
| Filters.RenderAll | python/pfs/ga/pipeline/data/searchfilter.py:51-61 | the accumulation loop gives exactly `RenderEntries` |
| Filters.RenderFailureSticks | python/pfs/ga/pipeline/data/searchfilter.py:53-60 | the first entry that fails to render makes `__str__` fail with its error |
| Filters.EntryRoundTrip | python/pfs/ga/pipeline/data/searchfilter.py:57-60 | an entry whose values re-parse renders to a non-empty, space-free token that parses back to the entry |
| Filters.StrParseRoundTrip | python/pfs/ga/pipeline/data/searchfilter.py:46-63 | rendering a filter with `str()` and parsing its space-separated tokens gives back its entries |
| Filters.DecimalReparses | python/pfs/ga/pipeline/data/intfilter.py:9-10 | integer values under a zero-padded decimal format satisfy the round trip's premise |
| Filters.HexReparses | python/pfs/ga/pipeline/data/hexfilter.py:11-16 | integer values under the hex format satisfy the round trip's premise |
| Filters.PrefixedHexReparses | python/pfs/ga/pipeline/util/hexidfilter.py:11-16 | integer values under `0x{:x}` satisfy the round trip's premise |
| Filters.DateReparses | python/pfs/ga/pipeline/data/datefilter.py:12-18 | valid dates under `{:%Y-%m-%d}` satisfy the round trip's premise |
| Filters.StringReparses | python/pfs/ga/pipeline/data/stringfilter.py:11-12 | non-empty strings without space or dash satisfy the round trip's premise |
| Filters.GlobPattern | python/pfs/ga/pipeline/data/searchfilter.py:155-163 | `get_glob_pattern`: the formatted value when the filter holds exactly one scalar, otherwise the wildcard |
| Filters.DateGlob | python/pfs/ga/pipeline/data/datefilter.py:41-49 | the date wildcard `????-??-??` matches every rendered date |
| Filters.GlobSound | python/pfs/ga/pipeline/data/searchfilter.py:155-163 | the glob never loses a file the filter accepts: each accepted value renders to a name component the glob matches |
| SearchFilters.Normalize | python/pfs/ga/pipeline/data/searchfilter.py:25-44 | `_normalize_values`: None stays None, a filter gives its values, a string or scalar becomes a one-entry list, an empty list becomes None, a single nested filter gives its values, any other list is kept in order |
| SearchFilters.NormalizeIdempotent | python/pfs/ga/pipeline/data/searchfilter.py:92-98 | normalising a normal form changes nothing, so setting `values` to a filter's own values is idempotent |
| SearchFilters.KindDefault | python/pfs/ga/pipeline/data/hexfilter.py:9-13 | only the hex and date subclasses fill in a default format |
| SearchFilters.SearchFilter.constructor | python/pfs/ga/pipeline/data/searchfilter.py:15-23 | values always come from the positional arguments; name and format fall back to `orig`'s, then to the subclass default, then to `{}` |
| SearchFilters.SearchFilter.SetValues | python/pfs/ga/pipeline/data/searchfilter.py:95-96 | the `values` setter stores the normalised input and changes nothing else |
| SearchFilters.SearchFilter.SingleValue | python/pfs/ga/pipeline/data/searchfilter.py:100-106 | `value` is None exactly without values, the scalar exactly when there is one scalar, ValueError otherwise |
| SearchFilters.SearchFilter.Parse | python/pfs/ga/pipeline/data/searchfilter.py:116-132 | `parse` resets the values and leaves the entries of every token before the first failing one, with that token's error |
| SearchFilters.SearchFilter.Match | python/pfs/ga/pipeline/data/searchfilter.py:134-153 | `match` is `MatchProbe` over the current values |
| SearchFilters.SearchFilter.ToString | python/pfs/ga/pipeline/data/searchfilter.py:46-63 | `__str__` is `RenderFilter` of the format and the current values |
| IdFilters.RenderSlot | python/pfs/ga/pipeline/util/idfilter.py:28-37 | values render through the format text; a filter object in the format slot raises TypeError as soon as one value is rendered |
| IdFilters.IdFilter.constructor | python/pfs/ga/pipeline/util/idfilter.py:13-21 | values start as None; name and format come from the arguments, else from `orig`, with `{}` as the default format |
| IdFilters.IdFilter.Hex | python/pfs/ga/pipeline/util/hexidfilter.py:9-13 | `HexIDFilter(format, orig)` passes its format text on as the name and `orig` as the format, so the name is `0x{:x}` by default and the format is `{}` without `orig` |
| IdFilters.IdFilter.Parse | python/pfs/ga/pipeline/util/idfilter.py:66-79 | `parse` resets the values and keeps the entries before the first failing token |
| IdFilters.IdFilter.Match | python/pfs/ga/pipeline/util/idfilter.py:81-100 | before any parse `len(None)` raises TypeError; after one, `match` is `MatchProbe` over the values |
| IdFilters.IdFilter.Glob | python/pfs/ga/pipeline/util/idfilter.py:102-110 | TypeError before any parse; otherwise the formatted single scalar or `*` |
| IdFilters.IdFilter.ToString | python/pfs/ga/pipeline/util/idfilter.py:23-37 | iterating unset values raises TypeError; otherwise the values render through the format slot |
| IdFilters.HexIdDefaultGlobIsDecimal | python/pfs/ga/pipeline/util/hexidfilter.py:9-13 | a default `HexIDFilter` renders its single value with `{}`, in decimal, which differs from the hex text from 10 on |
| IdFilters.SameDigitsLarger | python/pfs/ga/pipeline/util/hexidfilter.py:15-16 | a decimal digit string read in base 16 is at least as large, and strictly larger from 10 on |
| Grammar.MatchElems | python/pfs/ga/pipeline/data/filesystemconfig.py:87 | a run of fixed-width fields and literals matches only text of its total width, and captures only the groups it names |
| Grammar.EndingExt | python/pfs/ga/pipeline/data/filesystemconfig.py:87 | the `\.(fits\|fits\.gz)$` alternation: the extension returned ends the name; none is returned only when no alternative ends it |
| Grammar.LeftmostHead | python/pfs/ga/pipeline/data/filesystemconnector.py:106 | `re.search` settles on the leftmost start where the head fits, and there is no earlier one |
| Grammar.Search | python/pfs/ga/pipeline/data/filesystemconnector.py:106 | `re.search` on a product expression finds a match only when the name ends with one of its extensions, and then captures the free (patch) group |
| Grammar.SearchKeys | python/pfs/ga/pipeline/data/filesystemconnector.py:106 | a match captures only the groups the expression defines |
| Grammar.SearchFixedParts | python/pfs/ga/pipeline/data/filesystemconnector.py:106 | on a name made of a matching head, tail and extension, `re.search` returns exactly the head's and tail's captures |
| Grammar.SearchFreeParts | python/pfs/ga/pipeline/data/filesystemconnector.py:106 | with a free group, `re.search` on head + free text + tail + extension captures the free text itself |
| Grammar.ParseParams | python/pfs/ga/pipeline/data/filesystemconnector.py:108 | `{k: p.parse_value(match.group(k))}` succeeds exactly when every parameter's group exists and parses, giving the values in parameter order; otherwise IndexError or ValueError |
| Grammar.ParseFilename | python/pfs/ga/pipeline/data/filesystemconnector.py:101-110 | `__parse_filename_params`: a name the expression does not match raises ValueError, a match is parsed parameter by parameter |
| Grammar.MissingGroupNeverParses | python/pfs/ga/pipeline/data/filesystemconnector.py:108 | a parameter whose group the expression lacks makes every name fail to parse |
| Grammar.CapsParse | python/pfs/ga/pipeline/data/filesystemconnector.py:108 | captures that read back as the values, with every parameter captured, parse to exactly those values |
| Grammar.RenderVar | python/pfs/ga/pipeline/data/filesystemconfig.py:90 | a `{name}` field of a template raises KeyError exactly when no parameter has that name |
| Grammar.RenderPieces | python/pfs/ga/pipeline/data/filesystemconfig.py:90 | `filename_format.format(...)` succeeds exactly when every piece renders |
| Grammar.FieldReparses | python/pfs/ga/pipeline/data/filesystemconfig.py:80-87 | an in-range value renders, with its filter's format, into its field's character classes and reads back as itself |
| Grammar.DateFitsShape | python/pfs/ga/pipeline/data/filesystemconfig.py:40 | every rendered date fits `\d{4}-\d{2}-\d{2}` |
| Grammar.ElemsRoundTrip | python/pfs/ga/pipeline/data/filesystemconfig.py:86-90 | a run of template pieces that agree with the expression pieces renders to text those pieces match, with captures that read back as the values |
| Grammar.EndsWithExt | python/pfs/ga/pipeline/data/filesystemconfig.py:87 | under mutually exclusive extensions, the extension a name ends with is the one the alternation picks |
| Grammar.NameParts | python/pfs/ga/pipeline/data/filesystemconfig.py:87-90 | a rendered name splits into head, free text, tail and extension, each matching its part of the expression |
| Grammar.NameRoundTrip | python/pfs/ga/pipeline/data/filesystemconfig.py:86-90 | when a template agrees with its expression field by field and covers every parameter, rendering in-range values and parsing the name gives the values back |
| Tables.PfsFileSystemConfig | python/pfs/ga/pipeline/repo/pfsfilesystemconfig.py:13-41 | the extended table keeps every base product unchanged and adds the GA1DPipelineConfig entry, over the three work variables |
| Tables.WorkVariablesNamed | python/pfs/ga/pipeline/repo/pfsfilesystemconfig.py:15-19 | exactly the workdir, datadir and rerundir variables |
| TableNames.ObjectRoundTrip | python/pfs/ga/pipeline/data/filesystemconfig.py:94-127 | a per-object name (pfsObject, pfsGAObject), rendered with in-range values and any of its extensions, parses back to those values |
| TableNames.ObjectNameStem | python/pfs/ga/pipeline/constants.py:7 | per-object names are a stem plus extension, and the stems of two products differ only in their leading text |
| TableNames.SingleRoundTrip | python/pfs/ga/pipeline/data/filesystemconfig.py:78-93 | a pfsSingle name parses back to catId, tract, patch, objId and visit |
| TableNames.DesignRoundTrip | python/pfs/ga/pipeline/data/filesystemconfig.py:21-32 | a pfsDesign name parses back to its design identifier |
| TableNames.ConfigDatedRoundTrip | python/pfs/ga/pipeline/data/filesystemconfig.py:33-47 | a date directory with a pfsConfig name under it parses back under the dated expression |
| TableNames.WorkRoundTrip | python/pfs/ga/pipeline/repo/gapipeworkdirconfig.py:37-64 | a work directory name, configuration or result, parses back to catId, objId, nVisit and the visit hash |
| TableNames.CatalogRoundTrip | python/pfs/ga/pipeline/repo/gapipeworkdirconfig.py:66-77 | a pfsGACatalog name parses back to catId, nVisit and the visit hash |
| TableNames.NoDateGroup | python/pfs/ga/pipeline/data/filesystemconfig.py:41 | the expressions without a date directory have no `date` group |
| TableNames.BareFormsNeverParse | python/pfs/ga/pipeline/data/filesystemconfig.py:39-41 | the bare pfsConfig, pfsArm and pfsMerged expressions still list `date` among the parameters, so every name they match fails to parse |
| TableNames.ObjectEntryRoundTrips | python/pfs/ga/pipeline/data/filesystemconfig.py:94-127 | every per-object FITS entry round-trips its names, whatever its root and product |
| TableNames.GA1DConfigEntryRoundTrips | python/pfs/ga/pipeline/data/filesystemconfig.py:129-145 | the pipeline configuration entry round-trips its names |
| TableNames.FileSystemObjectEntries | python/pfs/ga/pipeline/data/filesystemconfig.py:94-145 | the per-object entries of the table are the shared per-object shape |
| TableNames.FileSystemNamedEntries | python/pfs/ga/pipeline/data/filesystemconfig.py:21-93 | the pfsDesign, pfsConfig and pfsSingle entries have the parameters, expressions and templates proved above |
| TableNames.OldTableKeys | python/pfs/ga/pipeline/data/config.py:15-76 | the older table has exactly pfsDesign, pfsConfig, pfsSingle and pfsObject |
| TableNames.OldTableAgrees | python/pfs/ga/pipeline/data/config.py:15-76 | the older table names its files as the newer one does; only the directories differ |
| Locator.JoinPathsPlain | python/pfs/ga/pipeline/data/filesystemconnector.py:126 | for parts without leading separators `os.path.join` is `'/'.join` |
| Locator.FirstIndex | python/pfs/ga/pipeline/data/filesystemconnector.py:169 | `dirs.index(x)` is the first position holding `x` |
| Locator.DatadirPath | python/pfs/ga/pipeline/data/filesystemconnector.py:162-175 | the path `find_datadir` makes absolute: with a reference path, ValueError exactly when no component is `rerun`; without one, TypeError exactly when no data directory is configured |
| Locator.NormPath | python/pfs/ga/pipeline/data/filesystemconnector.py:173 | `os.path.normpath`: never empty, and absolute when its argument is |
| Locator.AbsPath | python/pfs/ga/pipeline/data/filesystemconnector.py:173 | `os.path.abspath` in a working directory: never empty, and absolute when the working directory is |
| Locator.ResolvePlain | python/pfs/ga/pipeline/data/filesystemconnector.py:173 | `normpath` pushes plain components (not empty, `.`, `..`, no separator) unchanged |
| Locator.ResolveRootedPlain | python/pfs/ga/pipeline/data/filesystemconnector.py:173 | in an absolute path `normpath` keeps only plain components: every `..` is resolved or dropped |
| Locator.NormPathFixes | python/pfs/ga/pipeline/data/filesystemconnector.py:173 | `normpath` leaves a normal absolute path (`/` or `/` followed by plain components) unchanged |
| Locator.NormPathNormal | python/pfs/ga/pipeline/data/filesystemconnector.py:173 | `normpath` of a path with exactly one leading separator is a normal absolute path |
| Locator.AbsPathNormal | python/pfs/ga/pipeline/data/filesystemconnector.py:173 | `abspath` in a normal working directory gives a normal absolute path, unless the argument starts with exactly `//` |
| Locator.AbsPathOfNormal | python/pfs/ga/pipeline/data/filesystemconnector.py:173 | `abspath` returns a normal absolute path unchanged, whatever the working directory |
| Locator.AbsPathIdempotent | python/pfs/ga/pipeline/data/filesystemconnector.py:173 | `abspath` is idempotent in a normal working directory |
| Locator.DatadirOf | python/pfs/ga/pipeline/data/filesystemconnector.py:162-175 | `find_datadir`: with a reference path, ValueError exactly when no component is `rerun`; without one, TypeError exactly when no data directory is configured; a result is absolute when the working directory is |
| Locator.DatadirRoundTrip | python/pfs/ga/pipeline/data/filesystemconnector.py:162-173 | a file below `<d>/rerun/` gives back `abspath(d)` whatever follows, when no component of `d` is `rerun`; a normal absolute `d` comes back unchanged |
| Locator.FirstPresent | python/pfs/ga/pipeline/data/filesystemconnector.py:183-187 | the first product of the list present among the components, or none exactly when no product is present |
| Locator.ScanRerunIndex | python/pfs/ga/pipeline/data/filesystemconnector.py:183-187 | the search loop leaves `rerun_index` at -1 when no product is present, else at the first index of the first product present |
| Locator.RerundirPath | python/pfs/ga/pipeline/data/filesystemconnector.py:177-194 | the path `find_rerundir` makes absolute: ValueError exactly when no product directory is among the components; without a reference path, TypeError exactly when a directory is missing |
| Locator.RerundirOf | python/pfs/ga/pipeline/data/filesystemconnector.py:177-194 | `find_rerundir`: ValueError exactly when no product directory is among the components; without a reference path, TypeError exactly when a directory is missing; a result is absolute when the working directory is |
| Locator.RerundirRoundTrip | python/pfs/ga/pipeline/data/filesystemconnector.py:177-192 | a file below `<r>/<product>/` gives back `abspath(r)` when no other component is a product directory; a normal absolute `r` comes back unchanged |
| Locator.RerundirFollowsListOrder | python/pfs/ga/pipeline/data/filesystemconnector.py:184-187 | an example of list order winning over path order: a deeper pfsArm directory wins over an earlier pfsSingle one |
| Locator.CheckPrefixMeans | python/pfs/ga/pipeline/data/filesystemconnector.py:143-145 | the per-parameter loop succeeds exactly when every group parses and can be compared, holds the parsed values, and its verdict is True exactly when every filter matches |
| Locator.CheckMeansParse | python/pfs/ga/pipeline/data/filesystemconnector.py:143-145 | when the loop succeeds its values are those `__parse_filename_params` gives for the same match |
| Locator.CheckGroups | python/pfs/ga/pipeline/data/filesystemconnector.py:142-145 | the loop over the parameters of one matched name computes exactly `CheckPrefix` over all of them |
| Locator.Collect | python/pfs/ga/pipeline/data/filesystemconnector.py:136-150 | the path loop keeps at most one row per path |
| Locator.Keep | python/pfs/ga/pipeline/data/filesystemconnector.py:138-150 | one path contributes nothing (no match or a filter rejects), its row, or the exception its parameters raise |
| Locator.CollectSound | python/pfs/ga/pipeline/data/filesystemconnector.py:136-150 | every row kept is one of the paths, parses to its values and passes every filter |
| Locator.KeepSound | python/pfs/ga/pipeline/data/filesystemconnector.py:138-150 | a row kept for one path is that path with values it parses to and every filter accepts |
| Locator.CollectComplete | python/pfs/ga/pipeline/data/filesystemconnector.py:136-150 | every path that parses and passes every filter is kept with its values |
| Locator.AcceptedChecks | python/pfs/ga/pipeline/data/filesystemconnector.py:142-145 | for an accepted name the parameter loop gives its values and the verdict True, so the name is kept as one row |
| Locator.CollectSkipsUnmatched | python/pfs/ga/pipeline/data/filesystemconnector.py:138-140 | names the expression does not match are skipped, never an error |
| Locator.CollectAppend | python/pfs/ga/pipeline/data/filesystemconnector.py:136-150 | rows keep path order: the rows for a concatenation of path lists are the concatenated rows |
| Locator.FailureSticks | python/pfs/ga/pipeline/data/filesystemconnector.py:136-150 | an exception raised on a prefix of the paths is the exception of the whole search |
| Locator.AlignedExtend | python/pfs/ga/pipeline/data/filesystemconnector.py:147-150 | appending a row's path to the file list and each value to its id list keeps them aligned with the rows |
| Locator.FindFiles | python/pfs/ga/pipeline/data/filesystemconnector.py:132-152 | the loop fills the file list and the per-parameter id lists exactly as `Collect` describes, or raises its first exception |
| Locator.GlobTable | python/pfs/ga/pipeline/data/filesystemconnector.py:123 | `{k: p.get_glob_pattern()}` succeeds exactly when every filter's pattern does, one pattern per parameter |
| Locator.GlobTemplates | python/pfs/ga/pipeline/data/filesystemconnector.py:126 | every directory and file template formatted with the glob patterns, or the first exception |
| Locator.RenderTemplates | python/pfs/ga/pipeline/data/filesystemconnector.py:126 | every template formatted with the values of one file |
| Locator.GlobPiecesSound | python/pfs/ga/pipeline/data/filesystemconnector.py:126 | for admitted values a formatted template's glob matches the name the template renders |
| Locator.GlobTemplatesSound | python/pfs/ga/pipeline/data/filesystemconnector.py:126 | each template's glob matches its rendering |
| Locator.GlobPathSound | python/pfs/ga/pipeline/data/filesystemconnector.py:123-129 | the glob never hides a file the search would keep: for admitted values it matches the path the templates give |
| Locator.GlobFiles | python/pfs/ga/pipeline/data/filesystemconnector.py:129 | `glob(pattern)` over a listing: exactly the listed names the pattern matches, in listing order |
| Locator.FindFilesAndMatch | python/pfs/ga/pipeline/data/filesystemconnector.py:112-152 | `__find_files_and_match_params`: a glob error is raised as it is; otherwise the result is aligned with `Collect` over the globbed names |
| Locator.FindsEveryAdmittedFile | python/pfs/ga/pipeline/data/filesystemconnector.py:112-152 | a listed file whose name the templates give for admitted values, and which the name check accepts, is among the rows found |
| Locator.SingleFile | python/pfs/ga/pipeline/data/filesystemconnector.py:154-160 | `__get_single_file`: FileNotFoundError unless exactly one file; then the file and the first entry of every id list |
| Locator.SingleFileOfSearch | python/pfs/ga/pipeline/data/filesystemconnector.py:154-160 | on a search result a single file comes back exactly when one name passed, with that name's own values |
| Locator.PickOne | python/pfs/ga/pipeline/discovery/filesystemdiscovery.py:149-154 | exactly one candidate path is returned; zero or several raise FileNotFoundError |
| Locator.SingleFileAgrees | python/pfs/ga/pipeline/discovery/filesystemdiscovery.py:149-154 | the connector and the discovery select the same path whenever the connector finds one, and fail alike otherwise |
| Connectors.LoadFailure | python/pfs/ga/pipeline/data/filesystemconnector.py:236-262 | `load_pfsDesign`/`load_pfsConfig` raise ValueError exactly when both a path and an identity are given, and AttributeError (the missing `Constants` format) otherwise |
| Connectors.FindProduct | python/pfs/ga/pipeline/data/filesystemconnector.py:209-216 | a product finder always raises: the data directory's error first, else the AttributeError of the missing `Constants` glob |
| Connectors.Connector.constructor | python/pfs/ga/pipeline/data/filesystemconnector.py:20-46 | a fresh connector keeps the given directories and makes unrestricted filters with the fixed names and formats; a copy shares `orig`'s filters and falls back to its directories |
| Connectors.Connector.SetDatadir | python/pfs/ga/pipeline/data/filesystemconnector.py:53-54 | the `datadir` setter changes only the data directory |
| Connectors.Connector.SetRerundir | python/pfs/ga/pipeline/data/filesystemconnector.py:61-62 | the `rerundir` setter changes only the rerun directory |
| Connectors.Connector.SetPatch | python/pfs/ga/pipeline/data/filesystemconnector.py:84-85 | the `patch` setter changes only the patch filter |
| Connectors.Connector.FindDatadir | python/pfs/ga/pipeline/data/filesystemconnector.py:162-175 | a reference path decides alone; without one, `abspath` of the configured data directory, TypeError when unset |
| Connectors.Connector.FindRerundir | python/pfs/ga/pipeline/data/filesystemconnector.py:177-194 | a reference path decides alone; without one, `abspath` of the rerun directory joined onto the data directory |
| Connectors.Connector.FindPfsDesign | python/pfs/ga/pipeline/data/filesystemconnector.py:196-216 | `find_pfsDesign` always raises: the data directory's error, else AttributeError |
| Connectors.Connector.GetPfsDesign | python/pfs/ga/pipeline/data/filesystemconnector.py:218-234 | `get_pfsDesign` raises the finder's error before any single-file selection |
| Connectors.Connector.FindPfsConfig | python/pfs/ga/pipeline/data/filesystemconnector.py:264-288 | `find_pfsConfig` always raises: the data directory's error, else AttributeError |
| Connectors.Connector.GetPfsConfig | python/pfs/ga/pipeline/data/filesystemconnector.py:290-311 | `get_pfsConfig` raises the finder's error |
| Discoveries.CallWithKeywords | python/pfs/ga/pipeline/util/hexidfilter.py:9 | a call raises TypeError exactly when it passes a keyword the callee does not declare |
| Discoveries.Discovery.Create | python/pfs/ga/pipeline/discovery/filesystemdiscovery.py:16-40 | a fresh discovery raises TypeError at `HexIDFilter(name=...)`; a copy shares `orig`'s filters and falls back to its directories |
| Discoveries.Discovery.Copy | python/pfs/ga/pipeline/discovery/filesystemdiscovery.py:31-40 | the copy branch: directories fall back to `orig`'s, every filter is `orig`'s own |
| Discoveries.Discovery.Intended | python/pfs/ga/pipeline/discovery/filesystemdiscovery.py:21-30 | the fresh construction the class expects: every filter named and formatted as written, no patch filter |
| Discoveries.Discovery.FindDatadir | python/pfs/ga/pipeline/discovery/filesystemdiscovery.py:95-108 | as the connector's: a reference path decides alone, else `abspath` of the configured directory |
| Discoveries.Discovery.FindRerundir | python/pfs/ga/pipeline/discovery/filesystemdiscovery.py:110-127 | as the connector's: a reference path decides alone, else `abspath` of the joined directories |
| Discoveries.Discovery.FindPfsDesign | python/pfs/ga/pipeline/discovery/filesystemdiscovery.py:129-142 | always raises: the data directory's error, else AttributeError of the missing `Constants` glob |
| Discoveries.Discovery.GetPfsDesign | python/pfs/ga/pipeline/discovery/filesystemdiscovery.py:144-154 | without an id it reads `.value`, which `IDFilter` lacks (AttributeError); with one it raises the finder's error |
| Discoveries.Discovery.FindPfsConfig | python/pfs/ga/pipeline/discovery/filesystemdiscovery.py:156-181 | always raises: the data directory's error, else AttributeError |
| Discoveries.Discovery.GetPfsConfig | python/pfs/ga/pipeline/discovery/filesystemdiscovery.py:183-210 | a missing id or visit reads the missing `.value`; otherwise the finder's error |
| Sorting.Insert | python/pfs/ga/pipeline/gapipe/config/gapipelineconfig.py:200 | inserting into an ascending list keeps it ascending and adds exactly the one element |
| Sorting.Sort | python/pfs/ga/pipeline/gapipe/config/gapipelineconfig.py:200 | `sorted(visits)`: ascending, and a permutation of the input |
| Sorting.AscendingUnique | python/pfs/ga/pipeline/gapipe/config/gapipelineconfig.py:200 | two ascending lists with the same elements are equal, so the sorted order is unique |
| Sorting.StrTotal | python/pfs/ga/pipeline/scripts/configure.py:180 | Python's `<=` on strings is total |
| Sorting.StrTransitive | python/pfs/ga/pipeline/scripts/configure.py:180 | Python's `<=` on strings is transitive |
| Sorting.StrAntisymmetric | python/pfs/ga/pipeline/scripts/configure.py:180 | Python's `<=` on strings is antisymmetric |
| Sorting.InsertStr | python/pfs/ga/pipeline/scripts/configure.py:180 | inserting a string into an ascending list keeps it ascending and adds exactly that string |
| Sorting.SortStrings | python/pfs/ga/pipeline/scripts/configure.py:180 | `files.sort()`: ascending and a permutation of the input |
| SortedKeys.Least | python/pfs/ga/pipeline/gapipe/steps/rvfitstep.py:199 | the least element of a non-empty set is in it and below every element |
| SortedKeys.Ascend | python/pfs/ga/pipeline/gapipe/steps/rvfitstep.py:199 | `sorted(keys)`: strictly ascending, one entry per key, every entry a key |
| SortedKeys.AscendHas | python/pfs/ga/pipeline/gapipe/steps/rvfitstep.py:199 | every key is listed |
| Identity.IdentityText | python/pfs/ga/pipeline/gapipe/config/gaobjectidentityconfig.py:25-27 | `str(identity)` is None exactly when nVisit or the hash is missing; a missing catId, tract or objId otherwise raises TypeError |
| Identity.CompleteText | python/pfs/ga/pipeline/gapipe/config/gaobjectidentityconfig.py:27 | a complete identity renders field by field as catId (5 digits), tract (5), patch as is, objId (16 hex), nVisit (3) and the hash (16 hex after `0x`) |
| Identity.IdentityIsStem | python/pfs/ga/pipeline/constants.py:7 | the per-object name template renders, after any leading text, as exactly `str(identity)` |
| Identity.IdentityNameRoundTrip | python/pfs/ga/pipeline/data/filesystemconfig.py:94-127 | a per-object file name built from `str(identity)` reads back as that identity when its fields fit their widths |
| Identity.VisitIdentity | python/pfs/ga/pipeline/gapipe/config/gatargetconfig.py:30-37 | the identity dictionary of one visit: the four stored fields plus `visit` |
| Identity.GetIdentity | python/pfs/ga/pipeline/gapipe/config/gatargetconfig.py:27-45 | `get_identity`: a scalar visit adds `visit`; a list reads the missing `self.observation` (AttributeError); None reaches `len(None)` (TypeError) |
| Identity.EnumerateVisits | python/pfs/ga/pipeline/gapipe/config/gapipelineconfig.py:195-202 | one item per visit, duplicates kept, in ascending visit order, numbered from 0, each with its visit's identity |
| Runner.Outcome | python/pfs/ga/pipeline/common/pipeline.py:236-243 | a worker either returns its results or raises, and the outcome says which |
| Runner.ThenAssociative | python/pfs/ga/pipeline/common/pipeline.py:189-219 | running parts one after another does not depend on grouping, so the step loop can be accounted step by step |
| Runner.ThenNothing | python/pfs/ga/pipeline/common/pipeline.py:189-219 | an empty part changes nothing in a run |
| Runner.CallStep | python/pfs/ga/pipeline/common/pipeline.py:221-258 | `__execute_step`: a raised exception, or the failure of a critical step (PipelineError), is recorded with one traceback and turns into `(False, True, True)`; otherwise the worker's own results come back and nothing is recorded |
| Runner.ThenAccounted | python/pfs/ga/pipeline/common/pipeline.py:184-219 | running one part after another keeps one traceback per exception and success as the AND of the workers' successes |
| Runner.RunListAccounted | python/pfs/ga/pipeline/common/pipeline.py:184-219 | every run of a step list records as many tracebacks as exceptions, at most one per call, and succeeds exactly when every called worker succeeded |
| Runner.RunRestAccounted | python/pfs/ga/pipeline/common/pipeline.py:210-217 | the same accounting for the rest of one turn of the loop: the substeps, then the following steps |
| Runner.FirstStepWithoutFunc | python/pfs/ga/pipeline/common/pipeline.py:196-211 | a first step without `func` only builds (and drops) a PipelineError, then reads the unbound `skip_substeps`: UnboundLocalError escapes before any worker runs |
| Runner.SkipRemainingEndsList | python/pfs/ga/pipeline/common/pipeline.py:204-206 | a step whose results ask to skip the remaining steps is the last of its list to run: its substeps and later siblings do not run |
| Runner.SubstepsThenSiblings | python/pfs/ga/pipeline/common/pipeline.py:210-213 | a step that skips nothing runs its substeps, whose own `skip_remaining` stops only the substep list, then the following siblings |
| Runner.SkipSubstepsGoesOn | python/pfs/ga/pipeline/common/pipeline.py:211 | a step whose results skip its substeps goes straight on to the next step |
| Runner.Pipeline.constructor | python/pfs/ga/pipeline/common/pipeline.py:23-34 | a new pipeline keeps its script, configuration and trace and starts with no exceptions and no tracebacks |
| Runner.Pipeline.Update | python/pfs/ga/pipeline/common/pipeline.py:39-46 | `update`: an argument given as None keeps the current value; the recorded exceptions are untouched |
| Runner.Pipeline.ExecuteStep | python/pfs/ga/pipeline/common/pipeline.py:221-258 | the worker's results, with a raised exception and its traceback appended to the two lists |
| Runner.Pipeline.ExecuteSteps | python/pfs/ga/pipeline/common/pipeline.py:184-219 | the loop of `__execute_steps` computes the run of the step list: the AND of the successes, the exceptions and tracebacks it records, or the exception that escapes |
| Runner.Pipeline.Execute | python/pfs/ga/pipeline/common/pipeline.py:147-174 | `execute`: the recorded exceptions and tracebacks are handed to `_save_exceptions` and both lists emptied; an escaping exception leaves them as they are; one traceback per exception throughout |
| GaPipeline.LoadItem | python/pfs/ga/pipeline/gapipe/gapipeline.py:320-336 | one turn of the visit loop: a single-object product is loaded under `[visit][objId]`, a multi-object one under `[visit]`, each only when not cached; any other type raises NotImplementedError |
| GaPipeline.LoadItemCache | python/pfs/ga/pipeline/gapipe/gapipeline.py:320-334 | one turn adds the key the visit asks for, and loads a file exactly when that key was not cached |
| GaPipeline.LoadAll | python/pfs/ga/pipeline/gapipe/gapipeline.py:318-336 | the loop of `load_input_products`: the new cache entry and the count `q` of files loaded |
| GaPipeline.LoadAllFails | python/pfs/ga/pipeline/gapipe/gapipeline.py:335-336 | the loop raises exactly for an unknown product type with at least one visit, and raises NotImplementedError |
| GaPipeline.LoadAllCached | python/pfs/ga/pipeline/gapipe/gapipeline.py:318-334 | after the loop the entry holds what it held plus every key the visits ask for |
| GaPipeline.LoadAllCount | python/pfs/ga/pipeline/gapipe/gapipeline.py:318-334 | `q` is the number of distinct keys the visits ask for that were not cached before the call |
| GaPipeline.LoadAllCachedNoop | python/pfs/ga/pipeline/gapipe/gapipeline.py:322-334 | when every key is cached the loop loads nothing and leaves the entry unchanged |
| GaPipeline.LoadTwice | python/pfs/ga/pipeline/gapipe/gapipeline.py:298-336 | loading the same product twice: the second call loads nothing and changes nothing |
| GaPipeline.Lookup | python/pfs/ga/pipeline/gapipe/gapipeline.py:389-404 | `product_cache[t][visit]` (and `[objId]` for a single-object product): no cache at all is a TypeError, a missing key a KeyError |
| GaPipeline.DesignPassReady | python/pfs/ga/pipeline/gapipe/gapipeline.py:387-393 | with the products loaded, the design loop never raises and goes on exactly when the design has the arm and object |
| GaPipeline.ArrayPassReady | python/pfs/ga/pipeline/gapipe/gapipeline.py:395-417 | with the products loaded, the array loop never raises, goes on exactly when every array has the arm, and reports found exactly when some array was read |
| GaPipeline.ReadSpectrumMeaning | python/pfs/ga/pipeline/gapipe/gapipeline.py:380-417 | `__read_spectrum` with the products loaded gives `(False, None)` exactly when some product lacks the arm, and otherwise reports found exactly when a fiber array (set) is among the products |
| GaPipeline.ReadSpectrumFound | python/pfs/ga/pipeline/gapipe/gapipeline.py:396-409 | a spectrum reported found was read from at least one fiber array (set) |
| GaPipeline.ReadSpectrum | python/pfs/ga/pipeline/gapipe/gapipeline.py:380-417 | the design loop, then the array loop, each with its early return, compute the specified read |
| GaPipeline.FoundCount | python/pfs/ga/pipeline/gapipe/gapipeline.py:431-441 | the number of (visit, arm) pairs whose spectrum is found is at most visits times arms |
| GaPipeline.AvailArms | python/pfs/ga/pipeline/gapipe/gapipeline.py:357-378 | `get_avail_arms`: the union of the arm letters over the visits (none for other product types), or the first visit's lookup error |
| GaPipeline.LastIndex | python/pfs/ga/pipeline/gapipe/gapipeline.py:251 | the index of the last occurrence of a character, or -1 when there is none |
| GaPipeline.SplitExt | python/pfs/ga/pipeline/gapipe/gapipeline.py:251 | `os.path.splitext`: root and extension concatenate back to the path, and the extension is empty or a single dot-led suffix of the last component |
| GaPipeline.LastIndexConcat | python/pfs/ga/pipeline/gapipe/gapipeline.py:251 | the last occurrence in `a + b` is the one in `b` when `b` has one, else the one in `a` |
| GaPipeline.SplitLog | python/pfs/ga/pipeline/gapipe/gapipeline.py:253-255 | a named stem with `.log` appended splits back into that stem and `.log` |
| GaPipeline.JoinNamed | python/pfs/ga/pipeline/gapipe/gapipeline.py:253-255 | joining a directory onto a path with a named last component keeps that component named |
| GaPipeline.LogFileExtension | python/pfs/ga/pipeline/gapipe/gapipeline.py:244-255 | the log file is the log directory (or the work directory) joined with the configuration file's stem, with the extension `.log` |
| GaPipeline.Pipeline.constructor | python/pfs/ga/pipeline/gapipe/gapipeline.py:44-78 | a new pipeline, after `reset`, keeps its arguments and has no product cache |
| GaPipeline.Pipeline.Update | python/pfs/ga/pipeline/gapipe/gapipeline.py:99-103 | `update`: every argument given as None keeps the current value; the cache is untouched |
| GaPipeline.Pipeline.Reset | python/pfs/ga/pipeline/gapipe/gapipeline.py:74-78 | `reset` drops the product cache and changes nothing else |
| GaPipeline.Pipeline.EntryOf | python/pfs/ga/pipeline/gapipe/gapipeline.py:312-316 | the cache entry of a product, empty when there is none, holds data of the product's kind |
| GaPipeline.Pipeline.LoadInputProducts | python/pfs/ga/pipeline/gapipe/gapipeline.py:298-338 | the product's entry is created if missing, then the visit loop runs: the new cache and the count, or NotImplementedError with only the empty entry added; no configuration is an AttributeError |
| GaPipeline.Pipeline.ReadSpectra | python/pfs/ga/pipeline/gapipe/gapipeline.py:419-445 | `read_spectra`: one cell per configured arm and visit, read plus skipped equals visits times arms, read counts the found spectra, every cell holds the spectrum when found and None otherwise; an arm missing from the configuration is the first KeyError |
| GaPipeline.EnumeratedVisits | python/pfs/ga/pipeline/gapipe/config/gapipelineconfig.py:195-202 | the visits enumerated are exactly the observed visits, each with the target's objId |
| GaPipeline.LoadLoop | python/pfs/ga/pipeline/gapipe/gapipeline.py:318-336 | the loop over the visits, run on the product's entry, computes LoadAll; on failure the entry is left as it was |
| GaPipeline.RowFailureMeaning | python/pfs/ga/pipeline/gapipe/gapipeline.py:432-434 | a visit's row raises exactly when one of its arms raises; the error is the first such arm's |
| GaPipeline.GridFailureMeaning | python/pfs/ga/pipeline/gapipe/gapipeline.py:431-441 | `read_spectra` raises exactly when one visit's row raises; the error is the first such visit's |
| GaPipeline.FirstGridFailure | python/pfs/ga/pipeline/gapipe/gapipeline.py:431-441 | with no earlier visit raising, the grid raises what visit `i` raises, or nothing once all are read |
| GaPipeline.StoreRow | python/pfs/ga/pipeline/gapipe/gapipeline.py:436-441 | `spectra[arm][visit] = ...` for each arm keeps the arms and adds the visit to each |
| GaPipeline.ReadGrid | python/pfs/ga/pipeline/gapipe/gapipeline.py:431-441 | the two loops over visits and arms: every cell's stored value and the read and skipped counts, or the first exception |
| GaPipeline.ReadVisit | python/pfs/ga/pipeline/gapipe/gapipeline.py:432-441 | one pass of the visit loop: the visit's row stored and counted, or the exception it raises |
| GaPipeline.ReadRow | python/pfs/ga/pipeline/gapipe/gapipeline.py:432-441 | the loop over the arms of one visit: the value of every arm and the number found, or the first exception |
| RvFitStep.Contributions | python/pfs/ga/pipeline/gapipe/steps/rvfitstep.py:33-35 | one contribution per required product type, in order: the available arms of a fiber array (set), nothing for other types |
| RvFitStep.UnionSucceeds | python/pfs/ga/pipeline/gapipe/steps/rvfitstep.py:32-35 | the union of available arms succeeds exactly when every contribution does |
| RvFitStep.UnionMembers | python/pfs/ga/pipeline/gapipe/steps/rvfitstep.py:32-35 | a successful union holds exactly the arms some product type contributes |
| RvFitStep.UnionFailure | python/pfs/ga/pipeline/gapipe/steps/rvfitstep.py:32-35 | a failing union raises what its first failing contribution raises |
| RvFitStep.UnionSticks | python/pfs/ga/pipeline/gapipe/steps/rvfitstep.py:32-35 | once a prefix of the product types raises, the whole union raises the same |
| RvFitStep.FirstMissing | python/pfs/ga/pipeline/gapipe/steps/rvfitstep.py:39-46 | the position of the first configured arm that is not available: all before it are available |
| RvFitStep.Selection | python/pfs/ga/pipeline/gapipe/steps/rvfitstep.py:38-46 | the arms fitted are exactly the configured arms that are available; PipelineError exactly when all arms are required and one is missing |
| RvFitStep.SelectArms | python/pfs/ga/pipeline/gapipe/steps/rvfitstep.py:38-46 | the loop over `fit_arms` computes the selection; when it raises, exactly the arms before the first missing one have been added |
| RvFitStep.SurveyArms | python/pfs/ga/pipeline/gapipe/steps/rvfitstep.py:32-35 | the union loop of `validate_config` computes the union of the contributions |
| RvFitStep.ScreenAsWritten | python/pfs/ga/pipeline/gapipe/steps/rvfitstep.py:161-171 | the screening as written: a spectrum with no masked pixel is dropped, and a fully masked one is kept unless mostly masked spectra are skipped |
| RvFitStep.Screen | python/pfs/ga/pipeline/gapipe/steps/rvfitstep.py:144-171 | the screening as intended: a spectrum is kept exactly when it has an unmasked pixel and, when mostly masked spectra are skipped, at least `min_unmasked_pixels` of them |
| RvFitStep.CleanSpectrumDropped | python/pfs/ga/pipeline/gapipe/steps/rvfitstep.py:162-166 | a spectrum without masked pixels is thrown away as written and kept as intended |
| RvFitStep.ScreenedColumn | python/pfs/ga/pipeline/gapipe/steps/rvfitstep.py:149-173 | one arm after the first loop has one cell per visit |
| RvFitStep.Screened | python/pfs/ga/pipeline/gapipe/steps/rvfitstep.py:148-173 | after the first loop every used arm has one cell per visit |
| RvFitStep.Without | python/pfs/ga/pipeline/gapipe/steps/rvfitstep.py:183-184 | deleting visits keeps every arm |
| RvFitStep.KeepFilled | python/pfs/ga/pipeline/gapipe/steps/rvfitstep.py:187-194 | the third loop keeps exactly the arms that hold a spectrum |
| RvFitStep.Listed | python/pfs/ga/pipeline/gapipe/steps/rvfitstep.py:199 | an arm as a list has one entry per visit it holds |
| RvFitStep.AllListed | python/pfs/ga/pipeline/gapipe/steps/rvfitstep.py:197-199 | the fourth loop lists every remaining arm and only those |
| RvFitStep.ScreenArm | python/pfs/ga/pipeline/gapipe/steps/rvfitstep.py:150-173 | the first loop for one arm: KeyError exactly when the arm or one of the visits was not read; otherwise the screened column |
| RvFitStep.ScreenAll | python/pfs/ga/pipeline/gapipe/steps/rvfitstep.py:148-173 | the first loop: KeyError exactly when a used arm or visit was not read; otherwise the screened arms |
| RvFitStep.BlankStep | python/pfs/ga/pipeline/gapipe/steps/rvfitstep.py:176-184 | how one more visit of the second loop grows the set of blank visits and the repeated-blank condition |
| RvFitStep.HoldsSpectrum | python/pfs/ga/pipeline/gapipe/steps/rvfitstep.py:177-181 | whether any arm holds a spectrum for the visit, stopping at the first; KeyError when the visit was already deleted |
| RvFitStep.DeleteVisit | python/pfs/ga/pipeline/gapipe/steps/rvfitstep.py:183-184 | `del spectra[arm][visit]` for every arm |
| RvFitStep.DropBlankVisits | python/pfs/ga/pipeline/gapipe/steps/rvfitstep.py:176-184 | the second loop deletes from every arm the visits no arm holds a spectrum for; a blank visit listed twice raises KeyError |
| RvFitStep.DropTurn | python/pfs/ga/pipeline/gapipe/steps/rvfitstep.py:177-184 | one turn of the second loop keeps its invariant or raises KeyError for a repeated blank visit |
| RvFitStep.TurnRaises | python/pfs/ga/pipeline/gapipe/steps/rvfitstep.py:179 | a visit already deleted raises, because it is blank and listed before |
| RvFitStep.TurnDeletes | python/pfs/ga/pipeline/gapipe/steps/rvfitstep.py:182-184 | a blank visit is deleted from every arm and joins the deleted visits |
| RvFitStep.TurnKeeps | python/pfs/ga/pipeline/gapipe/steps/rvfitstep.py:182 | a visit with a spectrum stays |
| RvFitStep.WithoutKeys | python/pfs/ga/pipeline/gapipe/steps/rvfitstep.py:183-184 | after deleting the visits in `gone`, every arm holds exactly the remaining visits |
| RvFitStep.WithoutBlank | python/pfs/ga/pipeline/gapipe/steps/rvfitstep.py:177-182 | a visit not yet deleted is blank in the second loop exactly when it was blank after the first |
| RvFitStep.HasAnySpectrum | python/pfs/ga/pipeline/gapipe/steps/rvfitstep.py:188-192 | the arm holds a spectrum exactly when the early-exit loop finds one |
| RvFitStep.DropEmptyArms | python/pfs/ga/pipeline/gapipe/steps/rvfitstep.py:187-194 | the third loop deletes exactly the arms left without a spectrum |
| RvFitStep.ListAll | python/pfs/ga/pipeline/gapipe/steps/rvfitstep.py:197-199 | the fourth loop turns each remaining arm into the list of its cells by ascending visit |
| RvFitStep.Collect | python/pfs/ga/pipeline/gapipe/steps/rvfitstep.py:135-201 | `__rvfit_collect_spectra`: the four loops in turn compute the specified collection |
| RvFitStep.BlankScreened | python/pfs/ga/pipeline/gapipe/steps/rvfitstep.py:176-182 | a visit is blank after the first loop exactly when no used arm keeps a spectrum for it |
| RvFitStep.LiveColumn | python/pfs/ga/pipeline/gapipe/steps/rvfitstep.py:176-184 | after the second loop every arm holds exactly the live visits, with their screened cells |
| RvFitStep.CollectArms | python/pfs/ga/pipeline/gapipe/steps/rvfitstep.py:187-194 | the arms that survive are exactly the used arms that keep a spectrum at some visit |
| RvFitStep.ArmListed | python/pfs/ga/pipeline/gapipe/steps/rvfitstep.py:199 | the list one used arm becomes has one entry per live visit |
| RvFitStep.CollectLists | python/pfs/ga/pipeline/gapipe/steps/rvfitstep.py:197-199 | each surviving arm lists what it keeps at every live visit |
| RvFitStep.ArmList | python/pfs/ga/pipeline/gapipe/steps/rvfitstep.py:199 | the whole list one used arm becomes, in ascending visit order |
| RvFitStep.ListedAt | python/pfs/ga/pipeline/gapipe/steps/rvfitstep.py:199 | position `k` of a listed arm is its cell at the `k`-th smallest visit |
| RvFitStep.CollectMeaning | python/pfs/ga/pipeline/gapipe/steps/rvfitstep.py:135-201 | without an exception, the collection is the used arms that keep a spectrum at some visit, each the list of its cells at every live visit in ascending order; a visit is dropped only when every arm lacks a spectrum for it |
| RvFitStep.CollectedEqualLengths | python/pfs/ga/pipeline/gapipe/steps/rvfitstep.py:176-199 | all kept arms list the same number of cells, one per live visit |
| RvFitStep.CollectFails | python/pfs/ga/pipeline/gapipe/steps/rvfitstep.py:135-201 | the collection raises KeyError exactly when a used arm or visit was not read, or when a visit at which no used arm keeps a spectrum is listed twice |
| RvFitStep.FindLoaded | python/pfs/ga/pipeline/gapipe/steps/rvfitstep.py:214-219 | the search for an already loaded grid finds one with the same file name or reports there is none |
| RvFitStep.LoadGrids | python/pfs/ga/pipeline/gapipe/steps/rvfitstep.py:203-232 | each arm shares an already loaded grid with the same file or loads its own; KeyError exactly when some arm has no grid file |
| RvFitStep.SharedGridSameFile | python/pfs/ga/pipeline/gapipe/steps/rvfitstep.py:214-230 | two arms share a grid exactly when their grid files have the same name |
| RvFitStep.LoadedFiles | python/pfs/ga/pipeline/gapipe/steps/rvfitstep.py:221-230 | the files loaded are exactly the grid files of the arms |
| RvFitStep.SnrAsWritten | python/pfs/ga/pipeline/gapipe/steps/rvfitstep.py:78-81 | the signal-to-noise loop asks every cell for its mask bits, a spectrum that was not read included, and that raises AttributeError |
| RvFitStep.MissingSpectrumRaises | python/pfs/ga/pipeline/gapipe/steps/rvfitstep.py:78-81 | a used arm without a spectrum at some visit makes `load` raise before the collection, which was written to handle such a cell |
| RvFitStep.Somes | python/pfs/ga/pipeline/gapipe/steps/rvfitstep.py:318 | `[s for s in l if s is not None]`: exactly the present spectra, none added |
| RvFitStep.CoaddPick | python/pfs/ga/pipeline/gapipe/steps/rvfitstep.py:312-318 | `coadd_spectra`: exactly the configured coadd arms that were fitted |
| RvFitStep.StackedMembers | python/pfs/ga/pipeline/gapipe/steps/rvfitstep.py:367-372 | a spectrum is stacked exactly when it belongs to a configured coadd arm |
| RvFitStep.StackList | python/pfs/ga/pipeline/gapipe/steps/rvfitstep.py:367-372 | the stacked list takes the arms in configured order, each arm's spectra in list order |
| RvFitStep.FirstSpectrum | python/pfs/ga/pipeline/gapipe/steps/rvfitstep.py:422-445 | `__coadd_get_mask_flags` takes the first spectrum met; it returns None exactly when there is no spectrum at all |
| RvFitStep.KeptArmHasSpectrum | python/pfs/ga/pipeline/gapipe/steps/rvfitstep.py:187-199 | after a collection that went through, every kept arm lists a spectrum |
| RvFitStep.CoaddFindsSpectrum | python/pfs/ga/pipeline/gapipe/steps/rvfitstep.py:312-323 | after a collection that went through, the coadd finds a spectrum exactly when some configured coadd arm was kept |
| RvFitStep.FitState.constructor | python/pfs/ga/pipeline/gapipe/steps/rvfitstep.py:38 | nothing is fitted yet |
| RvFitStep.FitState.ValidateConfig | python/pfs/ga/pipeline/gapipe/steps/rvfitstep.py:22-48 | `validate_config`: skips the substeps when RV fitting is off; a missing product-type list is a TypeError; otherwise the fitted arms are the configured arms the products offer, PipelineError when all are required and one is missing |
| RvFitStep.FitState.Load | python/pfs/ga/pipeline/gapipe/steps/rvfitstep.py:53-95 | `load`: the grids of the fitted arms (KeyError for an arm without a file), then the collection of the spectra read for them, screened without skipping mostly masked spectra; missing spectra are left to the collection |
| RvFitStep.FitState.Coadd | python/pfs/ga/pipeline/gapipe/steps/rvfitstep.py:303-414 | `coadd`: skips the rest when RV fitting or coadding is off; else the coadd spectra are the fitted coadd arms without missing spectra, TypeError from unpacking None when there is no spectrum, and otherwise the stacked list |
| TempFitStep.CleanSpectrumKept | python/pfs/ga/pipeline/gapipe/steps/tempfitstep.py:167-172 | `load` screens with `Screen` with mostly masked spectra kept: a spectrum without masked pixels stays in its cell, where the test as written drops it |
| TempFitStep.TupleLastOnly | python/pfs/ga/pipeline/gapipe/steps/tempfitstep.py:32-33 | a tuple among the required types contributes the arms of its last element, whatever comes before it |
| TempFitStep.EmptyTupleRaises | python/pfs/ga/pipeline/gapipe/steps/tempfitstep.py:29-36 | an empty tuple among the required types makes `init` raise IndexError, unless an earlier entry already failed |
| TempFitStep.Rank | python/pfs/ga/pipeline/gapipe/steps/tempfitstep.py:336 | the position of a parameter among M_H, T_eff and log_g, and 3 for any other |
| TempFitStep.FreeOfMembers | python/pfs/ga/pipeline/gapipe/steps/tempfitstep.py:336-338 | keeping the free parameters keeps exactly those that are free, and no more than there were |
| TempFitStep.FreeOfOrdered | python/pfs/ga/pipeline/gapipe/steps/tempfitstep.py:336-338 | keeping the free parameters of an ordered list keeps their order |
| TempFitStep.MappedParams | python/pfs/ga/pipeline/gapipe/steps/tempfitstep.py:334-339 | `params_map` is the free parameters among M_H, T_eff and log_g, in that order and each once |
| TempFitStep.MapBounds | python/pfs/ga/pipeline/gapipe/steps/tempfitstep.py:334-339 | the bounds loop computes `params_map`; a mapped parameter without a fitted value raises KeyError, exactly when one exists |
| TempFitStep.ScanPairs | python/pfs/ga/pipeline/gapipe/steps/tempfitstep.py:341-355 | one scan per consecutive pair of mapped parameters when at least two are mapped, none otherwise |
| TempFitStep.TempFitState.constructor | python/pfs/ga/pipeline/gapipe/steps/tempfitstep.py:17 | nothing is fitted yet |
| TempFitStep.TempFitState.Init | python/pfs/ga/pipeline/gapipe/steps/tempfitstep.py:22-52 | `init`: skips the substeps when template fitting is off; a missing product-type list is a TypeError; otherwise the fitted arms are the configured arms the products offer, PipelineError when all are required and one is missing |
| TempFitStep.TempFitState.Load | python/pfs/ga/pipeline/gapipe/steps/tempfitstep.py:54-97 | `load` with `__tempfit_load_grid` and `__tempfit_collect_spectra`: the grids of the fitted arms, each file loaded once (KeyError for an arm without a file), then the collection of the spectra read for them, screened without skipping mostly masked spectra |
| TempFitStep.TempFitState.MapLogL | python/pfs/ga/pipeline/gapipe/steps/tempfitstep.py:322-357 | `map_log_L`: nothing when the map is off; KeyError when a mapped parameter has no fitted value; else one scan for each consecutive pair of mapped parameters |
| CoaddStep.Tagged | python/pfs/ga/pipeline/gapipe/steps/coaddstep.py:61 | one list of the RV-fit spectra, each present spectrum with its mask flags, missing ones kept missing |
| CoaddStep.Selected | python/pfs/ga/pipeline/gapipe/steps/coaddstep.py:61 | `input_spectra` holds exactly the coadd arms |
| CoaddStep.ExtendList | python/pfs/ga/pipeline/gapipe/steps/coaddstep.py:71-73 | `mask_flags.update(extra)` on every present spectrum of one list, missing ones left alone |
| CoaddStep.AddExtraFlags | python/pfs/ga/pipeline/gapipe/steps/coaddstep.py:69-73 | `__add_extra_mask_flags` extends every list of the input |
| CoaddStep.ExtendedHas | python/pfs/ga/pipeline/gapipe/steps/coaddstep.py:69-73 | extending the flags keeps exactly the positions of the spectra |
| CoaddStep.FirstFlagged | python/pfs/ga/pipeline/gapipe/steps/coaddstep.py:159-182 | `__get_mask_flags` takes the first spectrum met; it returns None exactly when there is no spectrum at all |
| CoaddStep.Present | python/pfs/ga/pipeline/gapipe/steps/coaddstep.py:91 | `[s for s in l if s is not None]`: exactly the present spectra, none added |
| CoaddStep.StackArms | python/pfs/ga/pipeline/gapipe/steps/coaddstep.py:75-92 | `__stack_spectra`: one stacker per coadd arm with input, each arm's result a one-element list holding the stack of its present spectra |
| CoaddStep.CoaddState.constructor | python/pfs/ga/pipeline/gapipe/steps/coaddstep.py:18-19 | nothing is stacked yet |
| CoaddStep.CoaddState.Init | python/pfs/ga/pipeline/gapipe/steps/coaddstep.py:21-35 | `init`: skips the rest when RV fitting or coadding is off; else the coadd arms are the configured coadd arms that were RV-fitted |
| CoaddStep.CoaddState.Run | python/pfs/ga/pipeline/gapipe/steps/coaddstep.py:39-67 | `run`: a coadd arm not fitted is a KeyError; the selected lists get the extra flags; with no spectrum at all the unpacking of None raises TypeError; else the first spectrum's flags and one stack per arm |
| CoaddStep.RunFindsSpectrum | python/pfs/ga/pipeline/gapipe/steps/coaddstep.py:21-67 | after a collection that went through and an `init` that selected coadd arms, `run` finds a spectrum exactly when some arm was selected |
| SaveStep.Keys | python/pfs/ga/pipeline/gapipe/steps/savestep.py:69 | the keys of a dictionary in insertion order, one per entry |
| SaveStep.Get | python/pfs/ga/pipeline/gapipe/steps/savestep.py:93-94 | `d[k]`: missing exactly when the key is not in the dictionary, else the value stored under it |
| SaveStep.IndexOf | python/pfs/ga/pipeline/gapipe/steps/savestep.py:87 | `list.index`: the position of the first occurrence, the length when there is none |
| SaveStep.SetNamesMembers | python/pfs/ga/pipeline/gapipe/steps/savestep.py:108 | a flag name is listed exactly when its member shares a bit with the flag value |
| SaveStep.AppendRow | python/pfs/ga/pipeline/gapipe/steps/savestep.py:83-114 | appending one parameter's nine column values to the table of the earlier rows gives the table of one more row |
| SaveStep.GetStellarParams | python/pfs/ga/pipeline/gapipe/steps/savestep.py:54-126 | `__get_stellar_params`: one row per parameter of `params_fit` plus `v_los`, the nine columns appended together; KeyError exactly when a fitted parameter has no error |
| SaveStep.NoOtherParameter | python/pfs/ga/pipeline/gapipe/steps/savestep.py:92-99 | every row is a fitted parameter or `v_los`, so the NotImplementedError branch is never taken |
| SaveStep.MissingErrorRaises | python/pfs/ga/pipeline/gapipe/steps/savestep.py:92-94 | the table raises exactly when a fitted parameter has no error |
| SaveStep.VelocityRow | python/pfs/ga/pipeline/gapipe/steps/savestep.py:69-70 | the last row is `v_los` in km s-1, flagged by the velocity flags, and valued by the fitted velocity when the fit has no `v_los` entry |
| SaveStep.CovarIdMeaning | python/pfs/ga/pipeline/gapipe/steps/savestep.py:68-87 | a free parameter's `covarId` points at it in `params_free + ['v_los']`; any other gets 255 |
| SaveStep.FlagMeaning | python/pfs/ga/pipeline/gapipe/steps/savestep.py:106-111 | a flag column is true exactly when the parameter has flags other than OK; a parameter without flags gets False and an empty status |
| SaveStep.NoBitsNoNames | python/pfs/ga/pipeline/gapipe/steps/savestep.py:108 | a zero flag value names no member |
| SaveStep.Zeros | python/pfs/ga/pipeline/gapipe/steps/savestep.py:132-134 | a list of `n` zeros |
| SaveStep.GetVelocityCorrections | python/pfs/ga/pipeline/gapipe/steps/savestep.py:128-141 | `__get_velocity_corrections`: the visits as given, and zero JD, heliocentric and barycentric corrections, one per visit |
| Configs.KeysOf | python/pfs/ga/pipeline/config/config.py:26 | the keys of a dictionary in insertion order, one per entry |
| Configs.IndexOf | python/pfs/ga/pipeline/config/config.py:29-41 | the position of a key's entry in a dictionary: the first and only one with that key |
| Configs.Put | python/pfs/ga/pipeline/config/config.py:32-41 | `r[k] = v`: an existing key keeps its place, a new key is added at the end |
| Configs.PutGet | python/pfs/ga/pipeline/config/config.py:32-41 | after a store the key holds the stored value |
| Configs.PutKeepsOthers | python/pfs/ga/pipeline/config/config.py:32-41 | a store leaves every other key's value as it was |
| Configs.StoreAllSpec | python/pfs/ga/pipeline/config/config.py:28-43 | the merge loop raises exactly when one of its keys raises, and otherwise holds each listed key once, with the value computed for it |
| Configs.StoreAllFailureSticks | python/pfs/ga/pipeline/config/config.py:29-41 | once the loop has raised on a prefix of the keys, the later keys do not matter |
| Configs.StoreAllStep | python/pfs/ga/pipeline/config/config.py:29-41 | one more turn of the loop stores the next key's value |
| Configs.StoreAllStopsAt | python/pfs/ga/pipeline/config/config.py:29-41 | the first key that raises ends the loop with its error |
| Configs.StoreAllError | python/pfs/ga/pipeline/config/config.py:29-41 | the loop's error is the error of one of its keys |
| Configs.MergeKeys | python/pfs/ga/pipeline/config/config.py:19-43 | `__merge_dict`: the result holds exactly the keys of both inputs |
| Configs.MergeEntry | python/pfs/ga/pipeline/config/config.py:29-41 | each key of a successful merge holds the recursive merge when both values are dictionaries, the first input's value when a collision is ignored, or the value of the one input that has it |
| Configs.MergeAt | python/pfs/ga/pipeline/config/config.py:29-41 | one key of the result: present exactly when a key of either input, holding the merged value |
| Configs.MergeFailsOnCollision | python/pfs/ga/pipeline/config/config.py:33-37 | without `ignore_collisions` the merge raises ValueError exactly when the inputs share a key whose values are not both dictionaries, at any depth |
| Configs.MergeIgnoringNeverFails | python/pfs/ga/pipeline/config/config.py:33-35 | with `ignore_collisions` the merge never raises |
| Configs.MergeDict | python/pfs/ga/pipeline/config/config.py:19-43 | the loop over the keys of `a` then `b` computes the specified merge into a fresh dictionary; neither input changes |
| Configs.MergeValue | python/pfs/ga/pipeline/config/config.py:30-41 | the body of the merge loop for one key computes that key's merged value |
| Configs.LoadSource | python/pfs/ga/pipeline/config/config.py:9-17 | `load`: None loads nothing, a dictionary goes to `_load_impl`, anything else raises NotImplementedError; no member is added |
| Configs.LoadImpl | python/pfs/ga/pipeline/config/config.py:74-76 | `_load_impl`: the dictionary loader without a type map; None loads nothing |
| Configs.LoadEntries | python/pfs/ga/pipeline/config/config.py:51-72 | the loop `for k in config` stops at the first key that raises; an unknown key on the way makes it raise; no member is added |
| Configs.LoadMember | python/pfs/ga/pipeline/config/config.py:52-72 | one key: an unknown member raises ValueError; only member `k` changes |
| Configs.MergedMember | python/pfs/ga/pipeline/config/config.py:67-69 | a dictionary member given a dictionary is merged with it, and an overlap that is not a dictionary on both sides raises ValueError |
| Configs.MapConfigClass | python/pfs/ga/pipeline/config/config.py:78-84 | `map_config_class`: a dictionary becomes instances under the same keys in the same order, a list instances in the same order, anything else one instance |
| Configs.InstantiateEntries | python/pfs/ga/pipeline/config/config.py:80 | `{ k: type(config=c) ... }`: the same keys, each value the instance made from that entry |
| Configs.InstantiateItems | python/pfs/ga/pipeline/config/config.py:82 | `[ type(config=c) ... ]`: the same length, each item the instance made from that item |
| Configs.Instantiate | python/pfs/ga/pipeline/config/config.py:4-5 | `type(config=c)`: a class whose constructor takes no `config` raises TypeError; otherwise an instance of that class with its default members, loaded from `c` |
| Configs.Config.constructor | python/pfs/ga/pipeline/config/config.py:4-5 | a configuration object of the given class with the given members |
| Configs.Config.LoadFromDict | python/pfs/ga/pipeline/config/config.py:45-72 | `_load_config_from_dict`: each key in turn updates its member; at the first key that raises the loop stops and the members already set keep their new values; no member is added |
| Configs.Config.Load | python/pfs/ga/pipeline/config/config.py:9-17 | `load` on the object computes the specified load of its members |
| Priors.Given | python/pfs/ga/pipeline/scripts/configure/configurescript.py:408 | `k in pp and pp[k] is not None and not np.isnan(pp[k])`: true exactly for a present number, and `np.isnan` of a text cell raises TypeError |
| Priors.SetEnd | python/pfs/ga/pipeline/scripts/configure/configurescript.py:412-422 | `values[end] = x`: a value that is not a list is first replaced by `[-inf, inf]`; a list too short for the index raises IndexError; otherwise only that position changes |
| Priors.TemplateDistribution | python/pfs/ga/pipeline/scripts/configure/configurescript.py:429-434 | the template's distribution entry: nothing when it is missing, the list it holds otherwise; TypeError for a scalar entry other than None and IndexError for an empty list |
| Priors.PriorStepsFailureSticks | python/pfs/ga/pipeline/scripts/configure/configurescript.py:394-447 | once one parameter's step raises, the rest of the loop does not run |
| Priors.PriorStepFrame | python/pfs/ga/pipeline/scripts/configure/configurescript.py:394-447 | one parameter's step changes only `k` and `k_dist` |
| Priors.ConstantOverrides | python/pfs/ga/pipeline/scripts/configure/configurescript.py:408-410 | a usable constant in the table replaces the parameter, whatever the template holds |
| Priors.LimitsReplaceEnds | python/pfs/ga/pipeline/scripts/configure/configurescript.py:411-422 | without a constant, a template list keeps its elements except the ends the table gives; a template value that is not a list starts from `[-inf, inf]` |
| Priors.NoPriorKeepsValue | python/pfs/ga/pipeline/scripts/configure/configurescript.py:403-425 | with neither a constant nor a limit, the template value stays as it was |
| Priors.ShortListRaises | python/pfs/ga/pipeline/scripts/configure/configurescript.py:412-422 | a template list too short for the limit it receives raises IndexError |
| Priors.DistributionRules | python/pfs/ga/pipeline/scripts/configure/configurescript.py:436-447 | the table's distribution: `uniform` without arguments; `normal` with its mean and sigma, KeyError when one is missing; anything else raises NotImplementedError |
| Priors.TemplateDistributionKept | python/pfs/ga/pipeline/scripts/configure/configurescript.py:429-447 | without a distribution in the table, a template list led by a value is written back unchanged |
| Priors.TemplateFrame | python/pfs/ga/pipeline/scripts/configure/configurescript.py:424-431 | the limits, written under `k`, do not change what the template says about `k_dist` |
| Photometry.FirstMatch | python/pfs/ga/pipeline/scripts/configure/configurescript.py:337-352 | the entry the loop over the photometry dictionary stops at: the first whose key, or filter name(s) when given, matches; none when none does |
| Photometry.FirstFinite | python/pfs/ga/pipeline/scripts/configure/configurescript.py:357-372 | the first pair with a finite flux and error, preferring psf, then fiber, then total; none exactly when no pair is finite |
| Photometry.ApplyFilter | python/pfs/ga/pipeline/scripts/configure/configurescript.py:333-375 | one filter of the pfsConfig row keeps the dictionary's length |
| Photometry.ApplyFilters | python/pfs/ga/pipeline/scripts/configure/configurescript.py:333-375 | the loop over the row's filters keeps the dictionary's length |
| Photometry.KeepMeasured | python/pfs/ga/pipeline/scripts/configure/configurescript.py:378-381 | only the entries that have a flux are kept, in their order |
| Photometry.ApplyFiltersKeepsShape | python/pfs/ga/pipeline/scripts/configure/configurescript.py:333-375 | the filters set fluxes and nothing else: keys and filter names stay as they were |
| Photometry.FluxOrigin | python/pfs/ga/pipeline/scripts/configure/configurescript.py:333-375 | after the filter loop an entry's flux is its template flux, or the first finite pair of a filter whose first match it is |
| Photometry.FirstMatchIs | python/pfs/ga/pipeline/scripts/configure/configurescript.py:337-352 | the first entry that matches is the one the search names |
| Photometry.MatchDependsOnShape | python/pfs/ga/pipeline/scripts/configure/configurescript.py:338-352 | matching reads only keys and filter names, so a dictionary with new fluxes matches as before |
| Photometry.LastFilterSets | python/pfs/ga/pipeline/scripts/configure/configurescript.py:354-372 | a filter with a finite pair sets the flux and error of the entry it first matches |
| Photometry.ConfiguredEntries | python/pfs/ga/pipeline/scripts/configure/configurescript.py:320-385 | the configured photometry is exactly the entries that end the filter loop with a flux; with no photometry dictionary the function raises AttributeError |
| Configure.FirstKnowing | python/pfs/ga/pipeline/scripts/configure/configurescript.py:237-245 | the first repository, input then work, that knows the product type; none when neither does |
| Configure.VisitMask | python/pfs/ga/pipeline/scripts/configure/configurescript.py:228-270 | the visit mask has one entry per visit |
| Configure.LocateRequiredProducts | python/pfs/ga/pipeline/scripts/configure/configurescript.py:221-270 | `__locate_required_products`: the mask starts all True and is ANDed, product by product, with the visits located by the first repository knowing the product; a product no repository knows is passed over |
| Configure.ProductMask | python/pfs/ga/pipeline/scripts/configure/configurescript.py:233-262 | the repositories are tried in order and the first that knows the product decides: visit `i` is marked exactly when that repository locates an existing file for it |
| Configure.SurvivorHasFiles | python/pfs/ga/pipeline/scripts/configure/configurescript.py:228-270 | a surviving visit has, for every required product some repository knows, an existing file in the first such repository |
| Configure.UnknownProductIgnored | python/pfs/ga/pipeline/scripts/configure/configurescript.py:264-266 | a product no repository knows leaves the mask as it was |
| Configure.ProductNarrowsMask | python/pfs/ga/pipeline/scripts/configure/configurescript.py:268 | each further product can only remove visits, and removes exactly those it does not find |
| Configure.Select | python/pfs/ga/pipeline/scripts/configure/configurescript.py:207-215 | `a[mask]`: no more elements than `a` |
| Configure.SelectContents | python/pfs/ga/pipeline/scripts/configure/configurescript.py:207-215 | `a[mask]` holds exactly the masked-in elements, as many as the mask has True entries |
| Configure.SelectLength | python/pfs/ga/pipeline/scripts/configure/configurescript.py:203 | the length of `a[mask]`, and so `nVisit`, is the number of True entries |
| Configure.SelectMembers | python/pfs/ga/pipeline/scripts/configure/configurescript.py:207 | an element is in `a[mask]` exactly when it sits at a masked-in position |
| Configure.SelectAll | python/pfs/ga/pipeline/scripts/configure/configurescript.py:207-215 | an all-True mask selects everything |
| Configure.SelectMap | python/pfs/ga/pipeline/scripts/configure/configurescript.py:207-215 | masking commutes with taking a column |
| Configure.Observations | python/pfs/ga/pipeline/scripts/configure/configurescript.py:206-216 | the observation columns, one per visit |
| Configure.ObservationsAppend | python/pfs/ga/pipeline/scripts/configure/configurescript.py:206-216 | the observation columns of two row lists are the concatenation of each one's |
| Configure.Visits | python/pfs/ga/pipeline/scripts/configure/configurescript.py:207 | the visit column, one per observation |
| Configure.TargetFor | python/pfs/ga/pipeline/scripts/configure/configurescript.py:182-219 | `__create_target_config`: None exactly when no visit survives; otherwise the first row's identity fields, the object id, nVisit and the visit hash of the surviving visits, and every observation column masked |
| Configure.TargetObservationsAvailable | python/pfs/ga/pipeline/scripts/configure/configurescript.py:189-216 | every observation of a target comes from a visit whose required products were all found |
| Configure.PipelineConfig.constructor | python/pfs/ga/pipeline/scripts/configure/configurescript.py:278 | a pipeline configuration holding the given settings |
| Configure.PipelineConfig.DeepCopy | python/pfs/ga/pipeline/scripts/configure/configurescript.py:278 | `deepcopy(config)`: a new object holding the same values, sharing nothing |
| Configure.PipelineConfig.UseInputDirectories | python/pfs/ga/pipeline/scripts/configure/configurescript.py:291-294 | the input repository's `datadir` and `rerundir` variables, when it has them, replace the template's |
| Configure.PipelineConfig.ConfigurePhotometry | python/pfs/ga/pipeline/scripts/configure/configurescript.py:320-385 | the object's photometry becomes the specified filter-loop result; with no dictionary it raises AttributeError; nothing else changes |
| Configure.PipelineConfig.ConfigurePrior | python/pfs/ga/pipeline/scripts/configure/configurescript.py:395-447 | one pass of the priors loop, for parameter `k`, computes that parameter's step |
| Configure.PipelineConfig.ConfigurePriors | python/pfs/ga/pipeline/scripts/configure/configurescript.py:392-447 | the five parameters in order, stopping at an exception |
| Configure.FibersOf | python/pfs/ga/pipeline/scripts/configure/configurescript.py:328 | the fibers carrying the objId are exactly those of the file with that objId |
| Configure.PfsConfigFilters | python/pfs/ga/pipeline/scripts/configure/configurescript.py:327-328 | the object's filters in the first visit's pfsConfig: KeyError exactly when that visit has no pfsConfig, ValueError exactly when not one fiber carries the objId |
| Configure.PipelineConfig.ConfigureTempfit | python/pfs/ga/pipeline/scripts/configure/configurescript.py:303-328 | `__configure_tempfit`: the pfsConfig fiber lookup and its errors, the photometry, then the priors only when the stellar parameter table has a row for the object |
| Configure.InputDirectories | python/pfs/ga/pipeline/scripts/configure/configurescript.py:291-294 | the template's directories unless the input repository defines them; nothing else changes |
| Configure.Outcomes | python/pfs/ga/pipeline/scripts/configure/configurescript.py:142-180 | one outcome per found object, in the order found |
| Configure.GenerateRespectsTop | python/pfs/ga/pipeline/scripts/configure/configurescript.py:133-140 | the save loop never passes `top` objects |
| Configure.TopBelowOneStopsAfterFirst | python/pfs/ga/pipeline/scripts/configure/configurescript.py:137-140 | a `top` of zero or less still lets the first configured object through |
| Configure.GenerateAll | python/pfs/ga/pipeline/scripts/configure/configurescript.py:133-140 | without `top` and without exceptions, one configuration is generated per object that has a target, in the order found |
| Configure.GenerateStopsAtException | python/pfs/ga/pipeline/scripts/configure/configurescript.py:134-135 | an exception stops the run before any later object is configured |
| Configure.ObjIds | python/pfs/ga/pipeline/scripts/configure/configurescript.py:134 | the objIds of the generated configurations, one each |
| Configure.Saved | python/pfs/ga/pipeline/scripts/configure/configurescript.py:449-459 | the saved files: everything generated, unless it is a dry run |
| Configure.Run | python/pfs/ga/pipeline/scripts/configure/configurescript.py:77-140 | `run` after the objects are found: nothing when none were found or the run was not confirmed; otherwise the generated configurations, saved unless a dry run, and the exception that ended the loop |
| Configure.ConfigureObject | python/pfs/ga/pipeline/scripts/configure/configurescript.py:142-180 | one object: its visit mask and target and, when a visit survives, a deep copy of the template with the input directories, the target and the tempfit settings |
| Configure.GenerateStep | python/pfs/ga/pipeline/scripts/configure/configurescript.py:134-140 | one object of the loop: an exception ends it, an object without target is skipped, any other is generated and counted against `top` |
| Configure.SavedAppend | python/pfs/ga/pipeline/scripts/configure/configurescript.py:449-459 | saving one more configuration appends its file unless it is a dry run |
| SingleGrouping.BindArguments | python/pfs/ga/pipeline/scripts/configure.py:30-34 | binding a call's arguments raises TypeError or nothing: too many positional arguments, an unknown keyword, or a keyword for a parameter already filled raises |
| SingleGrouping.KeywordBinding | python/pfs/ga/pipeline/util/hexidfilter.py:9 | with keywords only, binding fails exactly when a keyword is not declared |
| SingleGrouping.ObjIdFilterRaises | python/pfs/ga/pipeline/scripts/configure.py:33 | `HexIDFilter('objid', format='{:016x}')`: the positional `'objid'` binds `format`, and the keyword binds it again, so the constructor raises TypeError |
| SingleGrouping.GetArg | python/pfs/ga/pipeline/scripts/configure.py:64-74 | `_get_arg(name, args, default)`: the given value or the default |
| SingleGrouping.DirsFrom | python/pfs/ga/pipeline/scripts/configure.py:64-67 | each directory is the command-line value when given and non-empty, else the configuration file's |
| SingleGrouping.TractTokensAsWritten | python/pfs/ga/pipeline/scripts/configure.py:47-71 | as written, `--tract` is one string, and `parse` iterates it: every character becomes a token of its own |
| SingleGrouping.TractTokens | python/pfs/ga/pipeline/scripts/configure.py:47-71 | the evident intent: the tract string is a single token |
| SingleGrouping.TractCharactersMiss | python/pfs/ga/pipeline/scripts/configure.py:47-71 | `--tract 12` as written filters on tracts 1 and 2 and rejects tract 12, which the intended single token accepts |
| SingleGrouping.ParsedCriteria | python/pfs/ga/pipeline/scripts/configure.py:69-74 | the filters parse their arguments in the order catId, tract, objId, visit, with the patch set between tract and objId; the first token that fails raises ValueError |
| SingleGrouping.CriteriaEntries | python/pfs/ga/pipeline/scripts/configure.py:70-74 | a parse that succeeds keeps one entry per token of each argument, in token order |
| SingleGrouping.FieldGlobs | python/pfs/ga/pipeline/scripts/configure.py:121-135 | the filters' glob patterns in the order catId, tract, patch, objId, visit; `*` for a missing patch |
| SingleGrouping.SingleGlob | python/pfs/ga/pipeline/scripts/configure.py:120-139 | `__get_pfsSingle_glob_pattern`: the data and rerun directories joined with the directory and file globs; joining a directory that is None raises TypeError |
| SingleGrouping.Basename | python/pfs/ga/pipeline/scripts/configure.py:149 | `os.path.basename`: the text after the last `/` |
| SingleGrouping.ParseSingle | python/pfs/ga/pipeline/scripts/configure.py:150-156 | the groups of a pfsSingle name parsed as decimal catId, tract and visit and hex objId; ValueError exactly when one does not parse |
| SingleGrouping.SelectsMeaning | python/pfs/ga/pipeline/scripts/configure.py:158-163 | a file is selected exactly when all four filters match and the patch equals the given one, if any |
| SingleGrouping.ForeignNameRaises | python/pfs/ga/pipeline/scripts/configure.py:149-158 | a name the regex rejects stops the script as written (`match.group` on None), where the later None test means to skip it; on every other name the two agree |
| SingleGrouping.OutcomeMeaning | python/pfs/ga/pipeline/scripts/configure.py:148-163 | a path is kept exactly when its name parses and its identity passes the filters |
| SingleGrouping.SortTarget | python/pfs/ga/pipeline/scripts/configure.py:179-180 | `obj.visits.sort()` and `obj.files.sort()`: each list ascending and a permutation of itself, the other fields unchanged |
| SingleGrouping.SortTargets | python/pfs/ga/pipeline/scripts/configure.py:178-180 | sorting every object keeps the objects |
| SingleGrouping.HitsFor | python/pfs/ga/pipeline/scripts/configure.py:165-176 | the kept files of one object, in glob order |
| SingleGrouping.VisitsOf | python/pfs/ga/pipeline/scripts/configure.py:175 | the visits of the kept files, one each |
| SingleGrouping.PathsOf | python/pfs/ga/pipeline/scripts/configure.py:176 | the paths of the kept files, one each |
| SingleGrouping.GroupKeys | python/pfs/ga/pipeline/scripts/configure.py:165-173 | the insertion order lists every object once, and the objects are exactly those with a kept file |
| SingleGrouping.GroupContents | python/pfs/ga/pipeline/scripts/configure.py:165-176 | each object holds its kept files and their visits in glob order, and the catId, tract and patch of the first of them |
| SingleGrouping.ScanMembers | python/pfs/ga/pipeline/scripts/configure.py:148-176 | the kept files are exactly the paths whose outcome names an identity |
| SingleGrouping.ScanMember | python/pfs/ga/pipeline/scripts/configure.py:148-176 | one path is kept exactly when it is listed with its identity |
| SingleGrouping.ScanFailureSticks | python/pfs/ga/pipeline/scripts/configure.py:148-156 | a failure in a prefix of the paths is the failure of the whole loop |
| SingleGrouping.TargetVisits | python/pfs/ga/pipeline/scripts/configure.py:141-182 | every object holds the visits of the files kept under its objId, sorted, duplicates included, and the catId, tract and patch of the first of them |
| SingleGrouping.TargetFiles | python/pfs/ga/pipeline/scripts/configure.py:141-182 | every object holds exactly the files kept under its objId, sorted, duplicates included |
| SingleGrouping.KeptPaths | python/pfs/ga/pipeline/scripts/configure.py:165-176 | a path of an object's kept files is a path kept under its objId, and back |
| SingleGrouping.TargetKeys | python/pfs/ga/pipeline/scripts/configure.py:141-182 | the objects of the result are exactly the objIds of the kept files, each listed once in insertion order |
| SingleGrouping.HitsKept | python/pfs/ga/pipeline/scripts/configure.py:165-176 | some file was kept under an objId exactly when the scan holds a hit for it |
| SingleGrouping.FormattedNoMeta | python/pfs/ga/pipeline/scripts/configure.py:121-135 | a formatted number holds no glob metacharacter |
| SingleGrouping.FieldGlob | python/pfs/ga/pipeline/scripts/configure.py:121-135 | one field of a selected name matches its filter's glob |
| SingleGrouping.GlobKeepsSelected | python/pfs/ga/pipeline/scripts/configure.py:129-135 | every file the filters keep is found by the file-name glob: its canonical name matches the pattern the filters render |
| SingleGrouping.GlobNameChain | python/pfs/ga/pipeline/scripts/configure.py:129-135 | a canonical pfsSingle name matches the file glob built from field globs it matches |
| SingleGrouping.IdentityOf | python/pfs/ga/pipeline/scripts/configure.py:91-98 | the identity of an object is complete |
| SingleGrouping.ConfigFilename | python/pfs/ga/pipeline/scripts/configure.py:107-114 | the file name is the identity's text between `pfsGAConfig-` and `.yaml` |
| SingleGrouping.SaveFor | python/pfs/ga/pipeline/scripts/configure.py:82-118 | one iteration of `run`: formatting a directory that is None raises AttributeError; otherwise the object's fields and visits, the formatted output directory, and the path joined from it and the file name |
| SingleGrouping.SaveResults | python/pfs/ga/pipeline/scripts/configure.py:81-118 | the save of each objId in order; `targets[objId]` of a missing key raises KeyError |
| SingleGrouping.Writes | python/pfs/ga/pipeline/scripts/configure.py:81-118 | the save loop: every save up to the first error, and that error |
| SingleGrouping.WritesFailureSticks | python/pfs/ga/pipeline/scripts/configure.py:81-118 | a failure in a prefix of the objects is the failure of the whole loop |
| SingleGrouping.SortedKeys | python/pfs/ga/pipeline/scripts/configure.py:81 | `sorted(targets.keys())`: every objId once, in strictly ascending order |
| SingleGrouping.RunOrder | python/pfs/ga/pipeline/scripts/configure.py:76-118 | `run` saves the objects in ascending objId order, each once, and all of them unless a directory is missing, in which case it stops at the first object with AttributeError |
| SingleGrouping.ConfigureScript.constructor | python/pfs/ga/pipeline/scripts/configure.py:20-34 | `Configure()` as evidently intended: the filters are named catid, tract, objid (hex, `{:016x}`) and visit, none has values yet, and no directory or patch is set |
| SingleGrouping.ConfigureScript.Current | python/pfs/ga/pipeline/scripts/configure.py:70-74 | the parsed criteria exist exactly once all four filters have values, and carry the patch |
| SingleGrouping.ConfigureScript.InitFromArgs | python/pfs/ga/pipeline/scripts/configure.py:52-74 | `_init_from_args`: the directories take the command line over the configuration file, then the filters parse their arguments; the first token that does not parse raises ValueError |
| SingleGrouping.ConfigureScript.GetTargets | python/pfs/ga/pipeline/scripts/configure.py:141-182 | `__get_pfsSingle_targets` computes the specified grouping of the globbed paths |
| SingleGrouping.ConfigureScript.Run | python/pfs/ga/pipeline/scripts/configure.py:76-118 | `run`: one configuration file per selected object, in ascending objId order; the first object whose directories cannot be formatted stops the loop with the files written so far |
| SingleGrouping.CollectTargets | python/pfs/ga/pipeline/scripts/configure.py:146-182 | after the glob: group the paths, then sort each object's lists |
| SingleGrouping.ScanStep | python/pfs/ga/pipeline/scripts/configure.py:148-163 | one more path: a failure stops the loop, a rejected path is skipped, a selected one is kept |
| SingleGrouping.GroupStep | python/pfs/ga/pipeline/scripts/configure.py:165-176 | one more hit: a known object gets the visit and path appended, a new one is added at the end |
| SingleGrouping.AddHit | python/pfs/ga/pipeline/scripts/configure.py:165-176 | the body of the loop for a selected file: create the object on its first file, then append the visit and the path |
| SingleGrouping.GroupPaths | python/pfs/ga/pipeline/scripts/configure.py:147-176 | the loop over the globbed paths computes the specified grouping, or the first exception |
| SingleGrouping.SortEach | python/pfs/ga/pipeline/scripts/configure.py:178-180 | sorts every object's visits and files |
| SingleGrouping.SaveAll | python/pfs/ga/pipeline/scripts/configure.py:81-118 | the loop of `run` over the sorted objIds computes the specified writes |
| LoadStep.LoadEach | python/pfs/ga/pipeline/gapipe/steps/loadstep.py:26-27 | the loop of `run` over the required product types on the cache: entries of the right kind, only the given types added, none dropped, and every type present once the loop went through |
| LoadStep.LoadEachFails | python/pfs/ga/pipeline/gapipe/steps/loadstep.py:26-27 | `run` raises exactly when one of the types is not one the loader knows and there is a visit to load; the exception is NotImplementedError |
| LoadStep.LoadEachCached | python/pfs/ga/pipeline/gapipe/steps/loadstep.py:26-27 | after a successful `run` every required type's entry holds every key the visits ask for, and the entries of other types are untouched |
| LoadStep.Run | python/pfs/ga/pipeline/gapipe/steps/loadstep.py:16-33 | `run`: `load_input_products` for every required type in order; a type list that is None raises TypeError; the first exception leaves the step |
| LoadStep.LoadTypes | python/pfs/ga/pipeline/gapipe/steps/loadstep.py:26-27 | the loop of `run` once there is a configuration computes the specified loads on the pipeline's cache |
| LoadStep.LoadEachStep | python/pfs/ga/pipeline/gapipe/steps/loadstep.py:26-27 | one type of the loop: it stops the loop, or the loop goes on from the next type |
| LoadStep.ProductFailure | python/pfs/ga/pipeline/gapipe/steps/loadstep.py:66-102 | `__validate_product`: nothing when the product agrees with the visit and the configured target, else PipelineError, AttributeError or IndexError for a header of another shape, or NotImplementedError for an unknown type |
| LoadStep.Pairs | python/pfs/ga/pipeline/gapipe/steps/loadstep.py:44-45 | the loops visit every (visit, product type) pair, visits outer, types inner |
| LoadStep.CheckPairsAsWritten | python/pfs/ga/pipeline/gapipe/steps/loadstep.py:42-60 | as written the target is never remembered: the loops pass exactly when every pair passes on its own |
| LoadStep.CheckPairsRemembered | python/pfs/ga/pipeline/gapipe/steps/loadstep.py:47-50 | with a target remembered, the loops pass exactly when every pair passes and every PfsSingle carries that target |
| LoadStep.CheckPairsCorrected | python/pfs/ga/pipeline/gapipe/steps/loadstep.py:42-60 | with the first PfsSingle's target remembered, the loops pass exactly when every pair passes and all PfsSingle files carry one target |
| LoadStep.ValidateAsWrittenMeaning | python/pfs/ga/pipeline/gapipe/steps/loadstep.py:38-64 | `validate` as written passes exactly when every (visit, type) pair passes on its own |
| LoadStep.ValidateMeaning | python/pfs/ga/pipeline/gapipe/steps/loadstep.py:38-64 | the corrected `validate` passes exactly when every pair passes and all PfsSingle files of the object carry the same target |
| LoadStep.DifferentTargetsPass | python/pfs/ga/pipeline/gapipe/steps/loadstep.py:42-50 | two PfsSingle files of one object whose targets differ: the loops as written accept them, the corrected ones raise PipelineError |
| Ga1dPipeline.GetMaskBits | python/pfs/ga/pipeline/ga1dpipeline.py:530-537 | `__get_mask_bits`: None without mask flags; else the OR of the named flags' bits, KeyError exactly when a flag is not defined by the file; an empty flag list gives 0 |
| Ga1dPipeline.AddLetters | python/pfs/ga/pipeline/ga1dpipeline.py:444-447 | `set.add` for each letter: the arms seen so far plus the letters of the string |
| Ga1dPipeline.LowerChar | python/pfs/ga/pipeline/ga1dpipeline.py:545 | ASCII `str.lower` on one letter: capitals move to lower case, everything else is kept |
| Ga1dPipeline.NoneWordLetters | python/pfs/ga/pipeline/ga1dpipeline.py:545 | the test `v_corr.lower() != 'none'` fails exactly for `none` in any letter case |
| Ga1dPipeline.VCorrStep | python/pfs/ga/pipeline/ga1dpipeline.py:544-551 | `__step_vcorr`: the corrections run unless `v_corr` is None or spells `none`; then the step only skips its substeps |
| Ga1dPipeline.EmptyVCorrRuns | python/pfs/ga/pipeline/ga1dpipeline.py:545 | an empty `v_corr` is not `none`, so the corrections run; `None` and `NONE` skip them |
| Ga1dPipeline.Defaults | python/pfs/ga/pipeline/ga1dpipeline.py:715 | the defaults of `__rvfit_collect_spectra`: nothing is skipped |
| Ga1dPipeline.Appended | python/pfs/ga/pipeline/ga1dpipeline.py:722-745 | one cell adds at most one entry to its arm's list |
| Ga1dPipeline.ArmListDefaults | python/pfs/ga/pipeline/ga1dpipeline.py:715-747 | with nothing skipped every visit contributes one entry, in visit order: its spectrum, or None when it is missing or fully masked |
| Ga1dPipeline.ArmListSkipNone | python/pfs/ga/pipeline/ga1dpipeline.py:742 | with `skip_none` no entry is None |
| Ga1dPipeline.ArmListFrom | python/pfs/ga/pipeline/ga1dpipeline.py:722-745 | every spectrum of a list is one visit's spectrum, has an unmasked pixel, and has enough of them when mostly masked spectra are skipped |
| Ga1dPipeline.CollectArm | python/pfs/ga/pipeline/ga1dpipeline.py:720-745 | the inner loop of `__rvfit_collect_spectra` for one arm, visits in ascending order, computes the arm's specified list |
| Ga1dPipeline.Stack | python/pfs/ga/pipeline/ga1dpipeline.py:795-799 | the spectra stacked for one arm: exactly its present spectra, and none when it has none |
| Ga1dPipeline.InitSucceeds | python/pfs/ga/pipeline/ga1dpipeline.py:306-323 | the checks of `__step_init` pass exactly when every fit arm has a grid path naming an existing file and, with a PSF path, an existing PSF file; a failure is KeyError or FileNotFoundError |
| Ga1dPipeline.ArmFilesMeans | python/pfs/ga/pipeline/ga1dpipeline.py:306-323 | one fit arm's check passes exactly when its grid path exists and names an existing file and, with a PSF path, the PSF file exists; its failure is KeyError or FileNotFoundError |
| Ga1dPipeline.InitPasses | python/pfs/ga/pipeline/ga1dpipeline.py:306-323 | the checks over all fit arms pass exactly when each arm's check passes |
| Ga1dPipeline.InitErrors | python/pfs/ga/pipeline/ga1dpipeline.py:306-323 | a failure of the checks over all fit arms is KeyError or FileNotFoundError |
| Ga1dPipeline.Others | python/pfs/ga/pipeline/ga1dpipeline.py:945 | the fitted parameters that are not among `params_fit`, in order |
| Ga1dPipeline.NotFitted | python/pfs/ga/pipeline/ga1dpipeline.py:951 | a parameter not among `params_fit` has covariance id 255 |
| Ga1dPipeline.LegacyStellarParams | python/pfs/ga/pipeline/ga1dpipeline.py:933-974 | `__get_stellar_params`: one row per parameter of `params_all`, each with method `ga1dpipe`, frame `bary`, the parameter's unit, its value and error (the RV fit's for `v_los`), its covariance id, flag False and empty status; a parameter without a unit, value or error raises KeyError |
| Ga1dPipeline.LegacyRows | python/pfs/ga/pipeline/ga1dpipeline.py:944-945 | the rows: the free parameters in order, then `v_los`, then every other fitted parameter, and nothing else |
| Ga1dPipeline.RowsAt | python/pfs/ga/pipeline/ga1dpipeline.py:944-945 | the row at each position is a free parameter, the velocity, or another fitted parameter |
| Ga1dPipeline.FreeRowFails | python/pfs/ga/pipeline/ga1dpipeline.py:953-956 | a free parameter's row fails when its value or error is missing |
| Ga1dPipeline.OtherRowFails | python/pfs/ga/pipeline/ga1dpipeline.py:955-958 | another fitted parameter's row fails when its error is missing |
| Ga1dPipeline.MissingRowCase | python/pfs/ga/pipeline/ga1dpipeline.py:952-958 | a failing row is a missing unit, a free parameter without value or error, or another parameter without error |
| Ga1dPipeline.LegacyMissing | python/pfs/ga/pipeline/ga1dpipeline.py:952-958 | the table fails exactly when some row has no unit, a free parameter has no fitted value or error, or another fitted parameter has no error |
| Ga1dPipeline.LegacyCovarIds | python/pfs/ga/pipeline/ga1dpipeline.py:951-957 | with distinct free parameters and no free `v_los`, the covariance id of the first rows is their position and 255 for every other row; the velocity row carries the RV fit |
| Ga1dPipeline.LegacyFitCovarIds | python/pfs/ga/pipeline/ga1dpipeline.py:951 | the covariance ids of the free parameters' rows and of the velocity row are their positions |
| Ga1dPipeline.LegacyOtherCovarIds | python/pfs/ga/pipeline/ga1dpipeline.py:951 | the covariance id of every other row is 255 |
| Ga1dPipeline.Extract | python/pfs/ga/pipeline/ga1dpipeline.py:459-477 | `__read_spectra` as intended, with the spectrum ID format defined (see Findings), for one arm: for every visit the spectrum read, or None where the visit lacks the arm or no pixel falls within the arm's wavelength limits |
| Ga1dPipeline.ReadAll | python/pfs/ga/pipeline/ga1dpipeline.py:451-479 | `__read_spectra` as intended, with the spectrum ID format defined (see Findings): KeyError exactly when there is a visit and an arm has no limits in `config.arms`; otherwise the spectra of the given arms, each with an entry for every visit |
| Ga1dPipeline.VisitAsWritten | python/pfs/ga/pipeline/ga1dpipeline.py:459-492 | one visit of `__read_spectra` as written, its arms in set iteration order: no error exactly when every arm is configured and no spectrum of it is read; otherwise KeyError or AttributeError, and AttributeError when every arm is configured |
| Ga1dPipeline.VisitsAsWritten | python/pfs/ga/pipeline/ga1dpipeline.py:456-492 | the visits in order, each as written: no error exactly when every visit passes every arm quietly; the error is KeyError or AttributeError, and AttributeError when every arm is configured |
| Ga1dPipeline.ReadAllAsWritten | python/pfs/ga/pipeline/ga1dpipeline.py:451-500 | `__read_spectra` as written: KeyError or AttributeError on failure; on success one table per arm of the order in which every cell is None |
| Ga1dPipeline.ReadAllAsWrittenFails | python/pfs/ga/pipeline/ga1dpipeline.py:451-500 | the read as written fails exactly when some visit has an arm that is unconfigured or whose spectrum is read |
| Ga1dPipeline.SpectrumReadRaises | python/pfs/ga/pipeline/ga1dpipeline.py:471-492 | with every arm configured, a visit that observes an arm within its limits makes the read as written raise AttributeError, where `ReadAll` returns that spectrum |
| Ga1dPipeline.Pipeline1d.constructor | python/pfs/ga/pipeline/ga1dpipeline.py:47-165 | a pipeline over files already loaded: nothing read, fitted or stacked yet |
| Ga1dPipeline.Pipeline1d.LoadValidate | python/pfs/ga/pipeline/ga1dpipeline.py:376-411 | `__step_load_validate`: PipelineError for an invalid file, a target differing from the first file's, or, when RV fitting with all arms required, a fit arm without spectra; otherwise it passes |
| Ga1dPipeline.Pipeline1d.GetAvailArms | python/pfs/ga/pipeline/ga1dpipeline.py:434-449 | `__get_avail_arms`: the union of the arm letters of all loaded files |
| Ga1dPipeline.Pipeline1d.StepLoad | python/pfs/ga/pipeline/ga1dpipeline.py:342-363 | `__step_load` over loaded files, reading as `ReadAll` intends: KeyError, spectra unchanged, exactly when an available arm is missing from `config.arms`; otherwise the spectra of every available arm and visit, read or None |
| Ga1dPipeline.Pipeline1d.CollectSpectra | python/pfs/ga/pipeline/ga1dpipeline.py:715-747 | `__rvfit_collect_spectra`: KeyError exactly when a used arm has no spectra; else each arm's list over its visits in ascending order |
| Ga1dPipeline.Pipeline1d.StepRvfit | python/pfs/ga/pipeline/ga1dpipeline.py:582-603 | `__step_rvfit`: skips its substeps when RV fitting is off; else the fit arms are the available configured arms, and their spectra are collected with nothing skipped |
| Ga1dPipeline.Pipeline1d.StepRvfitLoad | python/pfs/ga/pipeline/ga1dpipeline.py:605-640 | `__step_rvfit_load`: the grids of the fit arms, each distinct file loaded once; KeyError for an arm without a grid file |
| Ga1dPipeline.Pipeline1d.StepCoadd | python/pfs/ga/pipeline/ga1dpipeline.py:756-823 | `__step_coadd`: skips the rest when RV fitting or coadding is off; IndexError without files; KeyError when the first visit's file has no NO_DATA flag; else a stack for every collected arm among the available, fitted and coadd arms |
| Ga1dPipeline.Pipeline1d.VelocityCorrections | python/pfs/ga/pipeline/ga1dpipeline.py:976-989 | `__get_velocity_corrections`: the visits in strictly ascending order, each with zero corrections |
| Ga1dPipeline.EveryUsedArmCollected | python/pfs/ga/pipeline/ga1dpipeline.py:756-777 | after loading, with at least one file, every arm the coadd step uses gets a list with one entry per visit |
| Ga1dPipeline.ValidationArmsObserved | python/pfs/ga/pipeline/ga1dpipeline.py:394-405 | after loading, with all arms required, validation fails exactly when a fit arm is observed in no visit |
| Jobs.ArgOr | python/pfs/ga/pipeline/scripts/script.py:20-26 | `get_arg` of the scripts' `common.Script` base, assumed to behave like `_get_arg`: a given, non-empty argument is returned; a missing or empty one gives the default |
| Jobs.Taken | python/pfs/ga/pipeline/scripts/submit/submitscript.py:97-100 | the count of objects a loop handles that stops once the count reaches `top`: all without `top`, else `top` of them, never more than there are, and the first one even when `top` is below one |
| Jobs.TakenStops | python/pfs/ga/pipeline/scripts/submit/submitscript.py:97-100 | after each object the loop breaks exactly when the count reached `top` or the objects ran out, and that is at `Taken` |
| Jobs.Strip | python/pfs/ga/pipeline/scripts/batchscript.py:87 | `str.strip`: the text is the result with only whitespace around it, and the result neither starts nor ends with whitespace |
| Jobs.OptionsOnly | python/pfs/ga/pipeline/scripts/batchscript.py:55-69 | a shebang, option lines and then lines not starting with `#` carry exactly those options |
| Jobs.BatchScriptShape | python/pfs/ga/pipeline/scripts/batchscript.py:55-69 | the sbatch script of `_submit_job` is, line by line, the shebang, the `#SBATCH` partition, CPU, memory and time lines, then the body that runs the command with `srun` and moves the log to the output directory last |
| Jobs.BodyLine | python/pfs/ga/pipeline/scripts/batchscript.py:60-69 | no line after the options starts with `#`, so sbatch reads exactly the four options |
| Jobs.NewlineFree | python/pfs/ga/pipeline/scripts/batchscript.py:55-69 | every line of the sbatch script is free of newlines when the settings are |
| Jobs.BodyNewlineFree | python/pfs/ga/pipeline/scripts/batchscript.py:60-69 | every line of the body is free of newlines when the command is |
| Jobs.BatchScript.constructor | python/pfs/ga/pipeline/scripts/batchscript.py:11-19 | the defaults: no batch system, partition `default`, 4 CPUs, `4g`, one hour, no dry run, no `top` |
| Jobs.BatchScript.IsBatch | python/pfs/ga/pipeline/scripts/batchscript.py:21-22 | `is_batch` holds exactly when a batch system was given |
| Jobs.BatchScript.InitFromArgs | python/pfs/ga/pipeline/scripts/batchscript.py:44-52 | each given, non-empty argument replaces its setting; the dry-run flag is always taken from the arguments |
| Jobs.BatchScript.SubmitJob | python/pfs/ga/pipeline/scripts/batchscript.py:54-87 | in dry-run mode nothing is submitted; else the script is submitted, and a non-zero return code raises RuntimeError with the stripped error output |
| Jobs.JobFileShape | python/pfs/ga/pipeline/scripts/submit/submitscript.py:114-121 | a job file is, line by line, the shebang, the partition, CPU, memory and output `#SBATCH` lines, an empty line and the `srun` of the run script on the object's configuration file |
| Jobs.JobLineOneLine | python/pfs/ga/pipeline/scripts/submit/submitscript.py:114-121 | every line of a job file is free of newlines when the settings and paths are |
| Jobs.JobMaker | python/pfs/ga/pipeline/scripts/submit/submitscript.py:104-112 | the job file of an object is `job.sh` in the object's configuration directory, with the script's settings |
| Jobs.Writes | python/pfs/ga/pipeline/scripts/submit/submitscript.py:123-126 | the files written for the first objects, one per object in order |
| Jobs.CreateJobFiles | python/pfs/ga/pipeline/scripts/submit/submitscript.py:81-102 | the loop of `__create_sbatch_files`: a job file per object, keyed by objId, for the first `Taken` objects; written only when not in dry-run mode |
| Jobs.SbatchCommands | python/pfs/ga/pipeline/scripts/submit/submitscript.py:130-132 | one `sbatch` command per job file, in order |
| Jobs.SubmitScript.constructor | python/pfs/ga/pipeline/scripts/submit/submitscript.py:20-28 | the defaults: partition `default`, 4 CPUs, `4g`, no dry run, no `top` |
| Jobs.SubmitScript.InitFromArgs | python/pfs/ga/pipeline/scripts/submit/submitscript.py:41-48 | each given, non-empty argument replaces its setting |
| Jobs.SubmitScript.CreateSbatchFiles | python/pfs/ga/pipeline/scripts/submit/submitscript.py:81-128 | `__create_sbatch_files`: the job files of the first `Taken` objects, written unless in dry-run mode; the settings are kept |
| Jobs.SubmitScript.SubmitSbatchJobs | python/pfs/ga/pipeline/scripts/submit/submitscript.py:130-132 | `__submit_sbatch_jobs`: `sbatch` is run on every job file, in order |
| Jobs.SubmitScript.Run | python/pfs/ga/pipeline/scripts/submit/submitscript.py:59-79 | `run`: nothing when no object matches; else the job files of the first `Taken` objects, each then submitted |
| Jobs.DryRunStillSubmits | python/pfs/ga/pipeline/scripts/submit/submitscript.py:124-132 | whatever the dry-run flag, `sbatch` is run once per object taken, in order, on that object's job file path, so in dry-run mode on files never written; at least once when there is an object |
| RunScript.Overridden | python/pfs/ga/pipeline/scripts/run/runscript.py:139-147 | every directory given on the command line replaces the configuration's; every other setting is the configuration's |
| RunScript.Head | python/pfs/ga/pipeline/scripts/run/runscript.py:74-75 | `config_files[:top]`: a prefix of the files; all without `top`; at most `top` for a non-negative `top`; a negative `top` drops that many from the end |
| RunScript.HeadEdges | python/pfs/ga/pipeline/scripts/run/runscript.py:75 | `--top 0` runs no configuration, while `--top -d` for any `d >= 1` runs all but the last `d` (none when `d` covers every file) |
| RunScript.LogLevel | python/pfs/ga/pipeline/scripts/run/runscript.py:111-116 | the log level is the pipeline's, the script's own or DEBUG, and no higher than any of those that apply |
| RunScript.Script.constructor | python/pfs/ga/pipeline/scripts/run/runscript.py:22-29 | no `top` and no configuration files |
| RunScript.Script.InitFromArgs | python/pfs/ga/pipeline/scripts/run/runscript.py:37-42 | given configuration files and a given `top` replace the current ones |
| RunScript.Script.UpdateDirectories | python/pfs/ga/pipeline/scripts/run/runscript.py:130-159 | `__update_directories`: the command line overrides the configuration's directories, then every setting that is not None is set on the input repository |
| RunScript.Script.Run | python/pfs/ga/pipeline/scripts/run/runscript.py:61-79 | `run`: without configuration files the ones found are used and nothing runs when none are found; the list is cut by `top` and each file is run in order |
| RunScript.Script.RunPipeline | python/pfs/ga/pipeline/scripts/run/runscript.py:81-89 | `__run_pipeline`: the file is loaded and its directories are updated on the input repository before the pipeline runs |
| RunScript.ApplySets | python/pfs/ga/pipeline/scripts/run/runscript.py:149-159 | exactly the settings that are not None are set; the other variables keep their values |
| RunScript.LastRunSets | python/pfs/ga/pipeline/scripts/run/runscript.py:78-159 | after the runs the input repository holds the last configuration's settings, overridden by the command line, and keeps earlier values where that configuration has None |
| RunScript.CommandLineWins | python/pfs/ga/pipeline/scripts/run/runscript.py:135-151 | a directory given on the command line is what the input repository holds after any run, whatever the configuration files say |
| Catalog.AddVisits | python/pfs/ga/pipeline/scripts/catalog/catalogscript.py:157-166 | the loop over an object's observations records what `Seen` describes |
| Catalog.SeenAppend | python/pfs/ga/pipeline/scripts/catalog/catalogscript.py:157-166 | seeing two runs of observations one after the other is seeing them joined |
| Catalog.FirstIndex | python/pfs/ga/pipeline/scripts/catalog/catalogscript.py:158-162 | the first observation of a visit: one in that visit with none before it, or none at all |
| Catalog.SeenDescribes | python/pfs/ga/pipeline/scripts/catalog/catalogscript.py:157-166 | the visits seen are each observed visit once, in the order first observed, with the design and times of that first observation and the arm strings of all its observations |
| Catalog.NoVisitTwice | python/pfs/ga/pipeline/scripts/catalog/catalogscript.py:158-159 | no visit is listed twice |
| Catalog.CountArm | python/pfs/ga/pipeline/scripts/catalog/catalogscript.py:194-195 | `count_arms`: the number of observations whose arm string holds the letter; all of them exactly when every one does, none exactly when none does |
| Catalog.Matches | python/pfs/ga/pipeline/scripts/catalog/catalogscript.py:171 | the fibers of the design that carry the object, and only those |
| Catalog.Picked | python/pfs/ga/pipeline/scripts/catalog/catalogscript.py:209-228 | the value and error pairs of the `ga1dpipe` measurements of one parameter |
| Catalog.TakeAllColumns | python/pfs/ga/pipeline/scripts/catalog/catalogscript.py:209-228 | every tabulated column grows by the `ga1dpipe` measurements of its parameter in order; other algorithms and parameters add nothing |
| Catalog.AddMeasurements | python/pfs/ga/pipeline/scripts/catalog/catalogscript.py:209-228 | the loop over an object's stellar parameters fills the columns as `TakeAll` does |
| Catalog.AddObject | python/pfs/ga/pipeline/scripts/catalog/catalogscript.py:147-231 | one loaded object: ValueError when its catId differs from the catalog's; IndexError without observations; KeyError when its first visit has no design; ValueError unless that design carries it on exactly one fiber; else its visits are seen and its row and measurements appended |
| Catalog.Loaded | python/pfs/ga/pipeline/scripts/catalog/catalogscript.py:146-148 | the objects whose file loaded, and only those |
| Catalog.BuildHolds | python/pfs/ga/pipeline/scripts/catalog/catalogscript.py:145-236 | a built catalog holds one row per loaded object, shares their catId (none without objects), has the visits seen from all their observations and the measurements of all of them |
| Catalog.BuildRows | python/pfs/ga/pipeline/scripts/catalog/catalogscript.py:145-236 | a built catalog has one row per loaded object, with its catId and objId, and shares their catId (none without objects) |
| Catalog.BuildVisits | python/pfs/ga/pipeline/scripts/catalog/catalogscript.py:145-236 | a built catalog's visits are those seen from all loaded objects' observations |
| Catalog.BuildMeasured | python/pfs/ga/pipeline/scripts/catalog/catalogscript.py:145-236 | a built catalog's measured columns hold all loaded objects' measurements, taken in order |
| Catalog.CatalogVisits | python/pfs/ga/pipeline/scripts/catalog/catalogscript.py:156-166 | the catalog's visits are those of all the loaded objects' observations, each once, in the order first observed |
| Catalog.CatIdsMustMatch | python/pfs/ga/pipeline/scripts/catalog/catalogscript.py:151-154 | two loaded objects with different catIds make the catalog fail |
| Catalog.FailSticks | python/pfs/ga/pipeline/scripts/catalog/catalogscript.py:154 | once the catalog failed, further objects leave the failure as it is |
| Catalog.AddOne | python/pfs/ga/pipeline/scripts/catalog/catalogscript.py:147-231 | the loop body for an object that loaded computes `AddObject` |
| Catalog.CreateCatalog | python/pfs/ga/pipeline/scripts/catalog/catalogscript.py:93-236 | `__create_catalog`: the objects in order, each loaded one added, until `top` objects were handled, loaded or not |
| Catalog.MissingCountsTowardTop | python/pfs/ga/pipeline/scripts/catalog/catalogscript.py:145-148 | objects count toward `top` whether or not their file loaded: with `top` one and the first object missing, the catalog is empty |
| Catalog.Script.constructor | python/pfs/ga/pipeline/scripts/catalog/catalogscript.py:30-35 | no parameters file, ID column `__target_idx`, no `top` |
| Catalog.Script.InitFromArgs | python/pfs/ga/pipeline/scripts/catalog/catalogscript.py:44-49 | each given, non-empty argument replaces its setting |
| Catalog.Script.Run | python/pfs/ga/pipeline/scripts/catalog/catalogscript.py:57-90 | `run`: with no object found nothing is saved; else the catalog of the objects found is saved unless building it raised |

## Left out

- File and FITS I/O are outside the model. The file system is the list of paths a glob returns, or a set of existing paths. Written files are recorded as (path, text) pairs. `PfsSingle.read`, `writeFits` and `config.save` are not part of this model.
- The glob and regular-expression engines are modelled only for the shapes the product tables use. These shapes are fixed-width fields, one free `.*` field and an anchored extension.
- The data repositories are parameters: the Butler, `PfsGen3Repo`, `find_object`, `locate_product`, `format_dir` and `format_filename`. So are `calculatePfsVisitHash` and `wraparoundNVisit`, because their code is not part of this model.
- All pfsspec numerics are left out: fitting, PSFs, grids, resampling, SNR, stacking and velocity corrections. A spectrum's mask is a pixel count given as a parameter. A stacked spectrum is the list of spectra it stacks.
- Floating-point values are copied or compared but never computed. These are fluxes, priors and log-likelihood bounds.
- The `sbatch` and `os.system` process calls are left out. A submission is the command or script text it would run, and the return code and error output are parameters.
- Logging, traces, plots, `Timer` and the `debugpy` re-raise of the step runner are left out. They do not change what a step returns.
- The step table of `GAPipeline` (gapipe/gapipeline.py:133-217) is data. The runner takes the step tree and the workers as parameters.
- Step instances, `context.state` and the attributes the steps share are fields of the per-step state classes. These are `RvFitStep.FitState`, `TempFitStep.TempFitState`, `CoaddStep.CoaddState` and `Ga1dPipeline.Pipeline1d`, not one shared context object.
- The following step operations are pure numerics or I/O and are left out:
  - the RV-fit and template-fit `init` of the fitters, and PSF loading;
  - `validate_data`, `preprocess`, `run` and `cleanup`;
  - `GAPipeline.save_output_product`, `unload_data_products` and `create_steps`.
- The `run` of `SaveStep` is left out. It builds the PfsGAObject product and calls `__get_abundances`, which returns empty tables.
- `MaskHelper` is left out: a flag table is a map from bit to flag name.
- CoaddStep.AddExtraFlags: treats flag tables as values. The source can share one dictionary object between spectra, and that aliasing is not modelled. The coadd input holds the RV-fit step's own spectrum lists (coaddstep.py:61), so the flags added at coaddstep.py:73 also reach the spectra in `rvfit_spectra`; `CoaddState.Run` takes the fitted spectra as a value and leaves them unchanged.
- `str.format` failures are left out. A template with a placeholder the arguments lack raises in Python; here formatting is a total parameter.
- Ga1dPipeline.InitSucceeds: covers only the grid and PSF file checks of `__step_init`. Saving the configuration, checking the pfsSingle files and creating directories are file I/O.
- Ga1dPipeline.Pipeline1d.StepLoad: starts from pfsSingle files already loaded. Loading them from disk (ga1dpipeline.py:328,345-348,366) goes through `__get_pfsSingle_dir_filename`, which reads `Constants.PFSSIGNLE_DIR_FORMAT` (ga1dpipeline.py:278); the constants do not define it, so as written that path raises AttributeError. File loading is I/O and is not modelled.
- Target comparisons in the load step and the legacy pipeline use value equality of the modelled target fields. Python compares the target objects with `!=`.
- SearchFilters.Normalize: requires that a filter appears in a list only as its sole item. A list of two or more items holding a filter, which `list(values)` would keep, is outside the model; so are `SearchFilter.constructor` and `SetValues` given one.
- GaPipeline.LoadAllFails: the loader is total. `load_product` raising FileNotFoundError for a missing file (gapipe/gapipeline.py:326,332) is not modelled, so "exactly" covers only the NotImplementedError of an unknown product type. The cache entries written before such a failure are not modelled either.
- LoadStep.LoadEachFails: inherits the total loader of `GaPipeline.LoadAll`. A `load_product` that raises cannot make `run` raise here, so "exactly" covers only an unknown product type.
- Dates.ParseFullDate: follows `date.fromisoformat` of Python 3.10 and earlier, which reads `YYYY-MM-DD` only. From Python 3.11 it also accepts the basic form `YYYYMMDD` and the ISO week forms such as `2021-W01-1` and `2021W011`; the model rejects those with ValueError. The date filter and its range tokens inherit this.
- Dates.ParseThenFormat: holds for the Python 3.10 parser only. Under Python 3.11 and later, `20240102` parses and renders back as `2024-01-02`, which is not the text read.
- Ga1dPipeline.LowerChar: lowers ASCII capitals only. Python's `str.lower` also folds other alphabets.
- Jobs.Strip: strips the ASCII whitespace characters only. Python's `str.strip` also strips Unicode spaces.
- Digits.ParseHexadecimal and Digits.ParseDecimal: accept a sign and, for base 16, a `0x` prefix. They do not accept the surrounding whitespace or the underscores between digits that Python's `int` also allows.
- RunScript.Overridden and Jobs.ArgOr: `is_arg` and `get_arg` are inherited from the `Script` class of the `common` package (scripts/pipelinescript.py:6,10), which is not part of this model. They are assumed to behave like `_get_arg` of scripts/script.py:20-26: `get_arg(name)` gives a given, non-empty argument and otherwise the default, and `is_arg(name)` holds exactly when `get_arg(name)` gives a non-empty value.
- The catalog script leaves some parts out:
  - the `sort_arms` arm column and the placeholder columns filled with -1 or NaN;
  - the construction of `GACatalogTable`, `Observations` and `PfsGACatalog`;
  - `_load_stellar_params_file`.
  The catalog keeps the visit list, the arm strings of each visit, the rows and the measurement columns.
- The `prepare` methods of the scripts only redirect log files and are left out.
- The pipeline execution inside the run script is recorded as the configuration path it ran on.
- Configs.LoadImpl: a nested configuration given something other than a dictionary fails with TypeError. In Python it would iterate a list or string and fail later or differently.
- Priors.TemplateDistribution: a scalar template distribution combined with `dist_args` fails with TypeError. Python would index a string template character by character.
- The dated bare `PfsArm` and `PfsMerged` names are not covered by a round trip. Their unnamed `v(\d{6})` group is not tied to the visit parameter.
- The work-directory tables of `GAPipeWorkdirConfig` are modelled with the identity parameters of a per-object product. These tables inherit their parameters from the Gen3 table, which is not part of this model.
- The exposure-time and seeing columns the configure script copies from the observation log are opaque readings. The model does not interpret them.
- TempFitStep.TempFitState.Load: does not model the SNR loop of `load` (tempfitstep.py:78-82). That loop calls `get_mask_bits` on every spectrum read, including missing ones. `RvFitStep.MissingSpectrumRaises` shows the same defect for the RV-fit step.
- The following are printing or thin dispatch over the repositories and are not part of this model:
  - the legacy `pipeline.py`;
  - the command-line dispatch scripts;
  - the default-value configuration classes;
  - the legacy `config/gatargetconfig.py`, whose `get_identity` raises NotImplementedError;
  - the trivial steps (vcorr, chemfit, cleanup, validate, init);
  - the JSON encoder hook.
- The program has no concurrency, so there is none to model.

## Findings

| source | as written | input that shows it | evidently intended | confidence | as-written member | corrected member |
|---|---|---|---|---|---|---|
| python/pfs/ga/pipeline/discovery/filesystemdiscovery.py:25 | a fresh discovery builds its objId filter with `HexIDFilter(name=..., format=...)`, a keyword `HexIDFilter.__init__` does not declare | any construction without `orig` raises TypeError | the filters are built with their names and formats, as the rest of the class expects | high, not executed | Discoveries.Discovery.Create | Discoveries.Discovery.Intended |
| python/pfs/ga/pipeline/scripts/configure.py:33 | `HexIDFilter('objid', format='{:016x}')` binds `format` both positionally and by keyword | constructing the script raises TypeError | a hex filter named `objid` with format `{:016x}` | high, not executed | SingleGrouping.ObjIdFilterRaises | SingleGrouping.ConfigureScript.constructor |
| python/pfs/ga/pipeline/scripts/configure.py:47-71 | the single `--tract` string is handed to `parse`, which iterates it character by character | `--tract 12` filters on tracts 1 and 2 and rejects tract 12 | the tract string is one token | medium, not executed | SingleGrouping.TractCharactersMiss | SingleGrouping.TractTokens |
| python/pfs/ga/pipeline/scripts/configure.py:149-158 | `match.group(...)` is read before the `match is not None` test | a globbed name the pfsSingle pattern rejects raises AttributeError | names that do not parse are skipped | high, not executed | SingleGrouping.ForeignNameRaises | SingleGrouping.OutcomeMeaning |
| python/pfs/ga/pipeline/gapipe/steps/loadstep.py:42-50 | `target` is never assigned, so the comparison of each product's target with the first one never runs | two PfsSingle products of different targets pass validation | products of different targets raise PipelineError | high, not executed | LoadStep.DifferentTargetsPass | LoadStep.CheckPairsCorrected |
| python/pfs/ga/pipeline/gapipe/steps/rvfitstep.py:161-166 | `masked_count == 0` drops the spectrum, but `masked_count` counts the masked pixels | a spectrum without any masked pixel is thrown away as "all masked" | a spectrum is dropped when no pixel is unmasked | high, not executed | RvFitStep.CleanSpectrumDropped | RvFitStep.Screen |
| python/pfs/ga/pipeline/gapipe/steps/tempfitstep.py:167-172 | the same `masked_count == 0` test as the RV-fit step | a spectrum without any masked pixel is thrown away as "all masked" | a spectrum is dropped when no pixel is unmasked | high, not executed | TempFitStep.CleanSpectrumKept | TempFitStep.TempFitState.Load |
| python/pfs/ga/pipeline/gapipe/steps/rvfitstep.py:78-81 | the SNR loop calls `spec.get_mask_bits` on every cell `read_spectra` returned, including None | a used arm that lacks a spectrum at one visit makes `load` raise AttributeError | missing spectra are left to the collection, which handles None | medium, not executed | RvFitStep.MissingSpectrumRaises | RvFitStep.FitState.Load |
| python/pfs/ga/pipeline/ga1dpipeline.py:492 | `__read_spectrum` sets the spectrum ID from `Constants.PFSARM_ID_FORMAT`, which the constants do not define | a visit that observes a configured arm with pixels within the arm's limits: the first spectrum read raises AttributeError; with an unconfigured arm as well, KeyError or AttributeError comes first by the set's iteration order | the spectra of every arm and visit are read | high, not executed | Ga1dPipeline.SpectrumReadRaises | Ga1dPipeline.ReadAll |
