# RAD error decoder — a Dafny model

The RAD error decoder helps flight-plan operators with the EUROCONTROL Route
Availability Document (RAD). It does this in two halves.

- **Python tooling.** `scripts/rad_parser.py` turns the RAD workbook into
  one JSON document: metadata, annex lists of records, and statistics.
  `scripts/validate_rad.py` checks that document.
- **Browser front end.**
  - `frontend/src/services/searchEngine.js` flattens the annexes, runs fuzzy
    searches with filters, looks entries up by id and by the `REF:[…]` code
    of an eurofpl error message, and counts entries for the dashboard.
  - `SearchBar.jsx` parses error messages a second time, for its hint box.
  - `ResultCard.jsx` renders and copies a record.
  - `FilterPanel.jsx` toggles the three search filters.

This project models each of those pieces in Dafny.

- **Pure code** becomes functions over datatypes:
  - the record builders;
  - the error-message patterns;
  - the copy text;
  - the filter record.
- **Code that loops or updates state** becomes methods proved against those
  functions:
  - the parser's sheet loop (a `class RADParser` whose `data` field `Parse`
    rewrites);
  - the row loops and the column scan;
  - the engine's statistics loop (a `class RADSearchEngine`);
  - the validator's loops;
  - the `lines.push` sequence of `formatForCopy`.

The modules are:

- `Wrappers`, `Text`, `Seqs`: Option/Result, ASCII case mapping, JavaScript
  and Python trimming, split/join, insertion-ordered dictionaries and
  counters.
- `RadData`: records, annex sections, statistics, the document, and the JSON
  value it is written as.
- `RadParser`: `rad_parser.py`.
- `ValidateRad`: `validate_rad.py`, over a loaded JSON value, including the
  Python exceptions its subscripts raise.
- `ErrorPatterns`, `ErrorHints`: the three regular expressions, written out
  as functions. They serve the engine's `_extractErrorInfo` and the search
  bar's `extractErrorCode`.
- `EngineStats`, `SearchEngine`: `searchEngine.js`.
- `ResultCard`, `FilterPanel`: the two components.
- `Pipeline`: how the halves fit together. The parsed document always passes
  validation with no warning. The engine sees exactly the entries the parser
  counted.

Some behaviours of the code are proved as lemmas rather than reported as
defects:

- **Status filter.** The filter compares the upper-cased indicator with
  the filter value exactly as given (searchEngine.js:93), so the filter
  value itself is case-sensitive:
  - a filter value with a lower-case letter matches nothing
    (`LowerCaseStatusMatchesNothing`);
  - the panel's `MODIFIED` and `DELETED` buttons never match the RAD codes
    `AMD` and `DEL` (`LongStatusMissesCodes`).
- **Dead stoplist word.** `TRAFFIC` can never be a point: the point pattern
  matches exactly five letters (`LongWordsNeverPoints`).
- **The two error parsers disagree.**
  - The engine drops the word `ERROR`; the search bar keeps it
    (`ErrorWordOnlyInSearchBar`).
  - When several category keywords occur, the engine lets the last one
    tested win and the search bar the first; they agree exactly when at most
    one keyword occurs (`CategoriesAgreeIff`).
- **Unknown reference.** An unknown reference code falls through to a point
  search (`UnknownReferenceFallsThrough`).
- **Annex 3B id column.** The id column is found by substring on normalised
  names. `"id"` is a substring of `"validfrom"`, so a `Valid From` column
  placed before the id column is taken as the id (`ValidFromTakenForId`).
- **Airway line.** The copy's airway line is trimmed as a whole: with no
  start point it keeps a double space after the label
  (`AirwayLineWithoutEnds`).
- **Suggestions.** `getSuggestions` checks the untrimmed length of the query
  and `search` the trimmed one.

## Model

| member | source | states |
|---|---|---|
| RadParser.SafeStr | scripts/rad_parser.py:405-409 | A missing cell gives the empty string; the result never starts or ends with whitespace; a whitespace-free value is kept and an all-whitespace one becomes empty |
| RadParser.SafeStrIdempotent | scripts/rad_parser.py:405-409 | Cleaning an already cleaned value changes nothing |
| RadParser.CellTexts | scripts/rad_parser.py:415-417 | The texts collected from a row are never empty and are at most one per cell |
| RadParser.BuildSearchableText | scripts/rad_parser.py:411-419 | The loop over the cells builds exactly the searchable text of the row |
| RadParser.SearchableTextEmpty | scripts/rad_parser.py:411-419 | The searchable text is empty exactly when every cell is missing or blank |
| RadParser.SearchableTextHasCell | scripts/rad_parser.py:411-419 | Every non-blank cell occurs, stripped and upper-cased, in the searchable text |
| RadParser.Fields | scripts/rad_parser.py:154-172 | A record's field block has exactly the layout's keys, in the layout's order |
| RadParser.ParseRows | scripts/rad_parser.py:149-181 | The row loop of an annex parser returns exactly the records of the rows, in order |
| RadParser.RecordsPerRow | scripts/rad_parser.py:149-152 | One record per row whose id cell is present, in row order; rows without an id are skipped |
| RadParser.RecordTags | scripts/rad_parser.py:154-177 | A record's id is the cleaned id cell; its annex, type and searchable text are the layout's tags and the row's text |
| RadParser.RecordsTagged | scripts/rad_parser.py:173-176 | Every record of a sheet carries the sheet's annex and type tags |
| RadParser.ParseAnnex3A | scripts/rad_parser.py:272-352 | The Annex 3A parser returns the records of the column layout its sheet name selects |
| RadParser.Annex3AKinds | scripts/rad_parser.py:278-312 | ARR sheets give arrivals, otherwise DEP sheets departures, otherwise conditions; only ARR and DEP sheets get an aerodrome field, and it comes after the tags |
| RadParser.AerodromeOnlyForFlights | scripts/rad_parser.py:334-336 | An Annex 3A record has an `aerodrome` key exactly when its sheet is an ARR or DEP sheet |
| RadParser.FirstMatching | scripts/rad_parser.py:366-373 | The index of the first column whose normalised name contains the normalised id name; no earlier column matches |
| RadParser.IdColumn | scripts/rad_parser.py:366-377 | The column found is a matching column of the sheet; none is found exactly when no column matches |
| RadParser.FindIdColumn | scripts/rad_parser.py:366-377 | The scan over the columns, which stops at the first match, finds exactly that column |
| RadParser.ParseAnnex3B | scripts/rad_parser.py:354-403 | Annex 3B gives no records when no id column is found, otherwise one record per row with an id in that column |
| RadParser.ValidFromTakenForId | scripts/rad_parser.py:366-373 | A `Valid From` column before the id column is chosen as the `ID` column |
| RadParser.CleanColumn | scripts/rad_parser.py:127 | A cleaned column name has no newline and no surrounding whitespace |
| RadParser.CleanColumnIdempotent | scripts/rad_parser.py:127 | Cleaning column names twice is the same as cleaning them once |
| RadParser.ParseSheet | scripts/rad_parser.py:123-143 | The dispatcher returns the records of the first annex family the sheet name contains, and nothing for any other sheet |
| RadParser.SheetRecordsTagged | scripts/rad_parser.py:129-143 | An unrecognised sheet gives no records; every record carries the annex its sheet name dispatched to |
| RadParser.VersionAt | scripts/rad_parser.py:103 | A match at a position starts with `RAD_`, has a four-digit cycle and non-empty digit runs for major and minor |
| RadParser.MetadataFor | scripts/rad_parser.py:100-121 | Metadata has keys cycle, version, filename, parsed_at. When the pattern matches anywhere in the name, the cycle and `major.minor` version are those of its leftmost match; the cycle is `unknown` exactly when it matches nowhere, and the version is then `0.0` |
| RadParser.MetadataRoundTrip | scripts/rad_parser.py:102-112 | A name holding `RAD_<cycle>_v<major>_<minor>` after text with no earlier `RAD_`, and not followed by another digit, gives back that cycle and the version `<major>.<minor>` |
| RadParser.MetadataUnknown | scripts/rad_parser.py:114-121 | A name without `RAD_` gives cycle `unknown` and version `0.0` |
| RadParser.MappingKeysDistinct | scripts/rad_parser.py:34-44 | The nine sheet mappings have distinct JSON keys |
| RadParser.ParsedAnnexes | scripts/rad_parser.py:65-85 | The parsed annexes hold exactly the mapping's keys, in mapping order, each a list |
| RadParser.MissingSheetIsEmpty | scripts/rad_parser.py:83-85 | A sheet that cannot be read leaves an empty list under its key |
| RadParser.AnnexCounts | scripts/rad_parser.py:91-94 | `by_annex` has exactly the keys of the annexes |
| RadParser.CountsSumToTotal | scripts/rad_parser.py:88-94 | The per-annex counts sum to the number of listed records |
| RadParser.ParsedTotalsAgree | scripts/rad_parser.py:88-95 | `total_entries` equals the sum of `by_annex` |
| RadParser.RADParser.constructor | scripts/rad_parser.py:46-55 | A new parser holds empty metadata, annexes and stats |
| RadParser.RADParser.ExtractMetadata | scripts/rad_parser.py:100-121 | Only the metadata of the parser's data is replaced, by the metadata of its file name |
| RadParser.RADParser.Parse | scripts/rad_parser.py:57-98 | The parse loop leaves metadata, the annexes of every mapped sheet and consistent stats in `data`, and returns `data` |
| RadParser.ParseMapped | scripts/rad_parser.py:66-85 | One loop step: the JSON key of the mapping and the records stored under it |
| RadParser.ParseStep | scripts/rad_parser.py:77-80 | Storing a step's records keeps the annexes in mapping order, and adding its count keeps the running total equal to the records stored so far |
| ValidateRad.PyIn | scripts/validate_rad.py:36 | Python `in` on a dict tests its keys, and raises on values that are not a dict, list or string |
| ValidateRad.KeyCheck | scripts/validate_rad.py:34-38 | The check fails on a required key that `in` does not find, or raises; it is silent exactly when every key is found |
| ValidateRad.CheckKeys | scripts/validate_rad.py:34-38 | The loop over the required keys computes that check |
| ValidateRad.CycleWarns | scripts/validate_rad.py:43-47 | For dict metadata, it warns exactly when `cycle` is absent or falsy |
| ValidateRad.FirstNonList | scripts/validate_rad.py:53-56 | The first annex whose value is not a list; every earlier one is a list |
| ValidateRad.CountEntries | scripts/validate_rad.py:50-60 | The annex loop stops at the first non-list, and otherwise sums the list lengths |
| ValidateRad.FirstNonEmpty | scripts/validate_rad.py:72-73 | The first annex holding a non-empty list; no earlier one does |
| ValidateRad.MissingOf | scripts/validate_rad.py:76 | For an object, the missing fields are exactly the required fields it lacks |
| ValidateRad.FindMissing | scripts/validate_rad.py:75-76 | The comprehension's loop computes those fields, and raises as Python does |
| ValidateRad.SampleWarnings | scripts/validate_rad.py:71-79 | The sample loop stops at the first non-empty annex and warns about its first entry only |
| ValidateRad.Validate | scripts/validate_rad.py:13-85 | The validator from the structure check on returns the specified outcome: pass with total and warnings, failure with reason, or an exception |
| ValidateRad.ValidateObject | scripts/validate_rad.py:42-85 | On an object with the three keys, steps 4 to 8 return the specified outcome |
| ValidateRad.MissingKeyFails | scripts/validate_rad.py:34-38 | An object lacking a required key fails on the first one missing |
| ValidateRad.FailureReasons | scripts/validate_rad.py:33-56 | Failure means a required key is missing, or a named annex is not a list |
| ValidateRad.PassedMeans | scripts/validate_rad.py:33-60 | A pass means a dict with the three keys, dict annexes of lists only, and a total equal to the summed list lengths |
| ValidateRad.WellShapedPasses | scripts/validate_rad.py:42-85 | A document of the parser's shape passes with the counted total whatever its cycle, stats and sample hold |
| ValidateRad.PassedWarnings | scripts/validate_rad.py:42-79 | On a pass, the cycle warning shows exactly when the cycle is absent or falsy, and the stats warning exactly when the stated total differs; a field warning names only the first non-empty annex and its missing fields |
| ValidateRad.SampleFields | scripts/validate_rad.py:71-79 | The sample check's only warning concerns the first entry of the first non-empty annex |
| RadData.Flatten | frontend/src/services/searchEngine.js:21-32 | The flattened list holds the entries of the list-valued annexes and nothing else, as many as they list |
| SearchEngine.RADSearchEngine.constructor | frontend/src/services/searchEngine.js:8-16 | The engine holds the flattened entries, the metadata and the matcher built over those entries |
| SearchEngine.RADSearchEngine.Create | frontend/src/services/searchEngine.js:8-11 | Construction fails with `Invalid RAD data structure` exactly when there is no data or no annexes |
| SearchEngine.RADSearchEngine.FlattenData | frontend/src/services/searchEngine.js:21-32 | The loop over the annexes yields the flattened list |
| SearchEngine.RADSearchEngine.Search | frontend/src/services/searchEngine.js:70-107 | A trimmed query shorter than 2 gives nothing. Otherwise the results are the first `limit` of the matcher's candidates that pass every set filter, decorated; all pass the filters and, with a lawful matcher, come from the data |
| SearchEngine.RADSearchEngine.RelaxingKeepsCandidates | frontend/src/services/searchEngine.js:88-96 | With relaxed options, the candidates kept under the stricter options are exactly the relaxed list filtered again, so none is lost, their order is kept, and neither the candidate list nor the result gets shorter |
| SearchEngine.RADSearchEngine.LowerCaseStatusMatchesNothing | frontend/src/services/searchEngine.js:93 | A status filter containing a lower-case letter matches no entry |
| SearchEngine.Decorate | frontend/src/services/searchEngine.js:102-106 | Each candidate becomes one hit with its entry, score and matches, in order |
| SearchEngine.RADSearchEngine.SearchInAnnex | frontend/src/services/searchEngine.js:275-277 | The result is the search with the annex filter and a limit of 100, so it has at most 100 hits, all from the given annex and among its entries |
| Seqs.FilterInOrder | frontend/src/services/searchEngine.js:115-118 | A filter keeps exactly the elements that pass, in their order and as often as they occur |
| SearchEngine.Refilter | frontend/src/services/searchEngine.js:88-96 | Filtering with relaxed options and then the stricter ones equals filtering with the stricter ones alone |
| SearchEngine.RADSearchEngine.GetAnnexEntries | frontend/src/services/searchEngine.js:284-286 | Exactly the entries whose annex is the one given, in data order and as often as they occur there |
| SearchEngine.RADSearchEngine.GetMetadata | frontend/src/services/searchEngine.js:292-294 | The metadata the engine was built with |
| SearchEngine.RADSearchEngine.SearchById | frontend/src/services/searchEngine.js:114-119 | Exactly the entries whose upper-cased id equals the trimmed, upper-cased query, in data order and as often as they occur there |
| SearchEngine.RADSearchEngine.SearchByIdFinds | frontend/src/services/searchEngine.js:114-119 | An entry with a trimmed id is found by any case variant of that id |
| SearchEngine.RADSearchEngine.SearchByReference | frontend/src/services/searchEngine.js:126-140 | Exactly the entries whose id equals the code with brackets and whitespace removed and upper-cased, in data order and as often as they occur there |
| SearchEngine.RADSearchEngine.BracketsIgnored | frontend/src/services/searchEngine.js:128 | `[CODE]` and `CODE` find the same entries |
| SearchEngine.CleanRefChars | frontend/src/services/searchEngine.js:128 | A cleaned code has no bracket, no whitespace and no lower-case letter |
| SearchEngine.CleanRefNormal | frontend/src/services/searchEngine.js:115-131 | The id normalisation leaves a cleaned code unchanged |
| SearchEngine.BracketsDropped | frontend/src/services/searchEngine.js:128 | Cleaning drops a pair of surrounding brackets |
| SearchEngine.RefCodeClean | frontend/src/services/searchEngine.js:186-188 | A reference code extracted from a message is already clean |
| SearchEngine.ExampleCodeClean | frontend/src/services/searchEngine.js:128 | Cleaning `LSLF1139C` leaves it unchanged |
| SearchEngine.RADSearchEngine.ExtractErrorInfo | frontend/src/services/searchEngine.js:173-211 | The method builds exactly the engine's error information |
| SearchEngine.RADSearchEngine.SearchByError | frontend/src/services/searchEngine.js:147-167 | A reference lookup is answered exactly when the message has a code that finds entries, and then only matching entries. Otherwise the answer is the 20-hit search for the points joined by spaces within the message's annex when there are points, and for the whole message when there are none |
| SearchEngine.RADSearchEngine.ErrorWithKnownReference | frontend/src/services/searchEngine.js:150-154 | A known code answers with exactly the entries of that code |
| SearchEngine.RADSearchEngine.UnknownReferenceFallsThrough | frontend/src/services/searchEngine.js:150-162 | An unknown code with points falls through to a search for the points, filtered by annex, limit 20 |
| SearchEngine.RADSearchEngine.DocumentedErrorLookup | frontend/src/components/Header.jsx:97 | The documented example message finds the entries with id `LSLF1139C` whenever one exists |
| SearchEngine.RADSearchEngine.CleanCodeLookup | frontend/src/services/searchEngine.js:126-154 | A message whose code is the id of some entry is answered by reference with that id's entries |
| SearchEngine.Ids | frontend/src/services/searchEngine.js:226 | The id of each hit, in order |
| SearchEngine.RADSearchEngine.GetSuggestions | frontend/src/services/searchEngine.js:219-231 | Under 2 characters nothing. Otherwise the first `limit` of the distinct ids, in order of first appearance, of a search with twice the limit, or all of them when there are fewer |
| SearchEngine.RADSearchEngine.DefaultSuggestions | frontend/src/services/searchEngine.js:219-228 | Called without a limit, at most five suggestions, a prefix of the distinct ids of a search for ten entries |
| SearchEngine.RADSearchEngine.GetStats | frontend/src/services/searchEngine.js:237-267 | The loop over the entries computes exactly the specified statistics |
| SearchEngine.CountEntryCountries | frontend/src/services/searchEngine.js:252-259 | One entry's country tokens are added to the counter |
| SearchEngine.CountCountries | frontend/src/services/searchEngine.js:253-258 | The inner loop adds each non-blank trimmed piece of `nas_fab` |
| SearchEngine.CountStep | frontend/src/services/searchEngine.js:254-258 | A blank piece leaves the counter alone; any other piece bumps its trimmed text |
| SearchEngine.StatsStep | frontend/src/services/searchEngine.js:245-264 | One entry bumps its annex key and status key and adds its country tokens |
| EngineStats.AnnexKey | frontend/src/services/searchEngine.js:247-248 | The key reads `annex…_` with only lower-case letters and digits between |
| EngineStats.AnnexKeyNormalises | frontend/src/services/searchEngine.js:248 | Annex values equal up to case share one key |
| EngineStats.AnnexKeyExample | frontend/src/services/searchEngine.js:248 | Annex `3A` counts under `annex3a_` |
| EngineStats.AnnexKeyUnknown | frontend/src/services/searchEngine.js:247 | An entry without an annex counts under `annexunknown_` |
| EngineStats.StatusKey | frontend/src/services/searchEngine.js:262 | The status key is never empty and has no lower-case letter |
| EngineStats.SepSplit | frontend/src/services/searchEngine.js:253 | The split is never empty, and no piece contains a comma or whitespace |
| EngineStats.CountryKeysAreTokens | frontend/src/services/searchEngine.js:253-257 | The country keys are non-empty runs of non-separator characters, and together spell `nas_fab` without its separators |
| EngineStats.PiecesTrimmed | frontend/src/services/searchEngine.js:255-256 | Dropping blank pieces and trimming loses no character |
| EngineStats.StatsCounts | frontend/src/services/searchEngine.js:237-267 | `total` is the number of entries. Each counter has distinct keys and counts each key as often as it occurs; the annex and status counters sum to the total |
| EngineStats.MissingStatusIsActive | frontend/src/services/searchEngine.js:262-263 | An entry without a change indicator counts as `ACTIVE` |
| ErrorPatterns.RefAt | frontend/src/services/searchEngine.js:186 | A reference match starts with `REF:` and captures a non-empty run of letters and digits |
| ErrorPatterns.RefPrefix | frontend/src/services/searchEngine.js:186 | The same at the start of a text |
| ErrorPatterns.RefCodeIsLeftmost | frontend/src/services/searchEngine.js:186-189 | The code found is the one of the leftmost match |
| ErrorPatterns.RefCodeNone | frontend/src/services/searchEngine.js:186-189 | No code exactly when no position matches |
| ErrorPatterns.AnnexAt | frontend/src/services/searchEngine.js:192 | An annex match starts with `ANNEX` and captures a digit, optionally followed by A, B or C |
| ErrorPatterns.AnnexCodeIsLeftmost | frontend/src/services/searchEngine.js:192-195 | The annex found is the one of the leftmost match |
| ErrorPatterns.AnnexCodeNone | frontend/src/services/searchEngine.js:192-195 | No annex exactly when no position matches |
| ErrorPatterns.PointMatches | frontend/src/services/searchEngine.js:198 | The global match lists exactly the five-letter words of the text |
| ErrorPatterns.PointMatchesInOrder | frontend/src/services/searchEngine.js:198 | The `k`-th match is the word at the `k`-th matching position of the text, so the matches come in text order, one per position |
| ErrorPatterns.NoPointOverlap | frontend/src/services/searchEngine.js:198 | Two point matches never overlap |
| ErrorPatterns.Points | frontend/src/services/searchEngine.js:198-203 | The points are distinct five-letter words, none on the stoplist |
| ErrorPatterns.PointsFirstSeen | frontend/src/services/searchEngine.js:198-203 | An earlier point was matched for the first time before a later one |
| ErrorPatterns.PointsInTextOrder | frontend/src/services/searchEngine.js:198-203 | Wherever a later point occurs in the text, an earlier point occurs before it, so the points are in order of first occurrence |
| ErrorPatterns.PointsExact | frontend/src/services/searchEngine.js:198-203 | A word is a point exactly when it is off the stoplist and occurs as a five-letter word |
| ErrorPatterns.LongWordsNeverPoints | frontend/src/services/searchEngine.js:201 | A word that is not five letters long, such as `TRAFFIC`, never matches |
| ErrorHints.Mentioned | frontend/src/services/searchEngine.js:206-208 | The categories whose keyword the message contains, each once |
| ErrorHints.EngineCategory | frontend/src/services/searchEngine.js:206-208 | The engine takes the last category mentioned in test order |
| ErrorHints.SearchBarCategory | frontend/src/components/SearchBar.jsx:179-185 | The search bar takes the first category mentioned |
| ErrorHints.EngineErrorInfo | frontend/src/services/searchEngine.js:173-211 | Nothing for an empty message. Otherwise the code, annex and points are those found in the upper-cased message, the points taken with the engine's stoplist; a type is set exactly when a keyword occurs: `NOT_AVAILABLE` when `NOT AVAILABLE` occurs, else `RESTRICTED` when that occurs, else `FORBIDDEN` |
| ErrorHints.ExtractErrorCode | frontend/src/components/SearchBar.jsx:146-188 | Nothing for an empty message. Otherwise the code, annex and points are those found in the upper-cased message, the points taken with the search bar's stoplist; a type is set exactly when a keyword occurs: `FORBIDDEN ROUTE` when `FORBIDDEN` occurs, else `RESTRICTED` when that occurs, else `NOT AVAILABLE` |
| ErrorHints.CodesAgree | frontend/src/components/SearchBar.jsx:159-168 | Both parsers extract the same reference code and annex |
| ErrorHints.PointsDifferOnlyByError | frontend/src/components/SearchBar.jsx:171-176 | The engine's points are the search bar's without `ERROR` |
| ErrorHints.StoplistsDiffer | frontend/src/components/SearchBar.jsx:174 | Filtering with the longer stoplist equals filtering out `ERROR` afterwards |
| ErrorHints.ErrorWordOnlyInSearchBar | frontend/src/components/SearchBar.jsx:174 | The word `ERROR` is a point for the search bar and never for the engine |
| ErrorHints.CategoriesAgreeIff | frontend/src/components/SearchBar.jsx:179-185 | The two parsers choose the same category exactly when at most one keyword occurs |
| ErrorHints.CaseInsensitive | frontend/src/components/SearchBar.jsx:156 | Messages equal up to case give the same information in both parsers |
| ErrorHints.DocumentedExample | frontend/src/components/Header.jsx:97 | The documented example yields code `LSLF1139C`, no annex, point `OMASI` and type `FORBIDDEN ROUTE` |
| ErrorHints.EngineExampleRef | frontend/src/components/Header.jsx:97 | The engine extracts code `LSLF1139C` from the documented example |
| ResultCard.ViewOf | frontend/src/components/ResultCard.jsx:252-254 | Id, annex and type are read as a template literal shows them, `undefined` when absent |
| ResultCard.PushPlaces | frontend/src/components/ResultCard.jsx:263-273 | The point, airway and aerodrome pushes append exactly their sections |
| ResultCard.PushRoute | frontend/src/components/ResultCard.jsx:275-285 | The DCT, STAR and SID pushes append exactly their sections |
| ResultCard.PushNotes | frontend/src/components/ResultCard.jsx:287-297 | The FPL, utilization and goal pushes append exactly their sections |
| ResultCard.PushClosing | frontend/src/components/ResultCard.jsx:299-305 | The time and remarks pushes append exactly their sections |
| ResultCard.FormatForCopy | frontend/src/components/ResultCard.jsx:250-308 | The copy is the entry's lines joined with newlines |
| ResultCard.FormatView | frontend/src/components/ResultCard.jsx:250-308 | The same, from the fields read |
| ResultCard.CopyStartsWithHeader | frontend/src/components/ResultCard.jsx:251-256 | Split back on newlines, the copy starts with the id, annex and type lines and a blank line |
| ResultCard.ViewValidityIff | frontend/src/components/ResultCard.jsx:258-261 | The fifth line is a validity line exactly when a date is set, and a blank line follows it |
| ResultCard.ValidityLineIff | frontend/src/components/ResultCard.jsx:258-261 | Same, with `...` for an open start and `UFN` for an open end |
| ResultCard.BareViewCopy | frontend/src/components/ResultCard.jsx:250-307 | With no optional field set, the copy is three lines and a trailing newline |
| ResultCard.BareEntryCopy | frontend/src/components/ResultCard.jsx:250-307 | The same for an entry holding only id, annex and type |
| ResultCard.AirwayLineBothEnds | frontend/src/components/ResultCard.jsx:267-269 | With both ends set, the line reads from, airway, to |
| ResultCard.AirwayLineWithoutEnds | frontend/src/components/ResultCard.jsx:268 | Without ends, two spaces follow the label and no trailing space remains |
| ResultCard.ArrivalWins | frontend/src/components/ResultCard.jsx:275-289 | For the DCT point and the FPL options the arrival value wins; the departure value shows only on its own |
| ResultCard.ViewArrivalWins | frontend/src/components/ResultCard.jsx:275-289 | The same, on the fields read |
| ResultCard.EscapeRegex | frontend/src/components/ResultCard.jsx:246-248 | The escape adds exactly one character per special character |
| ResultCard.EscapeIsLiteral | frontend/src/components/ResultCard.jsx:246-248 | An escaped term is a pattern of literal tokens matching exactly the term |
| ResultCard.HighlightText | frontend/src/components/ResultCard.jsx:231-239 | The text is returned untouched exactly when it or the term list is missing or empty; otherwise one pattern per term |
| ResultCard.HighlightPatternsLiteral | frontend/src/components/ResultCard.jsx:238-239 | Each pattern is one group matching its term literally |
| ResultCard.BadgeStyleOf | frontend/src/components/ResultCard.jsx:215-222 | A colour of its own exactly for `new`, `amd`, `del`, `sus` in any case; grey otherwise |
| ResultCard.BadgeLabel | frontend/src/components/ResultCard.jsx:226 | The status, or `ACTIVE` when it is missing or empty |
| ResultCard.BadgeCaseInsensitive | frontend/src/components/ResultCard.jsx:216 | Upper-casing the status does not change the style |
| ResultCard.NoStatusBadge | frontend/src/components/ResultCard.jsx:214-229 | An entry without a change indicator shows a grey `ACTIVE` badge |
| FilterPanel.With | frontend/src/components/FilterPanel.jsx:10-13 | The key gets the value; the other two keys keep theirs |
| FilterPanel.Toggle | frontend/src/components/FilterPanel.jsx:9-15 | A click selects the value unless it was already selected, in which case the key is cleared; other keys are kept |
| FilterPanel.ClearAll | frontend/src/components/FilterPanel.jsx:17-23 | Every key is cleared |
| FilterPanel.CountSet | frontend/src/components/FilterPanel.jsx:25 | The count is zero exactly when nothing is set, and full exactly when everything is |
| FilterPanel.ActiveCount | frontend/src/components/FilterPanel.jsx:25 | At most 3; 0 exactly for the cleared record; 3 exactly when every key is set |
| FilterPanel.CountOfValues | frontend/src/components/FilterPanel.jsx:25 | Each key counts exactly when it is set |
| FilterPanel.ToggleTwice | frontend/src/components/FilterPanel.jsx:12 | Two clicks restore the record exactly when the key was unset or held that value |
| FilterPanel.ToggleCount | frontend/src/components/FilterPanel.jsx:12 | Selecting on an unset key adds one to the count and deselecting removes one; switching values keeps it |
| FilterPanel.ClearCountZero | frontend/src/components/FilterPanel.jsx:17-25 | After the reset no filter is active |
| FilterPanel.NoFiltersPassAll | frontend/src/App.jsx:18-22 | With the initial filters every entry passes |
| FilterPanel.ToggleOffRelaxes | frontend/src/components/FilterPanel.jsx:12 | Deselecting a value relaxes the search options |
| FilterPanel.ToggleOnNarrows | frontend/src/components/FilterPanel.jsx:12 | Selecting on an unset key narrows them |
| FilterPanel.ToggleAndResults | frontend/src/App.jsx:78 | Deselecting never shortens the results of the same query; selecting never lengthens them |
| FilterPanel.LongStatusMissesCodes | frontend/src/components/FilterPanel.jsx:125-128 | `MODIFIED` and `DELETED` never match a three-letter indicator such as `AMD` or `DEL` |
| Pipeline.RecordShaped | scripts/rad_parser.py:154-177 | Every record has `id`, `annex` and `type` keys |
| Pipeline.RecordsShaped | scripts/rad_parser.py:149-181 | So does every record of a row loop |
| Pipeline.SheetRecordsShaped | scripts/rad_parser.py:123-143 | So does every record of any sheet |
| Pipeline.ParsedShaped | scripts/rad_parser.py:65-85 | The parsed annexes are lists of such records |
| Pipeline.ListTotalJson | scripts/validate_rad.py:53-60 | The validator's total over the written annexes equals the parser's count |
| Pipeline.SampleOfShaped | scripts/validate_rad.py:71-79 | Written shaped lists pass the list check and give no sample warning |
| Pipeline.NoneMissing | scripts/validate_rad.py:76 | An object with every required field misses none |
| Pipeline.MetadataHasCycle | scripts/rad_parser.py:100-121 | The written metadata always has a truthy cycle |
| Pipeline.StatsStateTotal | scripts/rad_parser.py:88-89 | The written stats state `total_entries` |
| Pipeline.ParsedDocumentValidates | scripts/validate_rad.py:13-85 | For any workbook, file name and clock, the parsed document passes with the parser's total and no warning |
| Pipeline.DocumentValidates | scripts/validate_rad.py:13-85 | The same for any document with a cycle, shaped lists and a consistent total |
| Pipeline.CleanObjectPasses | scripts/validate_rad.py:33-85 | An object with the three keys, a cycle, list annexes summing to the stated total and a complete sample passes without warning |
| Pipeline.ParseThenLoad | scripts/rad_parser.py:57-98 | Parsing then loading gives a document that validates with total n, whose stats say n, and from which the engine flattens n entries |

## Left out

- File and process I/O is not modelled. This covers:
  - reading the workbook (`pd.read_excel`) and the existence check in the
    parser's constructor;
  - `save_json`, `main` and argument parsing;
  - the validator's file check, JSON decoding, file size, `sys.exit` and
    `print`.
- Logging is not modelled: the parser's `logger` and the engine's
  `console.log`.
- The workbook is a map from sheet name to sheet.
  - A sheet that `read_excel` cannot read is modelled as a sheet missing
    from the map. The `except` branch gives an empty list either way.
  - Exceptions raised inside `_parse_sheet` on a readable sheet are not
    modelled.
- Cells are optional strings. pandas' rendering of numbers and dates with
  `str()` is not modelled, nor are duplicate column names.
- `datetime.now().isoformat()` becomes two string parameters: the metadata
  time and the stats time.
- Fuse.js is not modelled. The matcher is a function parameter; the engine
  relies only on its contract of at most `n` candidates, all drawn from the
  data. Scores and match details are carried and not interpreted, and
  `initFuse`'s options are not modelled.
- Case mapping is ASCII only. `toUpperCase`, `toLowerCase` and Python's
  `strip` follow Unicode, which is not modelled.
- `EngineStats.StatsCounts` treats every counter key as an ordinary key
  kept in insertion order. The counters of `getStats` are plain JavaScript
  objects, and three of their behaviours are not modelled:
  - a key named like an `Object.prototype` member (`constructor`,
    `toString`) starts from the inherited member, so `(x || 0) + 1`
    concatenates a string;
  - `__proto__` is never stored as an own key;
  - integer-like keys are enumerated first, in ascending order.
- `SearchEngine.RADSearchEngine.GetStats` carries the same gap, since it is
  proved to compute `StatsOf`.
- `Text.IsJsSpace` is ASCII whitespace only. JavaScript's `trim()` and the
  `\s` in `split(/[,\s]+/)` and `replace(/[\[\]\s]/g, '')` also match
  Unicode spaces such as the no-break space, so `JsTrim`, `SepSplit` and
  `CleanRef` miss those.
- `RadParser.VersionAt` takes `\d` as the ASCII digits. Python's `re`
  also matches other Unicode decimal digits.
- JSON numbers are integers only. Floats, and objects with duplicate keys,
  are not modelled.
- The validator is modelled from step 3 on, over an already decoded JSON
  value.
- `RadParser.SafeStr` does not model `str()` of non-string cell values, because
  cells are strings in this model.
- `ResultCard.HighlightText` models only the early return and the patterns
  built. The case-insensitive global replace and the HTML markup are not
  modelled, because JavaScript regular-expression replacement is outside the
  model.
- Rendering is not modelled: the JSX markup of every component, the
  clipboard write, the `setTimeout` reset of the copy icon, and the panel's
  `isExpanded` state.
- The panel's display of `stats.totalEntries` (FilterPanel.jsx:159) is not
  modelled.
- `frontend/src/App.jsx` beyond its initial filter record and its call to
  `search`, `scripts/rad_downloader.py`, `scripts/diagnose_annex3a.py`, the
  offline indicator and the build configuration are not part of this model.
