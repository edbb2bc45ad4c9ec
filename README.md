# coding-standards: verified model of the template utilities and the summary generator

This project is a Dafny model of the executable core of the coding-standards repository.
Dafny proves the properties stated below about it.

- **Request retry.** `fetchWithRetry` in `templates/js/utils.js` and the retry decision it makes after each attempt.
- **Validators.** `Validator.isEmail`, `isNotEmpty` and `isLength` in `templates/js/utils.js`.
- **Front-end configuration.** The `CONFIG` object of `templates/js/config.js`: its declared values, the hostname overrides of `BASE_URL` and `DEBUG`, and the shallow `Object.freeze` calls.
- **Settings validation.** `validate_settings` in `templates/python/src/config.py`.
- **Summary generator.** `scripts/generate_summary.py`:
  - parsing of ADR and idea files;
  - the two Markdown tables;
  - the rewrite of the auto-generated README section;
  - the changelog;
  - the Mermaid relation graph;
  - the file filter and the flow of `main`.

The model follows the code.

- **Retry.** The retry decision is modelled as the code writes it, `retries > 0 && !name.includes('Abort') && (!status || status >= 500)`.
  - A successful response whose body is not JSON fails with a `SyntaxError` that has no `status`, so it is retried.
  - A timeout surfaces as an `AbortError` and is never retried.
  - The caller's `signal` is always replaced by the request's own controller signal.
  - `retries <= 0` makes exactly one attempt.
- **Defaults.** A JavaScript `||` default (`RETRY_COUNT || 3`, `TIMEOUT || 10000`) is an optional setting. An absent setting and `0` both fall back to the default.
- **Regular expressions.** Each Python regular expression is written out as a function with the same leftmost-match behaviour. `\s` is Python's `str.isspace` set.
- **Sorting.** `sorted` is a stable sort on code-point order.

Modules:

| file | module | what it holds |
|---|---|---|
| base.dfy | `Base` | `Option`, `Result` |
| strings.dfy | `Strings` | `find`, `split`, `join`, `in`, code-point order |
| findall.dfy | `Findall` | the left-to-right scan of `re.findall` |
| py_text.dfy | `PyText` | `str.strip`, `str.isspace`, `str.zfill` |
| sorting.dfy | `Sorting` | stable `sorted` and list comprehension |
| fetch_retry.dfy | `FetchRetry` | `fetchWithRetry` |
| validator.dfy | `Validator` | `Validator` |
| app_config.dfy | `AppConfig` | `CONFIG` as a class with frozen objects |
| settings.dfy | `Settings` | `validate_settings` |
| summary_parse.dfy | `SummaryParse` | `parse_adr`, `parse_idea` |
| summary_tables.dfy | `SummaryTables` | `generate_adr_table`, `generate_idea_table` |
| readme_update.dfy | `ReadmeUpdate` | `update_readme` |
| changelog.dfy | `Changelog` | `generate_changelog` |
| relations.dfy | `Relations` | `generate_relations` |
| summary_main.dfy | `SummaryMain` | `main` |

## Model

| member | source | states |
|---|---|---|
| FetchRetry.RetryableErrorClasses | templates/js/utils.js:238-240 | an error is retryable exactly when its name does not contain "Abort" and it has no status, status 0 or a status of at least 500 |
| FetchRetry.RetryableOutcomeClasses | templates/js/utils.js:226-240 | an attempt is retried exactly for a network failure, a 0 or 5xx response, or an ok response whose body is not JSON; never for an abort or a 1xx–4xx non-ok response |
| FetchRetry.SentInit | templates/js/utils.js:215-222 | the request sent keeps the caller's method and body, always carries the controller's signal, keeps every caller header and adds `Content-Type: application/json` unless the caller set one |
| FetchRetry.Attempts | templates/js/utils.js:207-250 | fetch calls, each with the sent options and the timeout, alternate with waits of the retry delay, starting and ending with a fetch; between 1 and retries+1 attempts are made, and only one when `CONFIG.API` is undefined |
| FetchRetry.AttemptsResult | templates/js/utils.js:226-248 | with `CONFIG.API` defined, the result of a call is the settled outcome of its last attempt; earlier errors are dropped |
| FetchRetry.AttemptsRetried | templates/js/utils.js:236-245 | every attempt before the last had an outcome the rule retries |
| FetchRetry.AttemptsStopped | templates/js/utils.js:236-248 | with `CONFIG.API` defined, a call that stops before making retries+1 attempts stops at an outcome the rule does not retry |
| FetchRetry.AttemptsWithoutApi | templates/js/utils.js:241-243 | with `CONFIG.API` undefined, a call makes one attempt: an outcome the rule would retry becomes the TypeError thrown while formatting the retry warning, any other is settled as usual |
| FetchRetry.FetchWithRetry | templates/js/utils.js:207-250 | the same guarantees for a call with the configured timeout (default 10000) and delay (default 1000) and the retry budget from the argument or `RETRY_COUNT \|\| 3`; when `CONFIG.API` is undefined the defaults apply and the first retryable failure ends the call with a TypeError |
| FetchRetry.MissingApiFailsOnFirstRetry | templates/js/utils.js:207-243 | with `CONFIG.API` undefined and retries left, a first attempt that fails retryably is the only fetch, made with the 10000 ms default timeout, and the call fails with the TypeError |
| FetchRetry.WaitsBetweenAttempts | templates/js/utils.js:242-245 | a run waits exactly once between consecutive attempts and ends with a fetch |
| FetchRetry.ClientErrorNotRetried | templates/js/utils.js:226-240 | a first response that is not ok with status below 500 ends the call after one attempt with that HTTP error |
| FetchRetry.AbortEndsRequest | templates/js/utils.js:211-212 | no attempt follows an aborted one (the timeout fired); when the abort is reached the call fails with an AbortError, whatever retries remain |
| FetchRetry.PersistentServerErrorExhaustsBudget | templates/js/utils.js:238-248 | when every response is the same 5xx, all retries+1 attempts are made and the call fails with that status |
| FetchRetry.RecoversAfterNetworkFailures | templates/js/utils.js:234-245 | m network failures followed by an ok JSON response succeed with that body after m+1 attempts when the budget allows m retries |
| FetchRetry.BadJsonRetried | templates/js/utils.js:232-240 | an ok response with a body that is not JSON is retried when retries remain |
| FetchRetry.SuccessIsFirstOkResponse | templates/js/utils.js:226-232 | a successful call returns the parsed body of its last attempt, which is an ok response, and every earlier attempt failed |
| FetchRetry.NoRetriesOneAttempt | templates/js/utils.js:238 | an explicit retries argument of zero or less makes exactly one attempt |
| FetchRetry.ConfiguredZeroRetriesFallsBack | templates/js/utils.js:207 | a configured `RETRY_COUNT` of 0 falls back to 3 retries, so four attempts are possible |
| Validator.IsEmailMatchesPattern | templates/js/utils.js:371-374 | `isEmail` accepts exactly the strings matching `^[^\s@]+@[^\s@]+\.[^\s@]+$` |
| Validator.TrimStart | templates/js/utils.js:382 | leading whitespace is removed, and only that |
| Validator.TrimEnd | templates/js/utils.js:382 | trailing whitespace is removed, and only that |
| Validator.TrimEmptyIffAllSpace | templates/js/utils.js:382 | `trim()` gives "" exactly when every character is whitespace |
| Validator.IsNotEmptyCharacterised | templates/js/utils.js:381-383 | `isNotEmpty` holds exactly for a string holding a non-whitespace character; never for null or undefined |
| Validator.IsLengthDefaultsAccept | templates/js/utils.js:392-395 | with the default bounds 0 and Infinity every value passes |
| Validator.IsLengthMissingIsEmpty | templates/js/utils.js:392-395 | null and undefined are measured as the empty string, which passes exactly when min <= 0 <= max |
| Validator.Utf16Length | templates/js/utils.js:393 | the UTF-16 length lies between the number of code points and twice that |
| Validator.Utf16LengthAppend | templates/js/utils.js:393 | the UTF-16 length of a concatenation is the sum of the lengths |
| Validator.Utf16LengthIsCount | templates/js/utils.js:393 | `.length` equals the number of code points exactly when no character lies above U+FFFF |
| Validator.IsLengthInCharacters | templates/js/utils.js:392-395 | for a string within the Basic Multilingual Plane, `isLength` holds exactly when min <= its length <= max; for any string, a passing length bounds the code points by max and min by twice their number |
| Validator.IsLengthCountsSurrogatePairs | templates/js/utils.js:392-395 | a character outside the Basic Multilingual Plane counts as two: "😀" has length 2, not 1 |
| AppConfig.DevelopmentHostsAreNotStaging | templates/js/config.js:119-128 | the two overrides never both apply |
| AppConfig.EnvironmentFor | templates/js/config.js:119-128 | localhost and 127.0.0.1 get the development URL and DEBUG on; a hostname containing "staging" gets the staging URL; any other gets the production URL; DEBUG stays off off the development hosts |
| AppConfig.Config.constructor | templates/js/config.js:11-114 | the declared URL, timeout, retry count and delay, endpoints, DEBUG off, nothing frozen |
| AppConfig.Config.SetBaseUrl | templates/js/config.js:120 | the assignment takes effect only while the API section is not frozen |
| AppConfig.Config.SetDebug | templates/js/config.js:121 | the assignment takes effect only while the FEATURES section is not frozen |
| AppConfig.Config.SetEndpoint | templates/js/config.js:25-29 | an endpoint assignment takes effect only while the nested ENDPOINTS object is not frozen |
| AppConfig.Config.ApplyEnvironment | templates/js/config.js:119-128 | the URL and DEBUG after both override blocks, as a function of the hostname |
| AppConfig.Config.Freeze | templates/js/config.js:131 | freezing adds one object to the frozen set |
| AppConfig.Config.FreezeSections | templates/js/config.js:131-137 | the seven calls freeze the root and its six top-level sections, and nothing nested |
| AppConfig.LoadConfig | templates/js/config.js:11-137 | after loading, URL and DEBUG are those for the hostname; the declared API values hold; API, FEATURES and the root are read-only while the nested ENDPOINTS and MESSAGES.ERROR stay writable |
| AppConfig.DeclaredRetryPolicy | templates/js/config.js:18-22 | with the declared values a request whose retries argument is omitted makes up to four attempts with a 1000 ms delay and a 10000 ms timeout |
| Settings.ValidateSettings | templates/python/src/config.py:81-95 | validation fails exactly for an empty key or the placeholder key, with the message for each case |
| PyText.DigitRun | scripts/generate_summary.py:42 | the length of the leading `\d+` run |
| PyText.DigitRunOfDigitsThen | scripts/generate_summary.py:42 | a digit run stops exactly at the first non-digit |
| PyText.StripStart | scripts/generate_summary.py:47 | the result is a suffix of the input that does not start with whitespace, and everything removed is whitespace |
| PyText.StripEnd | scripts/generate_summary.py:47 | trailing whitespace is removed, and only that |
| PyText.Strip | scripts/generate_summary.py:47 | the result is the slice of the input after its leading whitespace run, neither starting nor ending with whitespace, and everything outside it is whitespace |
| PyText.StripKeepsOut | scripts/generate_summary.py:47 | stripping introduces no character |
| PyText.ZFill | scripts/generate_summary.py:124 | `zfill(4)` pads an unsigned number on the left with zeros to width 4 and leaves a longer one unchanged |
| Strings.FindFrom | scripts/generate_summary.py:50 | the first occurrence at or after a position, or none |
| Strings.Find | scripts/generate_summary.py:50 | the leftmost occurrence; none exactly when the text does not contain the pattern |
| Strings.Split | scripts/generate_summary.py:42 | the lines of a text, none of which holds a newline |
| Strings.JoinSplit | scripts/generate_summary.py:42 | joining the lines back gives the text |
| Strings.SplitJoin | scripts/generate_summary.py:129 | splitting newline-free lines joined with newlines gives the lines back |
| Strings.LexLeTotal | scripts/generate_summary.py:123 | any two strings are ordered one way or the other |
| Strings.LexLeAntisymmetric | scripts/generate_summary.py:123 | strings ordered both ways are equal |
| Strings.LexLeTransitive | scripts/generate_summary.py:123 | the string order is transitive |
| Sorting.SortBy | scripts/generate_summary.py:123 | `sorted` returns a permutation, ordered by key in the requested direction, keeping the input order of equal keys |
| Sorting.WithKeyAppend | scripts/generate_summary.py:172-177 | selecting by key distributes over concatenation |
| Sorting.MapPermuted | scripts/generate_summary.py:123-127 | rendering a permutation gives a permutation of the rendered rows |
| SummaryParse.MatchHeading | scripts/generate_summary.py:42 | a line matched as a heading has the form prefix, digits, ": ", non-empty rest |
| SummaryParse.MatchHeadingExact | scripts/generate_summary.py:42 | every line of that form is matched with exactly those digits and rest |
| SummaryParse.FirstHeading | scripts/generate_summary.py:42-44 | the first heading line, with none before it; none exactly when no line is a heading |
| SummaryParse.LineValue | scripts/generate_summary.py:50 | a `marker\s*(.+?)(?:\n\|$)` capture is non-empty and holds no newline, and is absent without the marker |
| SummaryParse.SearchValue | scripts/generate_summary.py:54 | a captured date has the shape dddd-dd-dd, a captured record number is digits; nothing is captured without the marker |
| SummaryParse.SearchValueNone | scripts/generate_summary.py:54 | the search fails exactly when no occurrence of the marker is followed, after whitespace, by a value |
| SummaryParse.SearchValueAt | scripts/generate_summary.py:54 | the search returns the value after the first occurrence of the marker that has one |
| SummaryParse.RefAtMatch | scripts/generate_summary.py:61 | a match starts exactly where the prefix occurs followed by a digit, and takes the whole digit run |
| SummaryParse.FindAllRefs | scripts/generate_summary.py:61 | each `ADR-(\d+)` found is a non-empty digit string; nothing is found where the prefix never occurs |
| Findall.ScanFindsAll | scripts/generate_summary.py:61 | the scan of `re.findall` returns the group of each match it takes at its start, left to right without overlap, and misses no match between them, before the first or after the last |
| SummaryParse.FindAllRefsScans | scripts/generate_summary.py:61 | `re.findall(r"ADR-(\d+)", line)`: the k-th result is the digits of the match at the k-th start, the starts increase without overlap, and no other position holds a match |
| SummaryParse.FindAllRefsOccur | scripts/generate_summary.py:61 | each reference found occurs in the text after its prefix |
| SummaryParse.RelatedOf | scripts/generate_summary.py:58-61 | related numbers are digit strings; none when the line is missing or is "-"; otherwise exactly the `re.findall` references of that line |
| SummaryParse.StatusOf | scripts/generate_summary.py:50-51 | the status holds no newline and is "알 수 없음" when the file has no status marker |
| SummaryParse.DateOf | scripts/generate_summary.py:54-55 | the date is "알 수 없음" or has the shape dddd-dd-dd, and is "알 수 없음" without the date marker |
| SummaryParse.SupersedesOf | scripts/generate_summary.py:64-65 | the replaced record is a non-empty digit string, and absent without its marker |
| SummaryParse.UpToNewlineOf | scripts/generate_summary.py:50 | `(.+?)(?:\n\|$)` stops at the first newline: a line followed by a newline or the end is taken whole |
| SummaryParse.LineValueAt | scripts/generate_summary.py:50 | a text whose first marker is followed by whitespace and a line starting with something else has that line as its value |
| SummaryParse.StatusOfAt | scripts/generate_summary.py:50-51 | a file whose first status marker is followed by such a line has that line, stripped, as its status |
| SummaryParse.DateOfAt | scripts/generate_summary.py:54-55 | a file whose first date marker followed by a date reads `date` has that date |
| SummaryParse.DateOfUnknown | scripts/generate_summary.py:54-55 | the date is "알 수 없음" exactly when no date marker is followed, after whitespace, by a dddd-dd-dd date |
| SummaryParse.SupersedesOfAt | scripts/generate_summary.py:64-65 | a file whose first replaced-record marker followed by a reference reads `[ADR-n]` names the record n |
| SummaryParse.ParseAdr | scripts/generate_summary.py:37-76 | None exactly when no line is an `# ADR-<digits>: <title>` heading; otherwise number and stripped title of the first heading and the field values |
| SummaryParse.ParseIdea | scripts/generate_summary.py:79-113 | the same for `# IDEA-` headings, with the proposal date and no replaced record |
| SummaryParse.ParsedSupersedesTruthy | scripts/generate_summary.py:187 | for a parsed record, `if doc.supersedes` holds exactly when the file names a replaced record |
| SummaryParse.ParsedFromHeading | scripts/generate_summary.py:37-76 | a parsed document carries its kind and file name, digit number, single-line title and status, and comes from the first heading |
| SummaryTables.RelatedLinks | scripts/generate_summary.py:124 | one link per related record, in order |
| SummaryTables.RelatedCellDash | scripts/generate_summary.py:124 | the related column is "-" exactly for a record without related records |
| SummaryTables.AppendRows | scripts/generate_summary.py:123-127 | the loop leaves the header lines followed by one rendered row per document, in the order given |
| SummaryTables.GenerateAdrTable | scripts/generate_summary.py:116-129 | the table is the header, the rule and one row per record by number, joined by newlines |
| SummaryTables.GenerateIdeaTable | scripts/generate_summary.py:132-144 | the same for ideas |
| SummaryTables.AdrTableRows | scripts/generate_summary.py:116-129 | two header lines and exactly one row per record; rows in number order, equal numbers in input order |
| SummaryTables.TableTextSplitsIntoLines | scripts/generate_summary.py:129 | when no field spans lines, the table text splits on newlines back into exactly the header, the rule and one line per document |
| SummaryTables.IdeaTableRows | scripts/generate_summary.py:132-144 | two header lines and exactly one row per idea, each ending in an empty "-" link column |
| ReadmeUpdate.FirstSection | scripts/generate_summary.py:152-153 | the section the pattern matches starts at an opening marker and ends at a closing marker that lies after it, inside the text |
| ReadmeUpdate.FirstSectionFound | scripts/generate_summary.py:152-153 | there is a section exactly when an opening marker exists and a closing marker follows the first one; it starts at the leftmost opening marker and ends at the nearest closing marker after it |
| ReadmeUpdate.SubstituteFirstSection | scripts/generate_summary.py:152-155 | for any markers: the text before the first opening marker is kept; without an opening marker, or a closing marker after it, nothing changes; otherwise the first section becomes the markers around the table |
| ReadmeUpdate.SectionReplaced | scripts/generate_summary.py:152-155 | for any markers: when the first opening marker is at k and the nearest closing marker after it at e, the result is the text before k, then the markers around the table, then the substitution of the text after that closing marker |
| ReadmeUpdate.SubstituteSingleSection | scripts/generate_summary.py:152-155 | when no closing marker follows the first section, the result is the text before that section, the markers around the table, and the text after the section's closing marker, kept as it was |
| ReadmeUpdate.SubstituteIdempotent | scripts/generate_summary.py:152-155 | for any single-line, non-empty closing marker that the table does not contain, substituting twice gives what substituting once gives |
| ReadmeUpdate.UpdateReadmeFirstSection | scripts/generate_summary.py:147-156 | text before the first start marker is kept; without a start marker, or an end marker after it, nothing changes; otherwise the first section becomes the markers around the table |
| ReadmeUpdate.UpdateReadmeSectionReplaced | scripts/generate_summary.py:147-156 | the README's first section, from the first start marker to the end of the nearest end marker, becomes the markers around the table, and the text after that end marker is updated in its turn |
| ReadmeUpdate.UpdateReadmeSingleSection | scripts/generate_summary.py:147-156 | when no end marker follows the first section, the text before its start marker and the text after its end marker are kept as they were, and only the section becomes the markers around the table |
| ReadmeUpdate.UpdateReadmeIdempotent | scripts/generate_summary.py:147-156 | for a table that holds no end marker (and, as for every update here, no backslash), updating twice with the same table gives the same text as once |
| ReadmeUpdate.UnmarkedReadmeUnchanged | scripts/generate_summary.py:147-156 | a README without an end marker is left unchanged |
| Changelog.Dates | scripts/generate_summary.py:172-177 | the dictionary keys are distinct, include every document's date, and each has a document |
| Changelog.FirstDated | scripts/generate_summary.py:174-176 | the position of the first document with a date, or the length when none has it |
| Changelog.DatesInFirstAppearanceOrder | scripts/generate_summary.py:172-177 | the keys are in the order their dates first appear among the documents |
| Changelog.GroupByDate | scripts/generate_summary.py:172-177 | the loop builds exactly the keys of `Dates`, in first-appearance order, and maps each to exactly its date's documents in input order |
| Changelog.EntryShape | scripts/generate_summary.py:183-192 | a document's lines are its heading with kind, number and title, its status line, the replaced-record line exactly for a record that names one, and a blank line |
| Changelog.AppendEntry | scripts/generate_summary.py:183-192 | the loop body appends exactly the document's lines, whose shape `EntryShape` states |
| Changelog.AppendSection | scripts/generate_summary.py:180-195 | the lines for one date |
| Changelog.AppendSections | scripts/generate_summary.py:179-195 | the loop appends one section per date, in the given order, each listing exactly the documents of that date |
| Changelog.GenerateChangelog | scripts/generate_summary.py:159-197 | the text is the header with the given time, then one section per date |
| Changelog.DistinctPermutation | scripts/generate_summary.py:179 | sorting the distinct keys keeps them distinct |
| Changelog.ChangelogDatesNewestFirst | scripts/generate_summary.py:179 | the section dates are the documents' dates, each once, in strictly descending string order (newest first for dddd-dd-dd dates), each heading a non-empty section |
| Changelog.GroupsPermute | scripts/generate_summary.py:172-183 | grouping by distinct dates covering all documents lists each exactly once |
| Changelog.ChangelogListsEachDocumentOnce | scripts/generate_summary.py:172-192 | every record and idea appears in the changelog exactly once |
| Changelog.ChangelogListsUnderOwnDate | scripts/generate_summary.py:179-195 | in the changelog text, each document's lines lie in the section headed by its own date, and that section is in the text |
| Changelog.EntriesListEach | scripts/generate_summary.py:182-192 | the lines of each document of a group are among the group's lines |
| Changelog.SectionsListEach | scripts/generate_summary.py:179-195 | the section of each date is among the lines of the sections |
| Changelog.InOwnGroup | scripts/generate_summary.py:174-177 | a document is in the group of its own date |
| Changelog.ChangelogRecordsBeforeIdeas | scripts/generate_summary.py:172 | under each date the records come before the ideas, each in collection order |
| Relations.Edges | scripts/generate_summary.py:216-217 | one solid edge per related record, in order |
| Relations.AppendBlock | scripts/generate_summary.py:211-220 | the lines for one record: node, solid edges, then the dotted edge when it replaces a record |
| Relations.GenerateRelations | scripts/generate_summary.py:200-233 | the text is the header, one block per record in input order, then the footer |
| Relations.RelationsLineCount | scripts/generate_summary.py:200-233 | the graph has one node line per record plus one edge line per related reference or replaced record, between the 6-line header and the 10-line footer |
| Relations.RelationsEdges | scripts/generate_summary.py:211-220 | each record's node line is followed by an edge to each related record in order, then the dotted edge exactly when it replaces one |
| SummaryMain.CollectDocuments | scripts/generate_summary.py:242-257 | the documents kept are the successful parses of the files that are not skipped, in listing order |
| SummaryMain.CollectedFromListedFiles | scripts/generate_summary.py:242-257 | the k-th document is the parse of the k-th kept file: source positions strictly increase, so each file gives at most one document, each from a listed file that is not skipped; every listed file that is not skipped and parses gives one |
| SummaryMain.CollectedWellFormed | scripts/generate_summary.py:244 | no collected document comes from a `_` file or README.md, and each satisfies the parse guarantees |
| SummaryMain.SkippedFileIgnored | scripts/generate_summary.py:244-245 | a `_`-prefixed file or README.md contributes nothing, whatever it holds |
| SummaryMain.RunSummary | scripts/generate_summary.py:236-276 | a README is rewritten only for a directory that yielded documents, with its table; the changelog and the relation graph are always produced |

## Left out

- I/O is not modelled:
  - `fetch` itself, timers, `console` output and `await` are not modelled. The transport is a function from attempt number to outcome.
  - Directory listing (`glob`), file reads and writes, and `print` are not modelled. Files arrive as (name, content) pairs in listing order.
  - `datetime.now()` is not modelled. The formatted time is a parameter.
- The parts of `templates/js/utils.js` outside the named core are not part of this model: DOM helpers, formatters, storage, the `API` client, debounce and throttle, `Validator.isNumber`, and the event helpers.
- FetchRetry.FetchWithRetry:
  - the retry warning message is not modelled;
  - a `Headers` object passed as `options.headers` is not modelled: headers are a plain map;
  - response status text is not modelled.
- FetchRetry.FetchWithRetry: a page where `CONFIG` is not declared at all (config.js not loaded) is not modelled. There every call throws a ReferenceError at line 207 or 208 before any fetch, and `CONFIG?.` does not guard against that.
- FetchRetry.Attempts: the controller's `abort` cannot be triggered by the caller. The code overwrites the caller's `signal`, so external cancellation does not exist. An abort stands for the timeout firing.
- Validator.IsNotEmpty: values other than strings, null and undefined (numbers, objects with their own `toString`) are not modelled.
- Validator.IsLength: only strings, null and undefined are modelled as the value, and only integers or Infinity as the bounds. Not modelled: a non-zero number such as `isLength(12345)`, whose `.length` is undefined so the result is false; `0` and other falsy values, measured as the empty string; arrays and other objects with a `length` of their own; fractional, NaN or -Infinity bounds.
- Validator.IsEmail: a custom `VALIDATION.EMAIL_REGEX` is not modelled. The declared one equals the built-in default.
- AppConfig.Config: the UI, STORAGE, VALIDATION and MESSAGES values are not fields. Only the freezing of their objects is modelled. The final debug `console.log` is left out.
- ReadmeUpdate.UpdateReadme: the table must hold no backslash. `re.sub` interprets backslash escapes in the replacement text, and that interpretation is not modelled. SummaryMain.RunSummary carries the same precondition.
- SummaryParse: `\d` is ASCII digits only, while Python's `\d` also matches other Unicode decimal digits. Non-UTF-8 files are not modelled.
- Relations.GenerateRelations: the unused `status_class` value computed for each record is left out. It has no effect on the output.
- Settings.ValidateSettings: the settings object and its loading from the environment are not modelled. The secret key is a parameter, and a `ValueError` is a `Failure` carrying its message.
