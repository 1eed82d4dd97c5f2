# iheartjane-stores, modelled in Dafny

This project models the bookkeeping of a small scraper for iHeartJane store pages.

- **Coordinator (`parallel-scraper.js`).** It reads a store-ID range, a chunk size and a concurrency limit from its command line. It cuts the range into chunks and starts one `playwright-brave.js` worker per chunk. Its list of pending promises holds at most `maxConcurrent` entries. As written, that does not bound the number of running workers (see "Findings"): only with `maxConcurrent` equal to 1, or with the corrected loop, is it bounded. It counts the workers that exit with code 0 and those that do not.
- **Worker (`playwright-brave.js`).** It reads a range (or a single `--store`) and a destination folder. It fetches every store of the range in ascending order. Trimmed page text shorter than 10 UTF-16 code units (JavaScript's `length`) counts as "No data". The store IDs are split into a success list and a failure list.
- **Analysis (`analyze-stores.js`).** It reads the saved `iheartjane-store-*.json` files. It sorts their stores into the inactive (`product_count === 0`), active-recreational and active-medical buckets, counts active stores per state, and ranks the states by count.
- **Inactive report (`find-inactive-stores.js`).** It lists the stores with `product_count === 0` and reports the counts.
- **Redirect checker (`url-checker.js`).** It reports whether a store URL was redirected, what kind of redirect it was, and a description of the HTTP status.

The browser, child processes, the filesystem and `JSON.parse` are not modelled. What they produce enters the model as inputs:
- the page text or the thrown error;
- a worker's exit code;
- which promise wins each `Promise.race`;
- a file's parsed content;
- the final URL and status.

Files, one module each:

| file | module | models |
|---|---|---|
| text.dfy | `Text` | `startsWith`/`endsWith`/`includes`/`trim`, `Number.prototype.toString`, decimal `parseInt` |
| cli.dfy | `Cli` | `args.findIndex(...)` plus "the next argument is truthy", shared by every script |
| store_files.dfy | `StoreFiles` | the file-name filters and parsed file contents shared by the two analysis scripts |
| analyze_stores.dfy | `AnalyzeStores` | analyze-stores.js (the `storeData` object is a class) |
| find_inactive_stores.dfy | `FindInactiveStores` | find-inactive-stores.js |
| parallel_scraper.dfy | `ParallelScraper` | parallel-scraper.js (the `progress` object is a class) |
| scheduler.dfy | `Scheduler` | the `activePromises`/`results` window of `processAllChunks`, as written and corrected |
| playwright_brave.dfy | `PlaywrightBrave` | playwright-brave.js |
| url_checker.dfy | `UrlChecker` | url-checker.js |

Imperative code is modelled with methods:
- the option `let`s;
- the chunk `for` loop;
- `args.push`;
- the `progress` counters;
- the window loop;
- the fetch loop;
- the two `forEach` loops.

Each method is proved against a specification function, such as `ChunksFrom`, `WindowAsWritten`, `SavedIn`, `Analysis` or `InactiveList`. The lemmas state what the scripts promise about those functions.

## Model

| member | source | states |
|---|---|---|
| Text.NatToString | parallel-scraper.js:121-122 | A number is rendered as a non-empty run of decimal digits with no leading zero |
| Text.IntToStringEndsInDigit | parallel-scraper.js:121-122 | A rendered integer is never empty and always ends in a digit, so a worker cannot mistake it for a flag |
| Text.TrimStartCutsWhitespace | playwright-brave.js:95 | `trimStart` removes exactly the leading run of white space, and what remains does not start with white space |
| Text.TrimEndCutsWhitespace | playwright-brave.js:95 | `trimEnd` removes exactly the trailing run of white space, and what remains does not end with white space |
| Text.TrimCutsWhitespace | playwright-brave.js:95 | `trim` returns an infix of its argument; only white space is cut at either end, and the result neither starts nor ends with white space |
| Text.Utf16Length | playwright-brave.js:95 | `length` counts each character once or twice, so it lies between the number of characters and twice that |
| Text.Utf16LengthCountsCharsIffNoAstral | playwright-brave.js:95 | `length` equals the number of characters exactly when no character lies outside the Basic Multilingual Plane |
| Text.DigitsValueOfNatToString | parallel-scraper.js:121-122 | The digits `toString` writes denote the number itself |
| Text.ParseIntOfDigits | parallel-scraper.js:28 | `parseInt` reads a run of digits as its decimal value |
| Text.ParseIntOfNegatedDigits | parallel-scraper.js:28 | `parseInt` reads a minus sign followed by digits as the negated value |
| Text.ParseIntOfIntToString | parallel-scraper.js:121-122 | `parseInt(n.toString())` gives back `n` for every integer, negative ones included |
| Text.IntToStringInjective | playwright-brave.js:101 | Distinct integers render as distinct strings |
| Cli.FindIndex | parallel-scraper.js:21-25 | `findIndex` gives the first index holding one of the names, and -1 exactly when none occurs |
| Cli.FlagValueIsFirstOccurrence | parallel-scraper.js:27-41 | Only a flag's first occurrence is read: the next argument when it is non-empty, otherwise nothing, whatever comes later |
| Cli.FlagValueExtend | parallel-scraper.js:27-41 | Arguments appended after a flag and its value do not change what is read for that flag |
| StoreFiles.StoreFileNamesIsOneFilter | analyze-stores.js:9-11 | The `.json` filter followed by the `iheartjane-store-` filter keeps, in listing order, exactly the names that pass both tests |
| StoreFiles.StoreFileNamesMembers | find-inactive-stores.js:9-11 | A name is checked exactly when it is in the listing, starts with `iheartjane-store-` and ends with `.json`; nothing is added |
| StoreFiles.KeptInOrderMembers | analyze-stores.js:9-11 | The one-pass filter keeps exactly the qualifying names and never grows the list |
| StoreFiles.ReadStoreFiles | analyze-stores.js:9-26 | Every file read is a store file of the listing, holding what reading that name gives, and every store file of the listing is read |
| AnalyzeStores.StateKey | analyze-stores.js:53 | A falsy state is counted under "Unknown"; a non-empty string state is counted under itself |
| AnalyzeStores.StoreData.constructor | analyze-stores.js:15-21 | `storeData` starts with every bucket empty |
| AnalyzeStores.StoreData.Add | analyze-stores.js:24-62 | One file updates the buckets exactly as the categorisation function says: an error line, nothing, an inactive entry, or the active buckets |
| AnalyzeStores.StoreData.AddActive | analyze-stores.js:43-57 | An active store joins the recreational list iff `recreational === true` and the medical list iff `medical === true`; it adds one to its state's count; the other buckets are unchanged |
| AnalyzeStores.Analyze | analyze-stores.js:8-63 | After the `forEach`, `storeData` holds the categorisation of every kept file in listing order |
| AnalyzeStores.RecordOf | analyze-stores.js:28-38 | A file contributes at most one store record |
| AnalyzeStores.AnalysisBuckets | analyze-stores.js:23-63 | Each list bucket is the order-preserving selection, from all stores read, of those its rule admits; there is exactly one error per unreadable or unparsable file |
| AnalyzeStores.CategorizeStep | analyze-stores.js:28-62 | One file appends its store to each bucket whose rule admits it, and adds one error line exactly when it is unusable |
| AnalyzeStores.InactiveExclusive | analyze-stores.js:41-50 | An inactive store is in no active bucket; a store is inactive iff it was read and its `product_count` is the number 0 |
| AnalyzeStores.StateCounts | analyze-stores.js:52-57 | Each state key maps to the number of active stores counted under it; a key is present iff that number is positive |
| AnalyzeStores.TotalBump | analyze-stores.js:54-57 | Counting one more store adds exactly one to the sum of the state counts |
| AnalyzeStores.StateTotal | analyze-stores.js:52-57 | The state counts add up to the number of active stores |
| AnalyzeStores.EntriesTotal | analyze-stores.js:80 | `Object.entries` of the state map, in any key order that lists each key once, sums to the map's total |
| AnalyzeStores.InsertByCountPermutes | analyze-stores.js:80-81 | Inserting an entry into the ranking adds exactly that entry and its count |
| AnalyzeStores.InsertByCountSorted | analyze-stores.js:80-81 | Inserting an entry into a ranking sorted by count keeps it sorted |
| AnalyzeStores.RankStatesSorted | analyze-stores.js:80-81 | The state ranking is ordered by count, largest first; it is a permutation of the entries and has the same total |
| AnalyzeStores.RankingTotal | analyze-stores.js:80-86 | The ranked state counts add up to the number of active stores |
| FindInactiveStores.ListedFor | find-inactive-stores.js:22-30 | A file adds at most one entry to the list |
| FindInactiveStores.FindInactive | find-inactive-stores.js:9-49 | The loop builds the inactive list of the kept files; `checked` is the number of kept files, `inactive` the list length (at most `checked`), and `active` the difference |
| FindInactiveStores.InactiveListStep | find-inactive-stores.js:17-34 | Reading one more file extends the list by exactly that file's entry, if it has one |
| FindInactiveStores.InactiveListMembers | find-inactive-stores.js:22-33 | A file is listed iff it parsed, has a `store` and its `product_count === 0`; unreadable files are never listed; the list is no longer than the file list |
| FindInactiveStores.InactiveListOncePerFile | find-inactive-stores.js:17-30 | With distinct file names, no file is listed twice |
| FindInactiveStores.ActiveCountIsEverythingElse | find-inactive-stores.js:47-49 | The reported active count is the number of files that are not inactive, which counts unreadable and store-less files |
| FindInactiveStores.SameInactiveStores | find-inactive-stores.js:22-29 | For the same files, the inactive list equals analyze-stores.js's `inactive` bucket, entry for entry and in order |
| ParallelScraper.ReadIntOption | parallel-scraper.js:27-41 | A numeric option is `parseInt` of the value after the flag's first occurrence, or its default when there is no non-empty value |
| ParallelScraper.ReadTextOption | parallel-scraper.js:33-35 | The output option is the value after the first `--output`/`-o`, or the default, and is never empty |
| ParallelScraper.ParseOptions | parallel-scraper.js:6-41 | Defaults are 1, 6000, `./scraped-stores`, 100 and 5, each replaced only by its flag's first non-empty value; each switch is on iff present |
| ParallelScraper.ChunksTile | parallel-scraper.js:92-96 | The chunks are contiguous: the first starts at `startId`, each next one starts one past the previous end, and the last ends at `endId`; every chunk has 1 to `chunkSize` IDs, and all but the last have exactly `chunkSize` |
| ParallelScraper.ChunksWithin | parallel-scraper.js:92-96 | Every chunk lies inside the range |
| ParallelScraper.ChunksDisjoint | parallel-scraper.js:92-96 | The chunks ascend, and no two share an ID |
| ParallelScraper.ChunksCover | parallel-scraper.js:90-96 | An ID is in some chunk iff it lies in `[startId, endId]` |
| ParallelScraper.ChunkCount | parallel-scraper.js:92-96 | There are `ceil((endId - startId + 1) / chunkSize)` chunks |
| ParallelScraper.BuildChunks | parallel-scraper.js:89-96 | The `for` loop builds exactly the chunk sequence; it is empty for a reversed range and tiles the range otherwise |
| ParallelScraper.PlanRun | parallel-scraper.js:43-96 | `--help` exits with 0; a reversed range or a size below 1 exits with 1 before any chunk is built; otherwise the range is tiled |
| ParallelScraper.SwitchesInOrder | parallel-scraper.js:126-129 | The optional switches appear in the order `--headless`, `--save-html`, `--save-png`, and are nothing else |
| ParallelScraper.SwitchesPresent | parallel-scraper.js:126-129 | Each switch is present iff its option is on |
| ParallelScraper.WorkerArgs | parallel-scraper.js:119-129 | The argument list is `playwright-brave.js --start s --end e --output dir`, then each switch iff its option is on, in that order |
| ParallelScraper.WorkerReadsRange | parallel-scraper.js:119-124 | A worker reading that command line finds the chunk's bounds and the output directory |
| ParallelScraper.LaunchWorker | parallel-scraper.js:119-135 | The worker's own option parsing recovers the chunk's range, the normalised output folder and the same switches, and sees no `--help` |
| ParallelScraper.ChunkResultOf | parallel-scraper.js:149-158 | The promise succeeds exactly on exit code 0, with the output; otherwise it fails, carrying the code and the error output |
| ParallelScraper.Progress.constructor | parallel-scraper.js:109-114 | `progress` starts at 0 completed and 0 failed, with `total` equal to the number of chunks |
| ParallelScraper.Progress.Close | parallel-scraper.js:149-158 | Exit code 0 increments only `completed`, and any other code only `failed`; `completed + failed <= total` is kept |
| ParallelScraper.Progress.CloseAll | parallel-scraper.js:149-165 | After every worker has closed once, in any order, `completed` is the number of code-0 exits and `completed + failed == total` |
| ParallelScraper.ProcessAllChunks | parallel-scraper.js:182-206 | The window loop as written returns exactly the as-written schedule, with one value per chunk |
| ParallelScraper.ProcessAllChunksFixed | parallel-scraper.js:182-206 | The corrected loop returns every chunk's value exactly once |
| ParallelScraper.Tallies | parallel-scraper.js:217-218 | The successful and failed counts partition the results |
| ParallelScraper.RunChunks | parallel-scraper.js:109-218 | Once the chunks are built, `completed` is the number of chunks whose worker exited with code 0 and `failed` the rest; the summary is the tally of exactly the values the (as written) window returns, each of which names a chunk |
| ParallelScraper.RunScraper | parallel-scraper.js:6-247 | Returns the options read; `--help` exits with 0, a reversed range or a size below 1 exits with 1, and any other options run to completion with one chunk per `ChunksFrom` entry, progress counts over all chunks, and the summary tallied over the window's results |
| Scheduler.SpliceMinusOneDropsLast | parallel-scraper.js:189-190 | `splice(-1, 1)` removes the last entry |
| Scheduler.SpliceAtPosition | parallel-scraper.js:190 | `splice(j, 1)` at a valid position removes exactly that entry and keeps the rest in order |
| Scheduler.WinnerPosition | parallel-scraper.js:188 | The race winner is always an entry of the window |
| Scheduler.WindowAsWrittenShape | parallel-scraper.js:185-200 | As written, the window never holds more than `maxConcurrent` entries, is ascending, keeps the first admitted chunks forever, ends with the chunk admitted last, and records one value per race |
| Scheduler.ScheduleAsWrittenLength | parallel-scraper.js:182-206 | As written, `results.length` equals the number of chunks |
| Scheduler.ScheduleAsWrittenIndices | parallel-scraper.js:182-206 | As written, every returned value is some chunk's value |
| Scheduler.ScheduleAsWrittenLosesChunk | parallel-scraper.js:188-191 | With 3 chunks, at most 2 at a time, and chunk 0 settling first, the results are chunks 0, 0 and 2: chunk 1 is lost |
| Scheduler.AdmitFixedKeeps | parallel-scraper.js:187-199 | A corrected turn moves at most the winner from the window to the results and admits chunk `i` |
| Scheduler.WindowFixedShape | parallel-scraper.js:185-200 | Corrected, the window holds `min(i, maxConcurrent)` entries, and every admitted chunk is either running or recorded, exactly once |
| Scheduler.ScheduleFixedIsPermutation | parallel-scraper.js:182-206 | Corrected, the results are a permutation of the chunk indices |
| Scheduler.AdmitAgreesWhenLastWins | parallel-scraper.js:188-191 | When the last-admitted entry wins the race, the code as written and the corrected code agree |
| Scheduler.CountsPartition | parallel-scraper.js:217-218 | `filter(r => r.success)` and `filter(r => !r.success)` between them count every result |
| Scheduler.CountSucceededConcat | parallel-scraper.js:217 | The success count of two lists joined together is the sum of their counts |
| Scheduler.CountSucceededPermutation | parallel-scraper.js:217 | The success count does not depend on the order in which results were collected |
| Scheduler.FixedTallyCountsEveryChunk | parallel-scraper.js:214-218 | Corrected, the "successful" tally equals the number of chunks whose worker succeeded |
| Scheduler.AsWrittenTallyDisagrees | parallel-scraper.js:214-218 | As written, with chunk 1 of 3 failing, `main` reports three successes although only two workers succeeded |
| PlaywrightBrave.NormalizeFolder | playwright-brave.js:37-40 | The folder ends with `/` or `\`; a folder that already does is unchanged, so normalising twice is normalising once; at most one `/` is appended |
| PlaywrightBrave.ParseOptions | playwright-brave.js:6-41 | `--store v` sets both ends to `v` and ignores `--start`/`--end`; otherwise each end defaults to 477; a given folder is normalised, and the default is `./` |
| PlaywrightBrave.TextFileNameInjective | playwright-brave.js:101 | `iheartjane-store-<n>.txt` names differ for different stores |
| PlaywrightBrave.FileNamesDiffer | playwright-brave.js:101-115 | A store's text, HTML and screenshot file names are pairwise distinct |
| PlaywrightBrave.SavedFiles | playwright-brave.js:100-118 | The text file is always written first; the HTML file is written iff asked for, and so is the screenshot |
| PlaywrightBrave.FetchSingleStore | playwright-brave.js:77-126 | A thrown error is a failure carrying its message; loaded text fails iff its trimmed length in UTF-16 code units is below 10, with reason "No data" and no file; otherwise the files are saved |
| PlaywrightBrave.FiveAstralCharactersHaveData | playwright-brave.js:95 | Five emoji pass the "no data" test: they are five characters but ten code units |
| PlaywrightBrave.HasDataBounds | playwright-brave.js:95 | Trimmed text of fewer than five characters never has data, and of ten or more characters always has |
| PlaywrightBrave.RangePartitionCount | playwright-brave.js:149-170 | `success.length + failed.length` is the number of IDs in the range |
| PlaywrightBrave.SavedInExactly | playwright-brave.js:162-167 | An ID is in `success` iff it is in the range and its fetch saved the store; the list ascends |
| PlaywrightBrave.FailedInMembers | playwright-brave.js:162-169 | A failure is in `failed` iff its ID is in the range and that fetch failed with that reason |
| PlaywrightBrave.FailedInAscends | playwright-brave.js:162-169 | The IDs in `failed` ascend |
| PlaywrightBrave.FailedInExactly | playwright-brave.js:162-169 | Both of the above together |
| PlaywrightBrave.SavedAndFailedDisjoint | playwright-brave.js:162-169 | No ID is both saved and failed |
| PlaywrightBrave.FetchWithBrave | playwright-brave.js:149-179 | The loop fetches each ID once in ascending order; it builds exactly the success and failure lists; it pauses between stores, `endId - startId` times |
| PlaywrightBrave.RunWorker | playwright-brave.js:43-72 | `--help` exits with 0; a reversed range exits with 1 before any fetch; otherwise `total = endId - startId + 1` and the whole range is fetched |
| UrlChecker.ParseOptions | url-checker.js:4-15 | The target is the default store page unless the first `--url` has a non-empty value; it is never empty; the switches are on iff present |
| UrlChecker.TargetFromFirstUrlFlag | url-checker.js:12-15 | Only the first `--url` decides the target |
| UrlChecker.TrailingDigits | url-checker.js:93 | Counts the maximal run of digits at the end of the URL |
| UrlChecker.EndsInStoreIdIsRegex | url-checker.js:93 | The computed test holds iff `/\/stores\/\d+$/` matches |
| UrlChecker.Check | url-checker.js:83-107 | A redirect is reported iff the final URL differs from the target as a string |
| UrlChecker.RedirectKinds | url-checker.js:93-99 | Exactly one redirect type applies. General stores page: contains `/stores` and does not end in `/stores/<digits>`. Different store: ends in `/stores/<digits>`. General redirect: no `/stores` at all |
| UrlChecker.SpecificMatchIsGeneralStoresPage | url-checker.js:102-104 | The specific match is always also typed as a redirect to the general stores page |
| UrlChecker.DefaultIsStorePage | url-checker.js:9 | The default target ends in `/stores/<digits>` |
| UrlChecker.DefaultToStoresPage | url-checker.js:89-104 | The default page landing on `https://www.iheartjane.com/stores` is a general-stores-page redirect and the specific match |
| UrlChecker.DefaultToOtherStore | url-checker.js:93-99 | Landing on another store's page is a different-store redirect and not the specific match |
| UrlChecker.DefaultToHomePage | url-checker.js:93-99 | Landing on the home page is a general redirect |
| UrlChecker.StatusDescriptionLookup | url-checker.js:289-304 | The ten listed codes get their table text, each a different one; every other code, and only those, gets "Unknown Status" |
| UrlChecker.NavigationHintMarkers | url-checker.js:137-140 | A message containing `net::ERR_` or `timeout` earns the hint wherever the marker sits, and keeps it when text is added around it |
| UrlChecker.NavigationHintIsCaseSensitive | url-checker.js:138 | "Timeout 30000ms exceeded." earns no hint: the test is case-sensitive |
| UrlChecker.CheckUrlRedirect | url-checker.js:62-140 | A loaded page is reported with the verdict `Check` gives for its final URL (no redirect iff the URLs are equal; otherwise the kind and specific match of `RedirectKinds`) and with the table's description of its status ("Unknown Status" iff the code is not listed); a thrown error is reported with its message and the hint |

## Findings

| source | as written | input that shows it | evidently intended | confidence | as-written member | corrected member |
|---|---|---|---|---|---|---|
| parallel-scraper.js:188-191 | `findIndex(p => p === result)` compares promises with the settled value, so it is always -1, and `splice(-1, 1)` removes the most recently admitted promise instead of the winner's | 3 chunks, `--max-concurrent 2`, chunk 0 settles first: results are chunks 0, 0, 2, and chunk 1's result is never collected; with chunk 1 failing, `main` reports 3 successes and 0 failures | remove the winner's own promise, so that every chunk's result is collected exactly once | not executed | Scheduler.ScheduleAsWrittenLosesChunk | Scheduler.ScheduleFixedIsPermutation |

`ParallelScraper.ProcessAllChunks` and `ParallelScraper.RunScraper` follow the code as written. `ParallelScraper.ProcessAllChunksFixed`, `Scheduler.FixedTallyCountsEveryChunk` and `Scheduler.AdmitAgreesWhenLastWins` describe the corrected loop. The `progress` counters are unaffected: `ParallelScraper.Progress.CloseAll` counts every worker once. The same splice also breaks the concurrency limit. The promise spliced out belongs to a worker that keeps running. And once the winner's promise stays in the list, every later `Promise.race` resolves at once with that settled value. So from the first race whose winner is not the entry admitted last, a new worker starts on each turn without waiting, and up to all the remaining chunks' workers can run at the same time. The model takes race winners as an input and does not capture this timing. `Scheduler.WindowAsWrittenShape` bounds only the length of the list.

## Left out

- Browser automation (`chromium.launch`, `page.goto`, `evaluate`, `content`, `screenshot`, `title`, the popup and age-verification handlers): foreign calls. Page text, thrown errors, final URLs and status codes are inputs.
- `child_process.spawn`, stdout/stderr accumulation and real concurrency. A worker's exit is an input. `Promise.race` is an oracle sequence of window positions, and the order in which workers close is an input permutation.
- Filesystem calls (`mkdir`, `writeFile`, `readdirSync`, `readFileSync`, `path.join`) and their failures: I/O. The directory listing and each file's parsed content are inputs. `fetchSingleStore`'s write failures are covered only as a thrown error with a message.
- `JSON.parse`: a file's content is given already parsed, down to the `store` fields the scripts read. Numbers are integers only.
- Console output, help text, percentages, `toFixed`, elapsed times and the 1000 ms / 3000 ms delays: output formatting, floating point and clocks. The worker's delays are modelled only as a count of pauses.
- index.js: a greeting scaffold with no logic of the scraper.
- ParallelScraper.ParseOptions: requires every numeric flag value to parse as a number. A value such as `abc` makes `parseInt` return NaN, which then passes the `<`/`>` checks; NaN is not modelled.
- ParallelScraper.ReadIntOption: requires the flag's value, when there is one, to parse as a number, for the same reason.
- ParallelScraper.RunScraper: requires every numeric flag value to parse as a number, for the same reason.
- PlaywrightBrave.ParseOptions: requires the range flags it reads to parse as numbers, for the same reason.
- Text.Utf16Length: counts a character above U+FFFF as two code units. A JavaScript string can also hold a lone surrogate; a Dafny `char` cannot, so such text is not modelled.
- Numbers are unbounded integers throughout. Double rounding (an index that stops advancing past 2^53 in the chunk loop) and the exponent form `toString` uses from 1e21 on are not modelled; no store ID comes near either.
- Text.ParseIntOfDigits: `parseInt` is modelled for decimal input only. The `0x` hexadecimal prefix and values beyond double precision are not covered.
- ParallelScraper.LaunchWorker: proved only for output directories that are not themselves worker flag names (such as `--headless`). The worker would read such a directory as a flag.
- AnalyzeStores.StateKey: a truthy non-string state is keyed by a simplified string form. Object-prototype keys such as `constructor` and `__proto__` are not modelled either; they make `!storeData.activeByState[location]` read an inherited property.
- AnalyzeStores.RankingTotal: the key order of `Object.entries` (integer-like keys first) is an input, not computed. The sort is modelled as a stable sort by descending count, as modern engines implement it.
- UrlChecker.CheckUrlRedirect: the final URL is taken once. The source reads `page.url()` after its popup handling, and a `null` response from `page.goto` is not modelled.
- ParallelScraper.Progress.Close: the percentage and elapsed-time line printed after each close is not modelled.
