/**
  * The per-range fetch worker (playwright-brave.js): it reads a store-ID
  * range and a destination folder from its command line, then visits every
  * store page of the range in ascending order and sorts the IDs into the
  * successfully saved and the failed ones. The browser is an oracle here:
  * `pages(id)` is what loading store `id` produced, its text or the message
  * of the error it threw.
  */
module PlaywrightBrave {
  import opened Text
  import opened Cli

  datatype Options = Options(
    startId: int,
    endId: int,
    destinationFolder: string,
    saveHtml: bool,
    savePng: bool,
    headless: bool,
    help: bool)

  const DefaultStoreId := 477
  const DefaultFolder := "./"
  const OutputFlags := {"--output", "-o"}

  /** Every range flag whose value is read parses as a number (`--start`/`--end` only matter without `--store`). */
  predicate NumericRange(args: seq<string>) {
    && ValueIsNumeric(args, {"--store"})
    && (FlagValue(args, {"--store"}).None? ==> ValueIsNumeric(args, {"--start"}) && ValueIsNumeric(args, {"--end"}))
  }

  predicate EndsWithSeparator(folder: string) {
    EndsWith(folder, "/") || EndsWith(folder, "\\")
  }

  /** A destination folder gets a trailing `/` unless it already ends with `/` or `\`. */
  function NormalizeFolder(folder: string): (r: string)
    ensures EndsWithSeparator(r)
    ensures EndsWithSeparator(folder) ==> r == folder
    ensures StartsWith(r, folder) && |r| <= |folder| + 1
  {
    if !EndsWith(folder, "/") && !EndsWith(folder, "\\") then folder + "/" else folder
  }

  /**
    * The command-line options: `--store v` fixes both ends of the range and
    * then `--start`/`--end` are not consulted; otherwise each end defaults to
    * store 477. The folder is normalised only when one is given.
    */
  method ParseOptions(args: seq<string>) returns (opts: Options)
    requires NumericRange(args)
    ensures FlagValue(args, {"--store"}).Some? ==>
              && Some(opts.startId) == ParseInt(FlagValue(args, {"--store"}).value)
              && opts.endId == opts.startId
    ensures FlagValue(args, {"--store"}).None? ==>
              && (FlagValue(args, {"--start"}).None? ==> opts.startId == DefaultStoreId)
              && (FlagValue(args, {"--start"}).Some? ==> Some(opts.startId) == ParseInt(FlagValue(args, {"--start"}).value))
              && (FlagValue(args, {"--end"}).None? ==> opts.endId == DefaultStoreId)
              && (FlagValue(args, {"--end"}).Some? ==> Some(opts.endId) == ParseInt(FlagValue(args, {"--end"}).value))
    ensures FlagValue(args, OutputFlags).None? ==> opts.destinationFolder == DefaultFolder
    ensures FlagValue(args, OutputFlags).Some? ==>
              opts.destinationFolder == NormalizeFolder(FlagValue(args, OutputFlags).value)
    ensures opts.saveHtml == ("--save-html" in args)
    ensures opts.savePng == ("--save-png" in args)
    ensures opts.headless == ("--headless" in args)
    ensures opts.help == ("--help" in args || "-h" in args)
  {
    var startId := DefaultStoreId;
    var endId := DefaultStoreId;
    var startFlag := FindIndex(args, {"--start"});
    var endFlag := FindIndex(args, {"--end"});
    var singleFlag := FindIndex(args, {"--store"});
    if singleFlag != -1 && singleFlag + 1 < |args| && args[singleFlag + 1] != "" {
      startId := ParseInt(args[singleFlag + 1]).value;
      endId := startId;
    } else {
      if startFlag != -1 && startFlag + 1 < |args| && args[startFlag + 1] != "" {
        startId := ParseInt(args[startFlag + 1]).value;
      }
      if endFlag != -1 && endFlag + 1 < |args| && args[endFlag + 1] != "" {
        endId := ParseInt(args[endFlag + 1]).value;
      }
    }
    var destinationFolder := DefaultFolder;
    var outputFlag := FindIndex(args, OutputFlags);
    if outputFlag != -1 && outputFlag + 1 < |args| && args[outputFlag + 1] != "" {
      destinationFolder := args[outputFlag + 1];
      if !EndsWith(destinationFolder, "/") && !EndsWith(destinationFolder, "\\") {
        destinationFolder := destinationFolder + "/";
      }
    }
    opts := Options(startId, endId, destinationFolder,
                    "--save-html" in args, "--save-png" in args, "--headless" in args,
                    "--help" in args || "-h" in args);
  }

  /** What loading one store page produced: the page's text, or the message of the error thrown. */
  datatype Page = Loaded(text: string) | Thrown(message: string)

  datatype StoreOutcome =
    | Saved(storeId: int, files: seq<string>)
    | Failed(storeId: int, reason: string)

  datatype Failure = Failure(storeId: int, reason: string)

  const NoData := "No data"

  /**
    * `textContent.trim().length < 10` is the script's test for "no data or
    * store not found"; `length` counts UTF-16 code units.
    */
  predicate HasData(text: string) {
    Utf16Length(Trim(text)) >= 10
  }

  /** Five astral characters are ten code units: the page has data although it shows only five characters. */
  lemma FiveAstralCharactersHaveData()
    ensures var text := "\U{1F600}\U{1F600}\U{1F600}\U{1F600}\U{1F600}";
            |Trim(text)| == 5 && HasData(text)
  {
    var text := "\U{1F600}\U{1F600}\U{1F600}\U{1F600}\U{1F600}";
    assert TrimStart(text) == text;
    assert TrimEnd(text) == text;
    assert Utf16Length(text[4..]) == 2;
    assert Utf16Length(text[3..]) == 4;
    assert Utf16Length(text[2..]) == 6;
    assert Utf16Length(text[1..]) == 8;
  }

  /** Trimmed text of fewer than five characters never has data, and of ten or more always does. */
  lemma HasDataBounds(text: string)
    ensures |Trim(text)| < 5 ==> !HasData(text)
    ensures |Trim(text)| >= 10 ==> HasData(text)
  {
  }

  function TextFileName(storeId: int): string {
    "iheartjane-store-" + IntToString(storeId) + ".txt"
  }

  function HtmlFileName(storeId: int): string {
    "iheartjane-store-" + IntToString(storeId) + ".html"
  }

  function ScreenshotFileName(storeId: int): string {
    "iheartjane-store-" + IntToString(storeId) + "-screenshot.png"
  }

  /** Two stores never share a text file, so workers on disjoint ranges never write the same file. */
  lemma TextFileNameInjective(a: int, b: int)
    requires TextFileName(a) == TextFileName(b)
    ensures a == b
  {
    var prefix := "iheartjane-store-";
    var na, nb := TextFileName(a), TextFileName(b);
    assert IntToString(a) == na[|prefix|..|na| - 4];
    assert IntToString(b) == nb[|prefix|..|nb| - 4];
    IntToStringInjective(a, b);
  }

  /**
    * `fetchSingleStore`: a page whose trimmed text is shorter than 10
    * characters is a failure with reason "No data" and writes nothing;
    * otherwise the text file is written, then the HTML and the screenshot
    * when asked for. An error thrown on the way is a failure carrying its
    * message.
    */
  function FetchSingleStore(storeId: int, page: Page, saveHtml: bool, savePng: bool): (r: StoreOutcome)
    ensures r.storeId == storeId
    ensures page.Thrown? ==> r == Failed(storeId, page.message)
    ensures page.Loaded? ==> (r.Failed? <==> !HasData(page.text))
    ensures page.Loaded? && r.Failed? ==> r.reason == NoData
    ensures r.Saved? ==> r.files == SavedFiles(storeId, saveHtml, savePng)
  {
    match page
    case Thrown(message) => Failed(storeId, message)
    case Loaded(text) =>
      if !HasData(text) then Failed(storeId, NoData)
      else Saved(storeId, SavedFiles(storeId, saveHtml, savePng))
  }

  /** The files a saved store leaves behind: always its text file first, then the HTML and the screenshot when asked for. */
  function SavedFiles(storeId: int, saveHtml: bool, savePng: bool): (files: seq<string>)
    ensures |files| >= 1 && files[0] == TextFileName(storeId)
    ensures HtmlFileName(storeId) in files <==> saveHtml
    ensures ScreenshotFileName(storeId) in files <==> savePng
  {
    FileNamesDiffer(storeId);
    [TextFileName(storeId)]
      + (if saveHtml then [HtmlFileName(storeId)] else [])
      + (if savePng then [ScreenshotFileName(storeId)] else [])
  }

  lemma FileNamesDiffer(storeId: int)
    ensures TextFileName(storeId) != HtmlFileName(storeId)
    ensures TextFileName(storeId) != ScreenshotFileName(storeId)
    ensures HtmlFileName(storeId) != ScreenshotFileName(storeId)
  {
    var t, h, p := TextFileName(storeId), HtmlFileName(storeId), ScreenshotFileName(storeId);
    assert t[|t| - 1] == 't' && h[|h| - 1] == 'l' && p[|p| - 1] == 'g';
  }

  predicate Ascending(ids: seq<int>) {
    forall j, k :: 0 <= j < k < |ids| ==> ids[j] < ids[k]
  }

  function FailedIds(failed: seq<Failure>): (ids: seq<int>)
    ensures |ids| == |failed| && forall k :: 0 <= k < |failed| ==> ids[k] == failed[k].storeId
  {
    seq(|failed|, k requires 0 <= k < |failed| => failed[k].storeId)
  }

  function RangeCount(startId: int, endId: int): nat {
    if startId <= endId then endId - startId + 1 else 0
  }

  /** The outcome of fetching each store, given what each page load produced. */
  function Outcomes(pages: int -> Page, saveHtml: bool, savePng: bool): int -> StoreOutcome {
    storeId => FetchSingleStore(storeId, pages(storeId), saveHtml, savePng)
  }

  /** The IDs in `[lo, hi]` whose fetch saved the store, in ascending order. */
  function SavedIn(lo: int, hi: int, outcomes: int -> StoreOutcome): seq<int>
    decreases hi - lo
  {
    if hi < lo then []
    else SavedIn(lo, hi - 1, outcomes)
         + (if outcomes(hi).Saved? then [hi] else [])
  }

  /** The failures in `[lo, hi]` with their reasons, in ascending order of ID. */
  function FailedIn(lo: int, hi: int, outcomes: int -> StoreOutcome): seq<Failure>
    decreases hi - lo
  {
    if hi < lo then []
    else FailedIn(lo, hi - 1, outcomes) + FailureAt(hi, outcomes)
  }

  /** The failure recorded for store `storeId`, if its fetch failed. */
  function FailureAt(storeId: int, outcomes: int -> StoreOutcome): seq<Failure> {
    match outcomes(storeId)
    case Failed(_, reason) => [Failure(storeId, reason)]
    case Saved(_, _) => []
  }

  /** One entry per ID of the range: each ID is either saved or failed. */
  lemma {:induction false} RangePartitionCount(lo: int, hi: int, outcomes: int -> StoreOutcome)
    ensures |SavedIn(lo, hi, outcomes)| + |FailedIn(lo, hi, outcomes)| == RangeCount(lo, hi)
    decreases hi - lo
  {
    if hi >= lo {
      RangePartitionCount(lo, hi - 1, outcomes);
    }
  }

  /** An ID is listed as saved exactly when its fetch saved the store, and the list ascends. */
  lemma {:induction false} SavedInExactly(lo: int, hi: int, outcomes: int -> StoreOutcome)
    ensures forall id :: id in SavedIn(lo, hi, outcomes) <==>
              lo <= id <= hi && outcomes(id).Saved?
    ensures Ascending(SavedIn(lo, hi, outcomes))
    decreases hi - lo
  {
    if hi >= lo {
      SavedInExactly(lo, hi - 1, outcomes);
      var s := SavedIn(lo, hi - 1, outcomes);
      forall k | 0 <= k < |s|
        ensures s[k] < hi
      {
        assert s[k] in s;
      }
      if outcomes(hi).Saved? {
        AscendingAppend(s, hi);
      }
    }
  }

  /** A failure is listed exactly when that ID's fetch failed for that reason, and the list ascends by ID. */
  lemma FailedInExactly(lo: int, hi: int, outcomes: int -> StoreOutcome)
    ensures forall f :: f in FailedIn(lo, hi, outcomes) <==>
              lo <= f.storeId <= hi && outcomes(f.storeId).Failed? && outcomes(f.storeId).reason == f.reason
    ensures Ascending(FailedIds(FailedIn(lo, hi, outcomes)))
  {
    FailedInMembers(lo, hi, outcomes);
    FailedInAscends(lo, hi, outcomes);
  }

  lemma {:induction false} FailedInMembers(lo: int, hi: int, outcomes: int -> StoreOutcome)
    ensures forall f :: f in FailedIn(lo, hi, outcomes) <==>
              lo <= f.storeId <= hi && outcomes(f.storeId).Failed? && outcomes(f.storeId).reason == f.reason
    decreases hi - lo
  {
    if hi >= lo {
      FailedInMembers(lo, hi - 1, outcomes);
      assert FailedIn(lo, hi, outcomes) == FailedIn(lo, hi - 1, outcomes) + FailureAt(hi, outcomes);
    }
  }

  lemma {:induction false} FailedInAscends(lo: int, hi: int, outcomes: int -> StoreOutcome)
    ensures Ascending(FailedIds(FailedIn(lo, hi, outcomes)))
    decreases hi - lo
  {
    if hi >= lo {
      FailedInAscends(lo, hi - 1, outcomes);
      FailedInMembers(lo, hi - 1, outcomes);
      var f := FailedIn(lo, hi - 1, outcomes);
      var ids := FailedIds(f);
      if outcomes(hi).Failed? {
        forall k | 0 <= k < |ids|
          ensures ids[k] < hi
        {
          assert f[k] in f;
        }
        var tail := [Failure(hi, outcomes(hi).reason)];
        assert FailedIn(lo, hi, outcomes) == f + tail;
        assert FailedIds(f + tail) == ids + [hi];
        AscendingAppend(ids, hi);
      } else {
        assert FailedIn(lo, hi, outcomes) == f;
      }
    }
  }

  lemma AscendingAppend(ids: seq<int>, id: int)
    requires Ascending(ids)
    requires forall k :: 0 <= k < |ids| ==> ids[k] < id
    ensures Ascending(ids + [id])
  {
  }

  /** No ID is both saved and failed. */
  lemma SavedAndFailedDisjoint(lo: int, hi: int, outcomes: int -> StoreOutcome)
    ensures forall f :: f in FailedIn(lo, hi, outcomes) ==>
              f.storeId !in SavedIn(lo, hi, outcomes)
  {
    SavedInExactly(lo, hi, outcomes);
    FailedInExactly(lo, hi, outcomes);
  }

  /**
    * `fetchWithBrave`'s loop: every ID from `startId` to `endId` is fetched
    * once, in ascending order; a saved store's ID goes to `success`, a failed
    * one goes to `failed` with its reason, and a pause follows every store but
    * the last.
    */
  method FetchWithBrave(startId: int, endId: int, pages: int -> Page, saveHtml: bool, savePng: bool)
    returns (success: seq<int>, failed: seq<Failure>, pauses: nat)
    ensures success == SavedIn(startId, endId, Outcomes(pages, saveHtml, savePng))
    ensures failed == FailedIn(startId, endId, Outcomes(pages, saveHtml, savePng))
    ensures pauses == if startId <= endId then endId - startId else 0
  {
    success, failed, pauses := [], [], 0;
    var storeId := startId;
    while storeId <= endId
      invariant startId <= endId ==> startId <= storeId <= endId + 1
      invariant startId > endId ==> storeId == startId
      invariant success == SavedIn(startId, storeId - 1, Outcomes(pages, saveHtml, savePng))
      invariant failed == FailedIn(startId, storeId - 1, Outcomes(pages, saveHtml, savePng))
      invariant pauses == if storeId == endId + 1 && storeId > startId then storeId - startId - 1 else storeId - startId
    {
      var result := FetchSingleStore(storeId, pages(storeId), saveHtml, savePng);
      if result.Saved? {
        success := success + [result.storeId];
      } else {
        failed := failed + [Failure(result.storeId, result.reason)];
      }
      if storeId < endId {
        pauses := pauses + 1;
      }
      storeId := storeId + 1;
    }
  }

  datatype Run =
    | Exited(code: int)
    | Finished(success: seq<int>, failed: seq<Failure>, total: int)

  /**
    * The script's course after its options are read: `--help` exits with 0,
    * a reversed range exits with 1 before any page is fetched, and otherwise
    * the whole range is fetched.
    */
  method RunWorker(opts: Options, pages: int -> Page) returns (run: Run)
    ensures opts.help ==> run == Exited(0)
    ensures !opts.help && opts.startId > opts.endId ==> run == Exited(1)
    ensures !opts.help && opts.startId <= opts.endId ==>
              && run.Finished?
              && run.total == opts.endId - opts.startId + 1
              && run.success == SavedIn(opts.startId, opts.endId, Outcomes(pages, opts.saveHtml, opts.savePng))
              && run.failed == FailedIn(opts.startId, opts.endId, Outcomes(pages, opts.saveHtml, opts.savePng))
  {
    if opts.help {
      return Exited(0);
    }
    if opts.startId > opts.endId {
      return Exited(1);
    }
    var success, failed, _ := FetchWithBrave(opts.startId, opts.endId, pages, opts.saveHtml, opts.savePng);
    run := Finished(success, failed, opts.endId - opts.startId + 1);
  }
}
