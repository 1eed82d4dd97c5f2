/**
  * The coordinator (parallel-scraper.js): it reads a store-ID range, a
  * chunk size and a concurrency limit from its command line, cuts the range
  * into chunks, starts one playwright-brave.js worker per chunk with at most
  * `maxConcurrent` of them in the window at a time, and counts the workers
  * that exit with code 0 and those that do not.
  *
  * A worker's exit is an input (`WorkerExit`); so is the order in which the
  * workers close and which promise wins each `Promise.race`.
  */
module ParallelScraper {
  import opened Text
  import opened Cli
  import PlaywrightBrave
  import opened Scheduler

  datatype Config = Config(
    startId: int,
    endId: int,
    outputDir: string,
    chunkSize: int,
    maxConcurrent: int,
    saveHtml: bool,
    savePng: bool,
    headless: bool,
    help: bool)

  const DefaultStartId := 1
  const DefaultEndId := 6000
  const DefaultOutputDir := "./scraped-stores"
  const DefaultChunkSize := 100
  const DefaultMaxConcurrent := 5
  const OutputFlags := {"--output", "-o"}

  /** Every numeric flag that has a value has one `parseInt` reads a number from. */
  predicate NumericOptions(args: seq<string>) {
    && ValueIsNumeric(args, {"--start"})
    && ValueIsNumeric(args, {"--end"})
    && ValueIsNumeric(args, {"--chunk-size"})
    && ValueIsNumeric(args, {"--max-concurrent"})
  }

  /** `v` is what a numeric option reads: the number after the flag's first occurrence, or `fallback` when that has no value. */
  predicate ReadsInt(args: seq<string>, names: set<string>, fallback: int, v: int) {
    match FlagValue(args, names)
    case None => v == fallback
    case Some(text) => ParseInt(text) == Some(v)
  }

  /**
    * One numeric option: `if (flag !== -1 && args[flag + 1]) v = parseInt(args[flag + 1])`,
    * starting from the option's default.
    */
  method ReadIntOption(args: seq<string>, names: set<string>, fallback: int) returns (v: int)
    requires ValueIsNumeric(args, names)
    ensures ReadsInt(args, names, fallback, v)
  {
    v := fallback;
    var flag := FindIndex(args, names);
    if flag != -1 && flag + 1 < |args| && args[flag + 1] != "" {
      v := ParseInt(args[flag + 1]).value;
    }
  }

  /** The text option: the value after the flag's first occurrence, or `fallback`; never empty when `fallback` is not. */
  method ReadTextOption(args: seq<string>, names: set<string>, fallback: string) returns (v: string)
    ensures FlagValue(args, names).None? ==> v == fallback
    ensures FlagValue(args, names).Some? ==> v == FlagValue(args, names).value
    ensures fallback != "" ==> v != ""
  {
    v := fallback;
    var flag := FindIndex(args, names);
    if flag != -1 && flag + 1 < |args| && args[flag + 1] != "" {
      v := args[flag + 1];
    }
  }

  /**
    * The command line: each option keeps its default (stores 1 to 6000,
    * `./scraped-stores`, chunks of 100, 5 at a time) unless its flag's first
    * occurrence is followed by a non-empty value; `--output` and `-o` are
    * one option, whichever comes first.
    */
  method ParseOptions(args: seq<string>) returns (cfg: Config)
    requires NumericOptions(args)
    ensures ReadsInt(args, {"--start"}, DefaultStartId, cfg.startId)
    ensures ReadsInt(args, {"--end"}, DefaultEndId, cfg.endId)
    ensures ReadsInt(args, {"--chunk-size"}, DefaultChunkSize, cfg.chunkSize)
    ensures ReadsInt(args, {"--max-concurrent"}, DefaultMaxConcurrent, cfg.maxConcurrent)
    ensures FlagValue(args, OutputFlags).None? ==> cfg.outputDir == DefaultOutputDir
    ensures FlagValue(args, OutputFlags).Some? ==> cfg.outputDir == FlagValue(args, OutputFlags).value
    ensures cfg.outputDir != ""
    ensures cfg.saveHtml == ("--save-html" in args)
    ensures cfg.savePng == ("--save-png" in args)
    ensures cfg.headless == ("--headless" in args)
    ensures cfg.help == ("--help" in args || "-h" in args)
  {
    var help := "--help" in args || "-h" in args;
    var saveHtml := "--save-html" in args;
    var savePng := "--save-png" in args;
    var headless := "--headless" in args;

    var startId := ReadIntOption(args, {"--start"}, DefaultStartId);
    var endId := ReadIntOption(args, {"--end"}, DefaultEndId);
    var outputDir := ReadTextOption(args, OutputFlags, DefaultOutputDir);
    var chunkSize := ReadIntOption(args, {"--chunk-size"}, DefaultChunkSize);
    var maxConcurrent := ReadIntOption(args, {"--max-concurrent"}, DefaultMaxConcurrent);
    cfg := Config(startId, endId, outputDir, chunkSize, maxConcurrent, saveHtml, savePng, headless, help);
  }

  /** A consecutive run of store IDs handed to one worker, both ends included. */
  datatype Chunk = Chunk(start: int, end: int)

  function Size(c: Chunk): int {
    c.end - c.start + 1
  }

  /** The chunks the `for` loop builds from `i` on: each starts where the last one ended, and is cut at `endId`. */
  function ChunksFrom(i: int, endId: int, chunkSize: int): seq<Chunk>
    requires chunkSize >= 1
    decreases endId - i
  {
    if i > endId then []
    else [Chunk(i, Min(i + chunkSize - 1, endId))] + ChunksFrom(i + chunkSize, endId, chunkSize)
  }

  /**
    * `c` cuts `[lo, hi]` into contiguous pieces: the first starts at `lo`,
    * each next one starts right after the previous one ends, the last ends at
    * `hi`, none is empty or larger than `chunkSize`, and all but the last hold
    * exactly `chunkSize` IDs.
    */
  predicate Tiling(c: seq<Chunk>, lo: int, hi: int, chunkSize: int) {
    && |c| >= 1
    && c[0].start == lo
    && c[|c| - 1].end == hi
    && (forall k :: 0 <= k < |c| - 1 ==> c[k + 1].start == c[k].end + 1)
    && (forall k :: 0 <= k < |c| ==> 1 <= Size(c[k]) <= chunkSize)
    && (forall k :: 0 <= k < |c| - 1 ==> Size(c[k]) == chunkSize)
  }

  lemma {:induction false} ChunksTile(lo: int, hi: int, chunkSize: int)
    requires chunkSize >= 1 && lo <= hi
    ensures Tiling(ChunksFrom(lo, hi, chunkSize), lo, hi, chunkSize)
    decreases hi - lo
  {
    var rest := ChunksFrom(lo + chunkSize, hi, chunkSize);
    if lo + chunkSize <= hi {
      ChunksTile(lo + chunkSize, hi, chunkSize);
      TilingCons(Chunk(lo, lo + chunkSize - 1), rest, lo, hi, chunkSize);
    } else {
      assert rest == [];
    }
  }

  /** A full chunk in front of a tiling of the rest of the range tiles the whole range. */
  lemma TilingCons(first: Chunk, rest: seq<Chunk>, lo: int, hi: int, chunkSize: int)
    requires chunkSize >= 1 && first == Chunk(lo, lo + chunkSize - 1)
    requires Tiling(rest, lo + chunkSize, hi, chunkSize)
    ensures Tiling([first] + rest, lo, hi, chunkSize)
  {
    var c := [first] + rest;
    assert forall k :: 1 <= k < |c| ==> c[k] == rest[k - 1];
  }

  /** Every chunk lies inside the range. */
  lemma {:induction false} ChunksWithin(lo: int, hi: int, chunkSize: int)
    requires chunkSize >= 1
    ensures forall ch :: ch in ChunksFrom(lo, hi, chunkSize) ==> lo <= ch.start <= ch.end <= hi
    decreases hi - lo
  {
    if lo <= hi {
      ChunksWithin(lo + chunkSize, hi, chunkSize);
    }
  }

  /** Each chunk ends before the next ones start, so no two share an ID. */
  predicate Ascends(c: seq<Chunk>) {
    forall j, k :: 0 <= j < k < |c| ==> c[j].end < c[k].start
  }

  /** The chunks ascend and no two of them share an ID. */
  lemma {:induction false} ChunksDisjoint(lo: int, hi: int, chunkSize: int)
    requires chunkSize >= 1
    ensures Ascends(ChunksFrom(lo, hi, chunkSize))
    decreases hi - lo
  {
    if lo <= hi {
      var c := ChunksFrom(lo, hi, chunkSize);
      var rest := ChunksFrom(lo + chunkSize, hi, chunkSize);
      ChunksDisjoint(lo + chunkSize, hi, chunkSize);
      ChunksWithin(lo + chunkSize, hi, chunkSize);
      assert c == [Chunk(lo, Min(lo + chunkSize - 1, hi))] + rest;
      forall j, k | 0 <= j < k < |c|
        ensures c[j].end < c[k].start
      {
        assert c[k] == rest[k - 1];
        if j > 0 {
          assert c[j] == rest[j - 1];
        } else {
          assert rest[k - 1] in rest;
          assert lo + chunkSize <= rest[k - 1].start;
          assert c[0].end <= lo + chunkSize - 1;
        }
      }
    }
  }

  predicate InChunk(id: int, ch: Chunk) {
    ch.start <= id <= ch.end
  }

  /** Some chunk of `c` holds `id`. */
  predicate Covered(c: seq<Chunk>, id: int) {
    exists k :: 0 <= k < |c| && InChunk(id, c[k])
  }

  /** The chunks together hold exactly the IDs of the range. */
  lemma {:induction false} ChunksCover(lo: int, hi: int, chunkSize: int, id: int)
    requires chunkSize >= 1
    ensures Covered(ChunksFrom(lo, hi, chunkSize), id) <==> lo <= id <= hi
    decreases hi - lo
  {
    var c := ChunksFrom(lo, hi, chunkSize);
    if lo <= hi {
      var rest := ChunksFrom(lo + chunkSize, hi, chunkSize);
      ChunksCover(lo + chunkSize, hi, chunkSize, id);
      assert c == [c[0]] + rest;
      if Covered(c, id) {
        var k :| 0 <= k < |c| && InChunk(id, c[k]);
        if k > 0 {
          assert InChunk(id, rest[k - 1]);
        }
      }
      if lo <= id <= hi {
        if id < lo + chunkSize {
          assert InChunk(id, c[0]);
        } else {
          var k :| 0 <= k < |rest| && InChunk(id, rest[k]);
          assert c[k + 1] == rest[k];
        }
      }
    }
  }

  /** `ceil(n / d)` for a positive `d`. */
  function CeilDiv(n: nat, d: nat): nat
    requires d >= 1
  {
    (n + d - 1) / d
  }

  lemma CeilDivOfBracket(n: nat, d: nat, m: nat)
    requires d >= 1 && m >= 1 && (m - 1) * d < n <= m * d
    ensures CeilDiv(n, d) == m
  {
    var x := n + d - 1;
    var q, r := x / d, x % d;
    assert x == q * d + r && 0 <= r < d;
    assert (m - 1) * d == m * d - d;
    assert (m + 1) * d == m * d + d;
    FactorsOfOrderedProducts(q, m + 1, d);
    FactorsOfOrderedProducts(m - 1, q, d);
  }

  /** Products with the same positive factor are ordered as the other factors. */
  lemma FactorsOfOrderedProducts(a: int, b: int, d: int)
    requires d >= 1 && a * d < b * d
    ensures a < b
  {
    assert (b - a) * d == b * d - a * d;
  }

  /**
    * There are `ceil((endId - startId + 1) / chunkSize)` chunks: the fewest
    * chunks of at most `chunkSize` IDs that cover the range.
    */
  lemma {:induction false} ChunkCount(lo: int, hi: int, chunkSize: int)
    requires chunkSize >= 1 && lo <= hi
    ensures var m := |ChunksFrom(lo, hi, chunkSize)|;
            (m - 1) * chunkSize < hi - lo + 1 <= m * chunkSize
    ensures |ChunksFrom(lo, hi, chunkSize)| == CeilDiv(hi - lo + 1, chunkSize)
    decreases hi - lo
  {
    var m := |ChunksFrom(lo, hi, chunkSize)|;
    if lo + chunkSize <= hi {
      ChunkCount(lo + chunkSize, hi, chunkSize);
      var r := |ChunksFrom(lo + chunkSize, hi, chunkSize)|;
      assert m == r + 1;
      assert (r + 1) * chunkSize == r * chunkSize + chunkSize;
      assert (r - 1) * chunkSize == r * chunkSize - chunkSize;
    } else {
      assert ChunksFrom(lo + chunkSize, hi, chunkSize) == [];
      assert m == 1;
    }
    assert (m - 1) * chunkSize < hi - lo + 1 <= m * chunkSize;
    CeilDivOfBracket(hi - lo + 1, chunkSize, m);
  }

  /** The chunk loop: `for (let i = startId; i <= endId; i += chunkSize)` pushes one chunk per turn. */
  method BuildChunks(startId: int, endId: int, chunkSize: int) returns (chunks: seq<Chunk>)
    requires chunkSize >= 1
    ensures chunks == ChunksFrom(startId, endId, chunkSize)
    ensures startId > endId ==> chunks == []
    ensures startId <= endId ==> Tiling(chunks, startId, endId, chunkSize)
  {
    chunks := [];
    var i := startId;
    while i <= endId
      invariant chunks + ChunksFrom(i, endId, chunkSize) == ChunksFrom(startId, endId, chunkSize)
      decreases endId - i
    {
      var chunkStart := i;
      var chunkEnd := Min(i + chunkSize - 1, endId);
      chunks := chunks + [Chunk(chunkStart, chunkEnd)];
      i := i + chunkSize;
    }
    if startId <= endId {
      ChunksTile(startId, endId, chunkSize);
    }
  }

  /** Both bounds of the range are in order and both sizes are positive. */
  predicate ValidConfig(cfg: Config) {
    cfg.startId <= cfg.endId && cfg.chunkSize >= 1 && cfg.maxConcurrent >= 1
  }

  datatype Plan = Exit(code: int) | Scrape(chunks: seq<Chunk>)

  /**
    * What the script does once its options are read: `--help` exits with 0,
    * a reversed range or a size below 1 exits with 1 before any chunk is
    * built, and otherwise the range is cut into chunks.
    */
  method PlanRun(cfg: Config) returns (plan: Plan)
    ensures cfg.help ==> plan == Exit(0)
    ensures !cfg.help && !ValidConfig(cfg) ==> plan == Exit(1)
    ensures !cfg.help && ValidConfig(cfg) ==>
              && plan.Scrape?
              && plan.chunks == ChunksFrom(cfg.startId, cfg.endId, cfg.chunkSize)
              && Tiling(plan.chunks, cfg.startId, cfg.endId, cfg.chunkSize)
  {
    if cfg.help {
      return Exit(0);
    }
    if cfg.startId > cfg.endId {
      return Exit(1);
    }
    if cfg.chunkSize < 1 || cfg.maxConcurrent < 1 {
      return Exit(1);
    }
    var chunks := BuildChunks(cfg.startId, cfg.endId, cfg.chunkSize);
    plan := Scrape(chunks);
  }

  const WorkerScript := "playwright-brave.js"

  /** The place of each optional worker switch in the argument list; anything else ranks 3. */
  function SwitchRank(arg: string): nat {
    if arg == "--headless" then 0
    else if arg == "--save-html" then 1
    else if arg == "--save-png" then 2
    else 3
  }

  /** The optional switches `processChunk` pushes, in the order it pushes them. */
  function Switches(headless: bool, saveHtml: bool, savePng: bool): seq<string> {
    (if headless then ["--headless"] else [])
      + (if saveHtml then ["--save-html"] else [])
      + (if savePng then ["--save-png"] else [])
  }

  /** The switches come in rank order, and nothing else is among them. */
  lemma SwitchesInOrder(headless: bool, saveHtml: bool, savePng: bool)
    ensures var sw := Switches(headless, saveHtml, savePng);
            && (forall k :: 0 <= k < |sw| ==> SwitchRank(sw[k]) < 3)
            && (forall j, k :: 0 <= j < k < |sw| ==> SwitchRank(sw[j]) < SwitchRank(sw[k]))
  {
    var sw := Switches(headless, saveHtml, savePng);
    var ranks := (if headless then [0] else []) + (if saveHtml then [1] else []) + (if savePng then [2] else []);
    forall k | 0 <= k < |sw|
      ensures SwitchRank(sw[k]) == ranks[k]
    {
    }
  }

  /** Each switch is there exactly when its option is on. */
  lemma SwitchesPresent(headless: bool, saveHtml: bool, savePng: bool)
    ensures var sw := Switches(headless, saveHtml, savePng);
            && (("--headless" in sw) <==> headless)
            && (("--save-html" in sw) <==> saveHtml)
            && (("--save-png" in sw) <==> savePng)
  {
    var H, M, P := "--headless", "--save-html", "--save-png";
    assert H != M && H != P && M != P by {
      assert H[2] != M[2] && H[2] != P[2] && |M| != |P|;
    }
  }

  /**
    * `processChunk`'s argument list: the script, the chunk's bounds and the
    * output directory, then `--headless`, `--save-html` and `--save-png`,
    * each present exactly when its option is on, in that order.
    */
  method WorkerArgs(chunk: Chunk, outputDir: string, headless: bool, saveHtml: bool, savePng: bool)
    returns (args: seq<string>)
    ensures |args| >= 7
    ensures args[..7] == [WorkerScript, "--start", IntToString(chunk.start), "--end", IntToString(chunk.end), "--output", outputDir]
    ensures forall k :: 7 <= k < |args| ==> SwitchRank(args[k]) < 3
    ensures forall j, k :: 7 <= j < k < |args| ==> SwitchRank(args[j]) < SwitchRank(args[k])
    ensures ("--headless" in args[7..]) <==> headless
    ensures ("--save-html" in args[7..]) <==> saveHtml
    ensures ("--save-png" in args[7..]) <==> savePng
  {
    args := [WorkerScript, "--start", IntToString(chunk.start), "--end", IntToString(chunk.end), "--output", outputDir];
    ghost var base := args;
    ghost var h, m, p := (if headless then ["--headless"] else []), (if saveHtml then ["--save-html"] else []), (if savePng then ["--save-png"] else []);
    if headless {
      args := args + ["--headless"];
    }
    assert args == base + h;
    if saveHtml {
      args := args + ["--save-html"];
    }
    assert args == base + h + m;
    if savePng {
      args := args + ["--save-png"];
    }
    assert args == base + (h + m + p);
    BaseThenSwitches(args, base, headless, saveHtml, savePng);
  }

  /** A seven-entry prefix followed by the switches: the prefix, then the switches in rank order. */
  lemma BaseThenSwitches(args: seq<string>, base: seq<string>, headless: bool, saveHtml: bool, savePng: bool)
    requires |base| == 7 && args == base + Switches(headless, saveHtml, savePng)
    ensures |args| >= 7 && args[..7] == base
    ensures forall k :: 7 <= k < |args| ==> SwitchRank(args[k]) < 3
    ensures forall j, k :: 7 <= j < k < |args| ==> SwitchRank(args[j]) < SwitchRank(args[k])
    ensures ("--headless" in args[7..]) <==> headless
    ensures ("--save-html" in args[7..]) <==> saveHtml
    ensures ("--save-png" in args[7..]) <==> savePng
  {
    var sw := Switches(headless, saveHtml, savePng);
    assert args[..7] == base && args[7..] == sw;
    assert forall k :: 7 <= k < |args| ==> args[k] == sw[k - 7];
    SwitchesInOrder(headless, saveHtml, savePng);
    SwitchesPresent(headless, saveHtml, savePng);
  }

  /** The flags the worker reads that an output directory must not spell, lest the worker take it for a flag. */
  const WorkerFlagNames := {"--store", "--headless", "--save-html", "--save-png", "--help", "-h"}

  predicate EndsInDigit(s: string) {
    |s| > 0 && IsDigit(s[|s| - 1])
  }

  /** What the worker reads from a command line shaped like the one `processChunk` builds. */
  lemma WorkerReadsRange(w: seq<string>, s: string, e: string, dir: string)
    requires |w| >= 6 && w[..6] == ["--start", s, "--end", e, "--output", dir]
    requires EndsInDigit(s) && EndsInDigit(e) && dir != ""
    ensures FlagValue(w, {"--start"}) == Some(s)
    ensures FlagValue(w, {"--end"}) == Some(e)
    ensures FlagValue(w, PlaywrightBrave.OutputFlags) == Some(dir)
  {
    assert w[0] == "--start" && w[1] == s && w[2] == "--end" && w[3] == e && w[4] == "--output" && w[5] == dir;
    FlagValueIsFirstOccurrence(w, {"--start"}, 0);
    FlagValueIsFirstOccurrence(w, {"--end"}, 2);
    FlagValueIsFirstOccurrence(w, PlaywrightBrave.OutputFlags, 4);
  }

  /** No worker flag of `WorkerFlagNames` appears among the first six arguments, and the rest are switches. */
  lemma WorkerSeesNoStray(w: seq<string>, s: string, e: string, dir: string, x: string)
    requires |w| >= 6 && w[..6] == ["--start", s, "--end", e, "--output", dir]
    requires EndsInDigit(s) && EndsInDigit(e) && dir !in WorkerFlagNames
    requires forall k :: 6 <= k < |w| ==> SwitchRank(w[k]) < 3
    requires x in WorkerFlagNames
    ensures x in w <==> x in w[6..]
    ensures x in w[6..] ==> SwitchRank(x) < 3
  {
    assert !EndsInDigit(x);
    assert w == w[..6] + w[6..];
    if x in w[6..] {
      var k :| 0 <= k < |w[6..]| && w[6..][k] == x;
      assert w[6 + k] == x;
    }
  }

  /**
    * The worker reads back what the coordinator meant: its command line (the
    * arguments after the script name) gives the chunk's bounds, the output
    * directory with a trailing separator, the same switches, and no help.
    */
  method LaunchWorker(chunk: Chunk, cfg: Config) returns (opts: PlaywrightBrave.Options)
    requires cfg.outputDir != "" && cfg.outputDir !in WorkerFlagNames
    ensures opts.startId == chunk.start && opts.endId == chunk.end
    ensures opts.destinationFolder == PlaywrightBrave.NormalizeFolder(cfg.outputDir)
    ensures opts.headless == cfg.headless
    ensures opts.saveHtml == cfg.saveHtml
    ensures opts.savePng == cfg.savePng
    ensures !opts.help
  {
    var args := WorkerArgs(chunk, cfg.outputDir, cfg.headless, cfg.saveHtml, cfg.savePng);
    var s, e := IntToString(chunk.start), IntToString(chunk.end);
    var w := args[1..];
    IntToStringEndsInDigit(chunk.start);
    IntToStringEndsInDigit(chunk.end);
    ParseIntOfIntToString(chunk.start);
    ParseIntOfIntToString(chunk.end);
    assert w[..6] == args[1..7];
    assert w[6..] == args[7..];
    WorkerReadsRange(w, s, e, cfg.outputDir);
    WorkerSeesNoStray(w, s, e, cfg.outputDir, "--store");
    WorkerSeesNoStray(w, s, e, cfg.outputDir, "--headless");
    WorkerSeesNoStray(w, s, e, cfg.outputDir, "--save-html");
    WorkerSeesNoStray(w, s, e, cfg.outputDir, "--save-png");
    WorkerSeesNoStray(w, s, e, cfg.outputDir, "--help");
    WorkerSeesNoStray(w, s, e, cfg.outputDir, "-h");
    assert FlagValue(w, {"--store"}) == None;
    opts := PlaywrightBrave.ParseOptions(w);
  }

  /** How a worker process ended: its exit code (None when it was killed by a signal) and what it wrote. */
  datatype WorkerExit = WorkerExit(code: Option<int>, stdout: string, stderr: string)

  datatype ChunkResult =
    | Succeeded(chunkIndex: nat, chunk: Chunk, stdout: string)
    | Failed(chunkIndex: nat, chunk: Chunk, code: Option<int>, stderr: string)

  /** The value `processChunk`'s promise settles with: success exactly on exit code 0, otherwise the code and the error output. */
  function ChunkResultOf(chunkIndex: nat, chunk: Chunk, exit: WorkerExit): (r: ChunkResult)
    ensures r.chunkIndex == chunkIndex && r.chunk == chunk
    ensures r.Succeeded? <==> exit.code == Some(0)
    ensures r.Succeeded? ==> r.stdout == exit.stdout
    ensures r.Failed? ==> r.code == exit.code && r.stderr == exit.stderr
  {
    if exit.code == Some(0) then Succeeded(chunkIndex, chunk, exit.stdout)
    else Failed(chunkIndex, chunk, exit.code, exit.stderr)
  }

  /** For each chunk, whether its worker exited with code 0. */
  function ExitedCleanly(exits: seq<WorkerExit>): (ok: seq<bool>)
    ensures |ok| == |exits| && forall k :: 0 <= k < |exits| ==> (ok[k] <==> exits[k].code == Some(0))
  {
    seq(|exits|, k requires 0 <= k < |exits| => exits[k].code == Some(0))
  }

  /** The `progress` object: how many chunks' workers have closed with code 0, and how many otherwise. */
  class Progress {
    var completed: nat
    var failed: nat
    const total: nat

    ghost predicate Valid()
      reads this
    {
      completed + failed <= total
    }

    constructor(chunkCount: nat)
      ensures total == chunkCount && completed == 0 && failed == 0 && Valid()
    {
      completed, failed, total := 0, 0, chunkCount;
    }

    /**
      * The worker's `close` handler: exit code 0 counts one more completed
      * chunk and nothing else, any other code one more failed chunk and
      * nothing else.
      */
    method Close(chunkIndex: nat, chunk: Chunk, exit: WorkerExit) returns (result: ChunkResult)
      requires completed + failed < total
      modifies this
      ensures result == ChunkResultOf(chunkIndex, chunk, exit)
      ensures exit.code == Some(0) ==> completed == old(completed) + 1 && failed == old(failed)
      ensures exit.code != Some(0) ==> failed == old(failed) + 1 && completed == old(completed)
      ensures Valid()
    {
      if exit.code == Some(0) {
        completed := completed + 1;
        result := Succeeded(chunkIndex, chunk, exit.stdout);
      } else {
        failed := failed + 1;
        result := Failed(chunkIndex, chunk, exit.code, exit.stderr);
      }
    }

    /**
      * Every worker closes once, in the order `order`; afterwards `completed`
      * is the number of workers that exited with code 0, whatever that
      * order, and `failed` the rest.
      */
    method CloseAll(chunks: seq<Chunk>, exits: seq<WorkerExit>, order: seq<nat>)
      requires |chunks| == |exits| == total && completed == 0 && failed == 0
      requires multiset(order) == multiset(Range(total))
      modifies this
      ensures completed == CountSucceeded(Range(total), ExitedCleanly(exits))
      ensures completed + failed == total
    {
      var ok := ExitedCleanly(exits);
      assert |order| == total by {
        assert |multiset(order)| == |multiset(Range(total))|;
      }
      forall k | 0 <= k < |order|
        ensures order[k] < total
      {
        assert order[k] in multiset(Range(total));
      }
      for k := 0 to |order|
        invariant completed == CountSucceeded(order[..k], ok)
        invariant completed + failed == k
      {
        var i := order[k];
        var _ := Close(i, chunks[i], exits[i]);
        CountSucceededConcat(order[..k], [i], ok);
        assert order[..k + 1] == order[..k] + [i];
      }
      assert order[..|order|] == order;
      CountSucceededPermutation(order, Range(total), ok);
    }
  }

  /**
    * `processAllChunks`'s loop as written: when the window is full, the race
    * winner's value is recorded and the entry at `findIndex(p => p === result)`
    * is spliced out. No promise is `===` to a settled value, so that index
    * is -1 and `splice(-1, 1)` drops the entry admitted last.
    */
  method ProcessAllChunks(chunkCount: nat, maxConcurrent: nat, winners: seq<nat>) returns (results: seq<nat>)
    requires maxConcurrent >= 1
    ensures results == ScheduleAsWritten(chunkCount, maxConcurrent, winners)
    ensures |results| == chunkCount
  {
    results := [];
    var active: seq<nat> := [];
    var races := 0;
    for i := 0 to chunkCount
      invariant Window(active, results, races) == WindowAsWritten(i, maxConcurrent, winners)
    {
      ghost var before := Window(active, results, races);
      if |active| >= maxConcurrent {
        var result := active[WinnerPosition(|active|, winners, races)];
        var index := -1;
        active := SpliceOne(active, index);
        results := results + [result];
        races := races + 1;
      }
      active := active + [i];
      assert Window(active, results, races) == AdmitAsWritten(before, i, maxConcurrent, winners);
    }
    ghost var last := WindowAsWritten(chunkCount, maxConcurrent, winners);
    assert ScheduleAsWritten(chunkCount, maxConcurrent, winners) == last.results + last.active;
    results := results + active;
    ScheduleAsWrittenLength(chunkCount, maxConcurrent, winners);
  }

  /**
    * The loop as evidently intended: the entry spliced out is the race
    * winner's own, so every chunk's value is returned exactly once.
    */
  method ProcessAllChunksFixed(chunkCount: nat, maxConcurrent: nat, winners: seq<nat>) returns (results: seq<nat>)
    requires maxConcurrent >= 1
    ensures results == ScheduleFixed(chunkCount, maxConcurrent, winners)
    ensures multiset(results) == multiset(Range(chunkCount))
  {
    results := [];
    var active: seq<nat> := [];
    var races := 0;
    for i := 0 to chunkCount
      invariant Window(active, results, races) == WindowFixed(i, maxConcurrent, winners)
    {
      ghost var before := Window(active, results, races);
      if |active| >= maxConcurrent {
        var index := WinnerPosition(|active|, winners, races);
        var result := active[index];
        active := SpliceOne(active, index);
        results := results + [result];
        races := races + 1;
      }
      active := active + [i];
      assert Window(active, results, races) == AdmitFixed(before, i, maxConcurrent, winners);
    }
    ghost var last := WindowFixed(chunkCount, maxConcurrent, winners);
    assert ScheduleFixed(chunkCount, maxConcurrent, winners) == last.results + last.active;
    results := results + active;
    ScheduleFixedIsPermutation(chunkCount, maxConcurrent, winners);
  }

  datatype Summary = Summary(successful: nat, failed: nat, total: nat)

  /** `main`'s tallies: the successful and the failed results, which between them are all of them. */
  function Tallies(results: seq<nat>, ok: seq<bool>): (s: Summary)
    requires forall k :: 0 <= k < |results| ==> results[k] < |ok|
    ensures s.successful + s.failed == s.total == |results|
    ensures s.successful == CountSucceeded(results, ok)
  {
    CountsPartition(results, ok);
    Summary(CountSucceeded(results, ok), CountFailed(results, ok), |results|)
  }

  datatype Outcome =
    | Exited(code: int)
    | Completed(summary: Summary, completed: nat, failed: nat, chunkCount: nat)

  /** The exits of the first `n` chunks' workers, chunk `k`'s being `exitOf(k)`. */
  function Exits(exitOf: nat -> WorkerExit, n: nat): (exits: seq<WorkerExit>)
    ensures |exits| == n
  {
    seq(n, k requires 0 <= k < n => exitOf(k))
  }

  /**
    * The run proper, once the chunks are built: every worker closes once,
    * so `progress` counts each chunk's exit once; `main`'s summary tallies
    * the values `processAllChunks` returns, which (as written) are as many
    * as the chunks but not necessarily the same chunks.
    */
  method RunChunks(chunks: seq<Chunk>, maxConcurrent: nat, exitOf: nat -> WorkerExit, winners: seq<nat>)
    returns (outcome: Outcome)
    requires maxConcurrent >= 1
    ensures outcome.Completed? && outcome.chunkCount == |chunks|
    ensures outcome.completed == CountSucceeded(Range(|chunks|), ExitedCleanly(Exits(exitOf, |chunks|)))
    ensures outcome.failed == |chunks| - outcome.completed
    ensures var results := ScheduleAsWritten(|chunks|, maxConcurrent, winners);
            && (forall k :: 0 <= k < |results| ==> results[k] < |chunks|)
            && outcome.summary == Tallies(results, ExitedCleanly(Exits(exitOf, |chunks|)))
  {
    var exits := Exits(exitOf, |chunks|);
    var progress := new Progress(|chunks|);
    progress.CloseAll(chunks, exits, Range(|chunks|));
    var results := ProcessAllChunks(|chunks|, maxConcurrent, winners);
    ScheduleAsWrittenIndices(|chunks|, maxConcurrent, winners);
    var summary := Tallies(results, ExitedCleanly(exits));
    outcome := Completed(summary, progress.completed, progress.failed, |chunks|);
  }

  /**
    * The whole script: read the options, stop on `--help` (code 0) or on a
    * reversed range or a size below 1 (code 1), otherwise cut the range into
    * chunks and run them. Chunk `k`'s worker ends as `exitOf(k)` says.
    */
  method RunScraper(args: seq<string>, exitOf: nat -> WorkerExit, winners: seq<nat>)
    returns (cfg: Config, outcome: Outcome)
    requires NumericOptions(args)
    ensures cfg.help == ("--help" in args || "-h" in args)
    ensures ReadsInt(args, {"--start"}, DefaultStartId, cfg.startId)
    ensures ReadsInt(args, {"--end"}, DefaultEndId, cfg.endId)
    ensures ReadsInt(args, {"--chunk-size"}, DefaultChunkSize, cfg.chunkSize)
    ensures ReadsInt(args, {"--max-concurrent"}, DefaultMaxConcurrent, cfg.maxConcurrent)
    ensures cfg.help ==> outcome == Exited(0)
    ensures !cfg.help && !ValidConfig(cfg) ==> outcome == Exited(1)
    ensures !cfg.help && ValidConfig(cfg) ==>
              && outcome.Completed?
              && outcome.chunkCount == |ChunksFrom(cfg.startId, cfg.endId, cfg.chunkSize)|
              && outcome.completed == CountSucceeded(Range(outcome.chunkCount), ExitedCleanly(Exits(exitOf, outcome.chunkCount)))
              && outcome.failed == outcome.chunkCount - outcome.completed
              && var results := ScheduleAsWritten(outcome.chunkCount, cfg.maxConcurrent, winners);
                 && (forall k :: 0 <= k < |results| ==> results[k] < outcome.chunkCount)
                 && outcome.summary == Tallies(results, ExitedCleanly(Exits(exitOf, outcome.chunkCount)))
  {
    cfg := ParseOptions(args);
    var plan := PlanRun(cfg);
    if plan.Exit? {
      return cfg, Exited(plan.code);
    }
    outcome := RunChunks(plan.chunks, cfg.maxConcurrent, exitOf, winners);
  }
}
