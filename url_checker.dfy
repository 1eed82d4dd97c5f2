/**
  * url-checker.js: open one iHeartJane URL in the browser, then report
  * whether the page ended up at a different URL, what kind of redirect that
  * looks like, and a description of the HTTP status. The browser itself is
  * not modelled: the final URL and the status, or the error the navigation
  * threw, are inputs.
  */
module UrlChecker {
  import opened Text
  import opened Cli

  const DefaultUrl := "https://www.iheartjane.com/stores/5585"
  /** The general stores page a retired store page is expected to redirect to. */
  const StoresPage := "https://www.iheartjane.com/stores"
  const UrlFlag := "--url"

  datatype Options = Options(targetUrl: string, headless: bool, help: bool)

  /**
    * The command line: `--url <url>` replaces the default target when the
    * first `--url` is followed by a non-empty argument; the switches are on
    * when present anywhere.
    */
  function ParseOptions(args: seq<string>): (o: Options)
    ensures o.headless <==> "--headless" in args
    ensures o.help <==> "--help" in args || "-h" in args
    ensures o.targetUrl != ""
    ensures o.targetUrl == DefaultUrl || o.targetUrl in args
    ensures UrlFlag !in args ==> o.targetUrl == DefaultUrl
  {
    var url := FlagValue(args, {UrlFlag});
    Options(if url.Some? then url.value else DefaultUrl, "--headless" in args, "--help" in args || "-h" in args)
  }

  /**
    * Only the first `--url` counts: the argument right after it is the
    * target when it is non-empty, and otherwise the default is kept, whatever
    * follows later on the command line.
    */
  lemma TargetFromFirstUrlFlag(args: seq<string>, i: nat)
    requires i < |args| && args[i] == UrlFlag
    requires forall k :: 0 <= k < i ==> args[k] != UrlFlag
    ensures ParseOptions(args).targetUrl == if i + 1 < |args| && args[i + 1] != "" then args[i + 1] else DefaultUrl
  {
    FlagValueIsFirstOccurrence(args, {UrlFlag}, i);
  }

  // ---------------------------------------------------------------------
  // The `/\/stores\/\d+$/` test
  // ---------------------------------------------------------------------

  /** How many decimal digits `s` ends with. */
  function TrailingDigits(s: string): (n: nat)
    ensures n <= |s| && AllDigits(s[|s| - n..])
    ensures n < |s| ==> !IsDigit(s[|s| - n - 1])
  {
    if |s| == 0 || !IsDigit(s[|s| - 1]) then 0
    else
      var n := TrailingDigits(s[..|s| - 1]);
      assert forall k :: |s| - 1 - n <= k < |s| - 1 ==> s[k] == s[..|s| - 1][k];
      n + 1
  }

  /** `s` ends in `/stores/` followed by one or more digits, found by cutting the digits off the end. */
  predicate EndsInStoreId(s: string) {
    var n := TrailingDigits(s);
    n > 0 && EndsWith(s[..|s| - n], "/stores/")
  }

  /** The regular expression matches with `/stores/` starting at index `k` and digits running to the end. */
  predicate StoreIdFrom(s: string, k: int) {
    OccursAt(s, "/stores/", k) && k + 8 < |s| && AllDigits(s[k + 8..])
  }

  /**
    * The computed test is the regular expression: some occurrence of
    * `/stores/` is followed by a non-empty run of digits that reaches the
    * end of the URL.
    */
  lemma EndsInStoreIdIsRegex(s: string)
    ensures EndsInStoreId(s) <==> exists k :: StoreIdFrom(s, k)
  {
    if EndsInStoreId(s) {
      var n := TrailingDigits(s);
      StoreIdAfterDigitsCut(s, n);
    }
    if k :| StoreIdFrom(s, k) {
      StoreIdMatchIsDigitsCut(s, k);
    }
  }

  lemma StoreIdAfterDigitsCut(s: string, n: nat)
    requires 0 < n <= |s| && AllDigits(s[|s| - n..]) && EndsWith(s[..|s| - n], "/stores/")
    ensures StoreIdFrom(s, |s| - n - 8)
  {
    var cut := s[..|s| - n];
    assert |cut| >= 8 && cut[|cut| - 8..] == "/stores/";
    var k := |cut| - 8;
    assert k + 8 == |s| - n;
    assert s[k..k + 8] == cut[k..];
    assert AllDigits(s[k + 8..]);
  }

  lemma StoreIdMatchIsDigitsCut(s: string, k: int)
    requires StoreIdFrom(s, k)
    ensures EndsInStoreId(s)
  {
    TrailingDigitsAfterMatch(s, k);
    var n := |s| - k - 8;
    assert s[..|s| - n][|s| - n - 8..] == s[k..k + 8];
  }

  /** The digits after a match of the regular expression are exactly the trailing digits. */
  lemma TrailingDigitsAfterMatch(s: string, k: int)
    requires StoreIdFrom(s, k)
    ensures TrailingDigits(s) == |s| - k - 8
  {
    assert s[k..k + 8][7] == s[k + 7];
    TrailingDigitsAtLeast(s, k + 8);
    TrailingDigitsAtMost(s, k + 7);
  }

  /** Every all-digit suffix is counted. */
  lemma {:induction false} TrailingDigitsAtLeast(s: string, j: int)
    requires 0 <= j <= |s| && AllDigits(s[j..])
    ensures TrailingDigits(s) >= |s| - j
  {
    if j < |s| {
      var t := s[..|s| - 1];
      assert s[j..][|s| - 1 - j] == s[|s| - 1];
      assert t[j..] == s[j..][..|s| - 1 - j];
      TrailingDigitsAtLeast(t, j);
    }
  }

  /** The count stops at the last character that is not a digit. */
  lemma {:induction false} TrailingDigitsAtMost(s: string, j: int)
    requires 0 <= j < |s| && !IsDigit(s[j])
    ensures TrailingDigits(s) <= |s| - j - 1
  {
    if IsDigit(s[|s| - 1]) {
      var t := s[..|s| - 1];
      assert t[j] == s[j];
      TrailingDigitsAtMost(t, j);
    }
  }

  // ---------------------------------------------------------------------
  // Redirect classification
  // ---------------------------------------------------------------------

  datatype RedirectKind = GeneralStoresPage | DifferentStore | GeneralRedirect

  /** The result block: no redirect, or a redirect of some kind, possibly the specific one looked for. */
  datatype Verdict = NoRedirect | Redirected(kind: RedirectKind, specificMatch: bool)

  /** The redirect type printed for a final URL that differs from the target. */
  function RedirectKindOf(finalUrl: string): RedirectKind {
    if Contains(finalUrl, "/stores") && !EndsInStoreId(finalUrl) then GeneralStoresPage
    else if Contains(finalUrl, "/stores/") then DifferentStore
    else GeneralRedirect
  }

  /** Compare the target with where the browser ended up. */
  function Check(targetUrl: string, finalUrl: string): (v: Verdict)
    ensures v.Redirected? <==> targetUrl != finalUrl
  {
    if targetUrl != finalUrl then
      Redirected(RedirectKindOf(finalUrl), Contains(targetUrl, "/stores/") && finalUrl == StoresPage)
    else NoRedirect
  }

  /** An occurrence of a string is also an occurrence of each of its prefixes. */
  lemma OccursAtPrefix(s: string, sub: string, p: string, k: int)
    requires OccursAt(s, sub, k) && StartsWith(sub, p)
    ensures OccursAt(s, p, k)
  {
    assert s[k..k + |p|] == s[k..k + |sub|][..|p|];
  }

  /**
    * The three redirect types split the final URLs: the general stores page
    * is any `/stores` URL not ending in a store id, a different store is
    * exactly a URL ending in `/stores/<digits>`, and every URL without
    * `/stores` is a general redirect.
    */
  lemma RedirectKinds(finalUrl: string)
    ensures RedirectKindOf(finalUrl) == GeneralStoresPage <==> Contains(finalUrl, "/stores") && !EndsInStoreId(finalUrl)
    ensures RedirectKindOf(finalUrl) == DifferentStore <==> EndsInStoreId(finalUrl)
    ensures RedirectKindOf(finalUrl) == GeneralRedirect <==> !Contains(finalUrl, "/stores")
  {
    if EndsInStoreId(finalUrl) {
      EndsInStoreIdIsRegex(finalUrl);
      var k :| StoreIdFrom(finalUrl, k);
      OccursAtPrefix(finalUrl, "/stores/", "/stores", k);
      assert Contains(finalUrl, "/stores/");
    }
    if Contains(finalUrl, "/stores/") {
      var k :| 0 <= k <= |finalUrl| - 8 && OccursAt(finalUrl, "/stores/", k);
      OccursAtPrefix(finalUrl, "/stores/", "/stores", k);
    }
  }

  /**
    * The specific match (a store URL landing on the general stores page) is
    * always also reported as a redirect to the general stores page.
    */
  lemma SpecificMatchIsGeneralStoresPage(targetUrl: string, finalUrl: string)
    requires Check(targetUrl, finalUrl).Redirected? && Check(targetUrl, finalUrl).specificMatch
    ensures Check(targetUrl, finalUrl).kind == GeneralStoresPage
  {
    assert OccursAt(StoresPage, "/stores", 26);
    assert TrailingDigits(StoresPage) == 0;
  }

  /** The default target is a store page. */
  lemma DefaultIsStorePage()
    ensures EndsInStoreId(DefaultUrl) && Contains(DefaultUrl, "/stores/")
  {
    assert OccursAt(DefaultUrl, "/stores/", 26);
    TrailingDigitsAtLeast(DefaultUrl, |DefaultUrl| - 4);
    TrailingDigitsAtMost(DefaultUrl, |DefaultUrl| - 5);
    assert DefaultUrl[..|DefaultUrl| - 4][|DefaultUrl| - 12..] == "/stores/";
  }

  /** The redirect the tool is written to detect: the default store page landing on the general stores page. */
  lemma DefaultToStoresPage()
    ensures Check(DefaultUrl, StoresPage) == Redirected(GeneralStoresPage, true)
  {
    DefaultIsStorePage();
    SpecificMatchIsGeneralStoresPage(DefaultUrl, StoresPage);
  }

  /** Landing on another store's page is a redirect to a different store, not the specific match. */
  lemma DefaultToOtherStore()
    ensures Check(DefaultUrl, "https://www.iheartjane.com/stores/123") == Redirected(DifferentStore, false)
  {
    var other := "https://www.iheartjane.com/stores/123";
    TrailingDigitsAtLeast(other, |other| - 3);
    TrailingDigitsAtMost(other, |other| - 4);
    assert other[..|other| - 3][|other| - 11..] == "/stores/";
    RedirectKinds(other);
  }

  /** Landing on the home page is a general redirect. */
  lemma DefaultToHomePage()
    ensures Check(DefaultUrl, "https://www.iheartjane.com/") == Redirected(GeneralRedirect, false)
  {
    var home := "https://www.iheartjane.com/";
    forall k | 0 <= k <= |home| - 7
      ensures !OccursAt(home, "/stores", k)
    {
      assert home[k..k + 7][0] == home[k] && home[k..k + 7][1] == home[k + 1];
    }
    RedirectKinds(home);
  }

  // ---------------------------------------------------------------------
  // Status descriptions and the error hint
  // ---------------------------------------------------------------------

  const StatusDescriptions: map<int, string> := map[
    200 := "OK - Success",
    301 := "Moved Permanently",
    302 := "Found (Temporary Redirect)",
    303 := "See Other",
    307 := "Temporary Redirect",
    308 := "Permanent Redirect",
    404 := "Not Found",
    500 := "Internal Server Error",
    502 := "Bad Gateway",
    503 := "Service Unavailable"]

  const UnknownStatus := "Unknown Status"

  /** `statusDescriptions[statusCode] || 'Unknown Status'`. */
  function StatusDescription(code: int): string {
    if code in StatusDescriptions && StatusDescriptions[code] != "" then StatusDescriptions[code] else UnknownStatus
  }

  /**
    * The ten listed codes get their own description, different for each
    * code, and every other code, and only those, is "Unknown Status".
    */
  lemma StatusDescriptionLookup(code: int, other: int)
    ensures code in {200, 301, 302, 303, 307, 308, 404, 500, 502, 503} ==> StatusDescription(code) == StatusDescriptions[code]
    ensures StatusDescription(code) == UnknownStatus <==> code !in {200, 301, 302, 303, 307, 308, 404, 500, 502, 503}
    ensures StatusDescription(code) == StatusDescription(other) ==> code == other || StatusDescription(code) == UnknownStatus
  {
  }

  /** The hint printed after an error: the message mentions a network error or a timeout. */
  predicate NavigationHint(message: string) {
    Contains(message, "net::ERR_") || Contains(message, "timeout")
  }

  lemma ContainsWithin(s: string, sub: string, before: string, after: string)
    requires Contains(s, sub)
    ensures Contains(before + s + after, sub)
  {
    var k :| 0 <= k <= |s| - |sub| && OccursAt(s, sub, k);
    assert (before + s + after)[|before| + k..|before| + k + |sub|] == s[k..k + |sub|];
    assert OccursAt(before + s + after, sub, |before| + k);
  }

  /**
    * The hint follows the markers wherever they sit: a message that earns it
    * still does with text added on either side, and a message holding
    * neither marker never does.
    */
  lemma NavigationHintMarkers(message: string, before: string, after: string)
    ensures NavigationHint(message) ==> NavigationHint(before + message + after)
    ensures NavigationHint("net::ERR_" + message) && NavigationHint(message + "timeout")
  {
    if Contains(message, "net::ERR_") {
      ContainsWithin(message, "net::ERR_", before, after);
    }
    if Contains(message, "timeout") {
      ContainsWithin(message, "timeout", before, after);
    }
    assert OccursAt("net::ERR_" + message, "net::ERR_", 0);
    assert OccursAt(message + "timeout", "timeout", |message|);
  }

  /** The test is case-sensitive: a message that says `Timeout` with a capital T gets no hint. */
  lemma NavigationHintIsCaseSensitive()
    ensures !NavigationHint("Timeout 30000ms exceeded.")
  {
    var m := "Timeout 30000ms exceeded.";
    forall k | 0 <= k <= |m| - 7
      ensures !OccursAt(m, "timeout", k)
    {
      assert m[k..k + 7][0] == m[k];
      if k == 6 {
        assert m[k..k + 7][1] == m[7];
      }
    }
    forall k | 0 <= k <= |m| - 9
      ensures !OccursAt(m, "net::ERR_", k)
    {
      assert m[k..k + 9][0] == m[k];
    }
  }

  /** What the navigation gave: the final URL and status, or the message of the error it threw. */
  datatype Navigation = Loaded(finalUrl: string, status: int) | Threw(message: string)

  /** What the checker reports. */
  datatype Report = Checked(verdict: Verdict, statusText: string) | Failed(message: string, hint: bool)

  /**
    * The body of `checkUrlRedirect` once the browser has answered: a loaded
    * page is classified by `Check` (see `RedirectKinds` for what each kind
    * means) and its status described by the table; a thrown error is
    * reported with the hint.
    */
  function CheckUrlRedirect(targetUrl: string, nav: Navigation): (r: Report)
    ensures r.Checked? <==> nav.Loaded?
    ensures r.Checked? ==> r.verdict == Check(targetUrl, nav.finalUrl) && r.statusText == StatusDescription(nav.status)
    ensures r.Checked? ==> (r.verdict == NoRedirect <==> nav.finalUrl == targetUrl)
    ensures r.Checked? ==> (r.statusText == UnknownStatus <==> nav.status !in StatusDescriptions)
    ensures r.Failed? ==> r.message == nav.message && (r.hint <==> Contains(nav.message, "net::ERR_") || Contains(nav.message, "timeout"))
  {
    match nav
    case Loaded(finalUrl, status) =>
      StatusDescriptionLookup(status, status);
      Checked(Check(targetUrl, finalUrl), StatusDescription(status))
    case Threw(message) => Failed(message, NavigationHint(message))
  }
}
