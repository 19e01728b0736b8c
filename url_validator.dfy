/**
 * Reference-link validation: extraction of `[linkText](url)` links from
 * LLM-written markdown, the per-URL liveness decision with its trusted-domain
 * leniency, validation of a list of URLs, the strikethrough rewrite of
 * broken links, and the `(filtered_text, total, valid)` summary.
 *
 * The network is an input: `Probe` gives the outcome the HEAD request would
 * have and the outcome the GET request would have if it were issued.
 */
module UrlValidator {
  import opened Wrappers
  import opened PyStr

  datatype URLCheckResult = URLCheckResult(url: string, isValid: bool, statusCode: Option<int>, error: Option<string>)

  /** Domains given the benefit of the doubt when a probe times out. */
  const TrustedDomains: set<string> := {
    "docs.python.org", "developer.mozilla.org", "en.wikipedia.org", "github.com",
    "stackoverflow.com", "rust-lang.org", "doc.rust-lang.org", "crates.io",
    "reactjs.org", "react.dev", "nodejs.org", "npmjs.com", "pypi.org",
    "arxiv.org", "doi.org", "youtube.com", "www.youtube.com"
  }

  // ---------------------------------------------------------------------------
  // The pattern \[([^\]]+)\]\(([^)]+)\)

  /** One match of the link pattern: its two groups and the length of the matched text. */
  datatype Match = Match(linkText: string, url: string, length: nat)

  /** The text `[linkText](url)`. */
  function MarkdownLink(linkText: string, url: string): string {
    "[" + linkText + "](" + url + ")"
  }

  /** `[^\]]+` */
  predicate IsLabel(linkText: string) {
    |linkText| > 0 && ']' !in linkText
  }

  /** `[^)]+` */
  predicate IsTarget(url: string) {
    |url| > 0 && ')' !in url
  }

  /**
   * The match of the pattern that starts at the first character of `t`, if
   * any: the linkText runs to the first `]`, which must be followed by `(`, and
   * the URL runs to the first `)` after that; neither may be empty.
   */
  function MatchPrefix(t: string): (r: Option<Match>)
    ensures r.Some? ==> 4 <= r.value.length <= |t|
  {
    if |t| == 0 || t[0] != '[' then None
    else
      var a := RunWithout(t[1..], ']');
      if a == 0 || 2 + a >= |t| || t[2 + a] != '(' then None
      else
        var b := RunWithout(t[3 + a..], ')');
        if b == 0 || 3 + a + b >= |t| then None
        else Some(Match(t[1..1 + a], t[3 + a..3 + a + b], 4 + a + b))
  }

  /** How far a greedy `[^c]*` runs from the start of `s`. */
  function RunWithout(s: string, c: char): (k: nat)
    ensures k <= |s|
  {
    if s == [] || s[0] == c then 0 else 1 + RunWithout(s[1..], c)
  }

  /** The run stops at the first `c`, or at the end of `s` when there is none. */
  lemma {:induction false} RunWithoutStops(s: string, c: char)
    ensures forall i :: 0 <= i < RunWithout(s, c) ==> s[i] != c
    ensures RunWithout(s, c) < |s| ==> s[RunWithout(s, c)] == c
  {
    if s != [] && s[0] != c {
      RunWithoutStops(s[1..], c);
      forall i | 0 <= i < RunWithout(s, c) ensures s[i] != c {
        if i > 0 {
          assert s[i] == s[1..][i - 1];
        }
      }
    }
  }

  /** A prefix without `c` followed by `c` (or by nothing) is exactly the run. */
  lemma {:induction false} RunWithoutIs(s: string, c: char, k: nat)
    requires k <= |s| && c !in s[..k] && (k < |s| ==> s[k] == c)
    ensures RunWithout(s, c) == k
    decreases k
  {
    if k > 0 {
      assert s[0] == s[..k][0];
      assert s[1..][..k - 1] == s[..k][1..];
      RunWithoutIs(s[1..], c, k - 1);
    }
  }

  /** `m` is a well-formed link that `t` starts with. */
  predicate IsLinkPrefix(t: string, m: Match) {
    IsLabel(m.linkText) && IsTarget(m.url) &&
    m.length == |MarkdownLink(m.linkText, m.url)| <= |t| &&
    t[..m.length] == MarkdownLink(m.linkText, m.url)
  }

  /** Every match is a well-formed link at the start of the text, and its length is that link's. */
  lemma MatchPrefixSound(t: string)
    ensures MatchPrefix(t).Some? ==> IsLinkPrefix(t, MatchPrefix(t).value)
  {
    if MatchPrefix(t).Some? {
      var a := RunWithout(t[1..], ']');
      var b := RunWithout(t[3 + a..], ')');
      RunSlice(t, 1, ']');
      RunSlice(t, 3 + a, ')');
      LinkAt(t, a, b);
    }
  }

  /** A run that starts at `i` and stops inside `t` holds no `c` and stops at a `c`. */
  lemma RunSlice(t: string, i: nat, c: char)
    requires i <= |t| && i + RunWithout(t[i..], c) < |t|
    ensures var k := RunWithout(t[i..], c); c !in t[i..i + k] && t[i + k] == c
  {
    var k := RunWithout(t[i..], c);
    RunWithoutStops(t[i..], c);
    assert t[i..i + k] == t[i..][..k];
    assert t[i + k] == t[i..][k];
  }

  /** Brackets at the right places make a prefix of `t` the link of the text between them. */
  lemma LinkAt(t: string, a: nat, b: nat)
    requires 4 + a + b <= |t| && t[0] == '[' && t[1 + a] == ']' && t[2 + a] == '(' && t[3 + a + b] == ')'
    ensures t[..4 + a + b] == MarkdownLink(t[1..1 + a], t[3 + a..3 + a + b])
  {
    var n := 4 + a + b;
    assert t[..1] == "[";
    assert t[1 + a..3 + a] == "](";
    assert t[3 + a + b..n] == ")";
    assert t[..n] == t[..1] + t[1..1 + a] + t[1 + a..3 + a] + t[3 + a..3 + a + b] + t[3 + a + b..n];
  }

  /** Every well-formed link at the start of a text is matched, with exactly its linkText and URL. */
  lemma MatchPrefixOfLink(linkText: string, url: string, rest: string)
    requires IsLabel(linkText) && IsTarget(url)
    ensures MatchPrefix(MarkdownLink(linkText, url) + rest) == Some(Match(linkText, url, |linkText| + |url| + 4))
  {
    var t := MarkdownLink(linkText, url) + rest;
    var a := |linkText|;
    var b := |url|;
    assert t == "[" + linkText + "](" + url + ")" + rest;
    assert t[0] == '[';
    assert t[1..1 + a] == linkText;
    assert t[1 + a] == ']' && t[2 + a] == '(';
    assert t[3 + a..3 + a + b] == url;
    assert t[3 + a + b] == ')';
    assert t[1..][..a] == linkText;
    RunWithoutIs(t[1..], ']', a);
    assert t[3 + a..][..b] == url;
    RunWithoutIs(t[3 + a..], ')', b);
  }

  /**
   * The matches `re.finditer` reports, left to right: a match resumes the
   * scan after its last character; a position with no match moves it by one.
   */
  function Matches(t: string): seq<Match>
    decreases |t|
  {
    if t == [] then []
    else match MatchPrefix(t)
      case Some(m) => [m] + Matches(t[m.length..])
      case None => Matches(t[1..])
  }

  /** One step of the scan. */
  lemma MatchesStep(t: string)
    requires t != []
    ensures MatchPrefix(t).Some? ==> Matches(t) == [MatchPrefix(t).value] + Matches(t[MatchPrefix(t).value.length..])
    ensures MatchPrefix(t).None? ==> Matches(t) == Matches(t[1..])
  {
  }

  /** No match starts at a character other than `[`. */
  lemma NoMatchAt(t: string)
    requires t != [] && t[0] != '['
    ensures MatchPrefix(t) == None
  {
  }

  /** Text in which no link can start. */
  predicate Plain(p: string) {
    forall i :: 0 <= i < |p| ==> p[i] != '['
  }

  lemma PlainTail(p: string)
    requires Plain(p) && p != []
    ensures Plain(p[1..])
  {
    forall i | 0 <= i < |p| - 1 ensures p[1..][i] != '[' {
      assert p[1..][i] == p[i + 1];
    }
  }

  /** A text without `[` contains no link. */
  lemma MatchesNoBracket(t: string)
    requires Plain(t)
    ensures Matches(t) == []
  {
    MatchesSkipPlain(t, []);
    assert t + [] == t;
  }

  /** Text without `[` in front of the rest contributes no match. */
  lemma {:induction false} MatchesSkipPlain(p: string, rest: string)
    requires Plain(p)
    ensures Matches(p + rest) == Matches(rest)
    decreases |p|
  {
    if p != [] {
      var t := p + rest;
      assert t[0] == p[0];
      NoMatchAt(t);
      MatchesStep(t);
      SliceAppend(p, rest, 1);
      PlainTail(p);
      MatchesSkipPlain(p[1..], rest);
    } else {
      assert p + rest == rest;
    }
  }

  /** Text at no position of which a link starts. */
  predicate LinkFree(t: string) {
    forall i :: 0 <= i < |t| ==> MatchPrefix(t[i..]).None?
  }

  /** Text is link-free exactly when no link starts at its front and its tail is link-free. */
  lemma LinkFreeStep(t: string)
    requires t != []
    ensures LinkFree(t) <==> MatchPrefix(t).None? && LinkFree(t[1..])
  {
    assert t[0..] == t;
    forall i | 0 <= i < |t| - 1 ensures t[1..][i..] == t[i + 1..] {
    }
    if MatchPrefix(t).None? && LinkFree(t[1..]) {
      forall i | 0 <= i < |t| ensures MatchPrefix(t[i..]).None? {
        if i > 0 {
          assert t[1..][i - 1..] == t[i..];
        }
      }
    }
  }

  /** The scan reports no match exactly when no link starts anywhere in the text. */
  lemma {:induction false} MatchesEmptyIff(t: string)
    ensures Matches(t) == [] <==> LinkFree(t)
    decreases |t|
  {
    if t != [] {
      LinkFreeStep(t);
      MatchesStep(t);
      MatchesEmptyIff(t[1..]);
    }
  }

  /** Text without `[` is link-free. */
  lemma PlainLinkFree(t: string)
    requires Plain(t)
    ensures LinkFree(t)
  {
    MatchesNoBracket(t);
    MatchesEmptyIff(t);
  }

  /** A link at the front is reported first, and the scan continues right after it. */
  lemma MatchesOfLink(linkText: string, url: string, rest: string)
    requires IsLabel(linkText) && IsTarget(url)
    ensures Matches(MarkdownLink(linkText, url) + rest) == [Match(linkText, url, |linkText| + |url| + 4)] + Matches(rest)
  {
    var t := MarkdownLink(linkText, url) + rest;
    MatchPrefixOfLink(linkText, url, rest);
    assert t[|MarkdownLink(linkText, url)|..] == rest;
  }

  // ---------------------------------------------------------------------------
  // extract_urls_from_markdown

  /** The URLs of the matches that start with "http", in order. */
  function HttpUrls(ms: seq<Match>): (r: seq<string>)
    ensures |r| <= |ms|
  {
    if ms == [] then []
    else (if StartsWith(ms[0].url, "http") then [ms[0].url] else []) + HttpUrls(ms[1..])
  }

  /** Exactly the http URLs of the matches are kept. */
  lemma {:induction false} HttpUrlsMembers(ms: seq<Match>)
    ensures forall u :: u in HttpUrls(ms) ==> StartsWith(u, "http")
    ensures forall u :: u in HttpUrls(ms) <==> exists i :: 0 <= i < |ms| && ms[i].url == u && StartsWith(u, "http")
    decreases |ms|
  {
    if ms != [] {
      HttpUrlsMembers(ms[1..]);
      assert forall i :: 1 <= i < |ms| ==> ms[i] == ms[1..][i - 1];
    }
  }

  lemma HttpUrlsCons(m: Match, ms: seq<Match>)
    ensures HttpUrls([m] + ms) == (if StartsWith(m.url, "http") then [m.url] else []) + HttpUrls(ms)
  {
    assert ([m] + ms)[1..] == ms;
  }

  /** What `extract_urls_from_markdown` returns. */
  function ExtractedUrls(text: string): seq<string> {
    HttpUrls(Matches(text))
  }

  /** One step of the extraction scan. */
  lemma ExtractStep(rest: string)
    requires rest != []
    ensures MatchPrefix(rest).Some? ==>
      var m := MatchPrefix(rest).value;
      HttpUrls(Matches(rest)) == (if StartsWith(m.url, "http") then [m.url] else []) + HttpUrls(Matches(rest[m.length..]))
    ensures MatchPrefix(rest).None? ==> HttpUrls(Matches(rest)) == HttpUrls(Matches(rest[1..]))
  {
    MatchesStep(rest);
    if MatchPrefix(rest).Some? {
      var m := MatchPrefix(rest).value;
      HttpUrlsCons(m, Matches(rest[m.length..]));
    }
  }

  /** After a match, the scan goes on with the URL appended if it starts with "http". */
  lemma ExtractAdvance(urls: seq<string>, rest: string, m: Match)
    requires rest != [] && MatchPrefix(rest) == Some(m)
    ensures (if StartsWith(m.url, "http") then urls + [m.url] else urls) + HttpUrls(Matches(rest[m.length..])) ==
      urls + HttpUrls(Matches(rest))
  {
    ExtractStep(rest);
    var tail := HttpUrls(Matches(rest[m.length..]));
    if StartsWith(m.url, "http") {
      assert urls + ([m.url] + tail) == (urls + [m.url]) + tail;
    } else {
      assert [] + tail == tail;
    }
  }

  /** Without a match, the scan moves on by one character. */
  lemma ExtractSkip(urls: seq<string>, rest: string)
    requires rest != [] && MatchPrefix(rest).None?
    ensures urls + HttpUrls(Matches(rest[1..])) == urls + HttpUrls(Matches(rest))
  {
    ExtractStep(rest);
  }

  /** `extract_urls_from_markdown`: scan for matches, keeping the URLs that start with "http". */
  method ExtractUrlsFromMarkdown(text: string) returns (urls: seq<string>)
    ensures urls == ExtractedUrls(text)
  {
    urls := [];
    var rest := text;
    while rest != []
      invariant urls + HttpUrls(Matches(rest)) == ExtractedUrls(text)
      decreases |rest|
    {
      var found := MatchPrefix(rest);
      if found.Some? {
        var m := found.value;
        ExtractAdvance(urls, rest, m);
        if StartsWith(m.url, "http") {
          urls := urls + [m.url];
        }
        rest := rest[m.length..];
      } else {
        ExtractSkip(urls, rest);
        rest := rest[1..];
      }
    }
    assert urls + [] == urls;
  }

  /**
   * The extracted URLs of a text made of plain text, one link and a rest: the
   * link's URL if it starts with "http" (mailto: and relative targets are
   * dropped, paths, queries and fragments are kept), then those of the rest.
   */
  lemma ExtractLink(p: string, linkText: string, url: string, rest: string)
    requires Plain(p) && IsLabel(linkText) && IsTarget(url)
    ensures ExtractedUrls(p + MarkdownLink(linkText, url) + rest) ==
      (if StartsWith(url, "http") then [url] else []) + ExtractedUrls(rest)
  {
    assert p + MarkdownLink(linkText, url) + rest == p + (MarkdownLink(linkText, url) + rest);
    MatchesSkipPlain(p, MarkdownLink(linkText, url) + rest);
    MatchesOfLink(linkText, url, rest);
    var ms := [Match(linkText, url, |linkText| + |url| + 4)] + Matches(rest);
    assert ms[1..] == Matches(rest);
  }

  /** Text without `[` yields no URL. */
  lemma ExtractNoLinks(text: string)
    requires Plain(text)
    ensures ExtractedUrls(text) == []
  {
    MatchesNoBracket(text);
  }

  /** Text in which no link starts yields no URL. */
  lemma ExtractLinkFree(text: string)
    requires LinkFree(text)
    ensures ExtractedUrls(text) == []
  {
    MatchesEmptyIff(text);
  }

  // ---------------------------------------------------------------------------
  // check_url

  /** What one request would produce: a response with a status, or one of the transport failures. */
  datatype ProbeOutcome = Response(status: int) | Timeout | ConnectFailure | TooManyRedirects | OtherError(message: string)

  /** The network's answers for one URL: to the HEAD request, and to the GET request if it is issued. */
  datatype Probe = Probe(head: ProbeOutcome, get: ProbeOutcome)

  datatype Request = Head | Get

  /** The result of a check and the requests it issued, in order. */
  datatype CheckOutcome = CheckOutcome(result: URLCheckResult, requests: seq<Request>)

  /** `url.split("//")[1].split("/")[0]`, or None where Python raises IndexError. */
  function DomainOf(url: string): Option<string> {
    var parts := Split(url, "//");
    if |parts| < 2 then None else Some(Split(parts[1], "/")[0])
  }

  /** The domain with a leading "www." removed. */
  function DomainCheck(domain: string): string {
    if StartsWith(domain, "www.") then domain[4..] else domain
  }

  predicate IsTrusted(domain: string) {
    DomainCheck(domain) in TrustedDomains || domain in TrustedDomains
  }

  /** `str(e)[:100]` */
  function Truncate100(message: string): (r: string)
    ensures |r| <= 100
  {
    if |message| <= 100 then message else message[..100]
  }

  /** The result when a request fails in transport. */
  function TransportFailure(url: string, failure: ProbeOutcome, isTrusted: bool): URLCheckResult
    requires !failure.Response?
  {
    match failure
    case Timeout =>
      if isTrusted then URLCheckResult(url, true, None, Some("Timeout (trusted domain)"))
      else URLCheckResult(url, false, None, Some("Timeout"))
    case ConnectFailure => URLCheckResult(url, false, None, Some("Connection failed"))
    case TooManyRedirects => URLCheckResult(url, false, None, Some("Too many redirects"))
    case OtherError(message) => URLCheckResult(url, false, None, Some(Truncate100(message)))
  }

  /** `check_url`: parse the domain, try HEAD, fall back to GET on 405, and classify. */
  function CheckUrl(url: string, net: Probe): (r: CheckOutcome)
    ensures r.result.url == url
    ensures r.result.error.Some? ==> |r.result.error.value| <= 100
    ensures r.requests == [] <==> DomainOf(url).None?
    ensures r.requests == [] || r.requests == [Head] || r.requests == [Head, Get]
  {
    match DomainOf(url)
    case None => CheckOutcome(URLCheckResult(url, false, None, Some("Invalid URL format")), [])
    case Some(domain) =>
      var isTrusted := IsTrusted(domain);
      match net.head
      case Response(status) =>
        if status < 400 then CheckOutcome(URLCheckResult(url, true, Some(status), None), [Head])
        else if status == 405 then
          match net.get
          case Response(status2) =>
            CheckOutcome(URLCheckResult(url, status2 < 400, Some(status2), None), [Head, Get])
          case _ => CheckOutcome(TransportFailure(url, net.get, isTrusted), [Head, Get])
        else CheckOutcome(URLCheckResult(url, false, Some(status), None), [Head])
      case _ => CheckOutcome(TransportFailure(url, net.head, isTrusted), [Head])
  }

  /** The outcome the check is decided on: the GET's after a 405 from HEAD, otherwise the HEAD's. */
  function FinalOutcome(net: Probe): ProbeOutcome {
    if net.head == Response(405) then net.get else net.head
  }

  /** A URL without "//" is rejected as malformed before any request is issued, and only such a URL is. */
  lemma MalformedUrl(url: string, net: Probe)
    ensures (forall j :: !OccursAt(url, "//", j)) <==>
      CheckUrl(url, net) == CheckOutcome(URLCheckResult(url, false, None, Some("Invalid URL format")), [])
  {
    SplitPieces(url, "//");
    if Find(url, "//").Some? {
      assert OccursAt(url, "//", Find(url, "//").value);
    }
  }

  /**
   * The status rule: below 400 from HEAD is valid with one request; 405
   * brings exactly one GET whose status decides; any other status is invalid
   * and recorded.
   */
  lemma StatusRule(url: string, net: Probe)
    requires DomainOf(url).Some? && net.head.Response?
    ensures var r := CheckUrl(url, net);
      var s := net.head.status;
      (s < 400 ==> r.result.isValid && r.result.statusCode == Some(s) && r.requests == [Head]) &&
      (s == 405 ==> r.requests == [Head, Get]) &&
      (s == 405 && net.get.Response? ==>
        (r.result.isValid <==> net.get.status < 400) && r.result.statusCode == Some(net.get.status)) &&
      (s >= 400 && s != 405 ==> !r.result.isValid && r.result.statusCode == Some(s) && r.requests == [Head])
  {
  }

  /**
   * A check succeeds exactly when the URL has a domain and the deciding
   * outcome is a status below 400, or a timeout on a trusted domain.
   */
  lemma ValidIff(url: string, net: Probe)
    ensures CheckUrl(url, net).result.isValid <==>
      DomainOf(url).Some? &&
      ((FinalOutcome(net).Response? && FinalOutcome(net).status < 400) ||
       (FinalOutcome(net) == Timeout && IsTrusted(DomainOf(url).value)))
  {
  }

  /** Timeouts: valid with "Timeout (trusted domain)" iff trusted, else invalid with "Timeout". */
  lemma TimeoutRule(url: string, net: Probe)
    requires DomainOf(url).Some? && FinalOutcome(net) == Timeout
    ensures var r := CheckUrl(url, net).result;
      (r.isValid <==> IsTrusted(DomainOf(url).value)) &&
      r.error == Some(if IsTrusted(DomainOf(url).value) then "Timeout (trusted domain)" else "Timeout") &&
      r.statusCode == None
  {
  }

  /** Connection and redirect failures give fixed messages; every other failure is invalid with its message cut to 100 characters. */
  lemma FailureRule(url: string, net: Probe)
    requires DomainOf(url).Some?
    ensures var r := CheckUrl(url, net).result;
      (FinalOutcome(net) == ConnectFailure ==> !r.isValid && r.error == Some("Connection failed")) &&
      (FinalOutcome(net) == TooManyRedirects ==> !r.isValid && r.error == Some("Too many redirects")) &&
      (FinalOutcome(net).OtherError? ==> !r.isValid && r.error == Some(Truncate100(FinalOutcome(net).message)))
  {
  }

  /** The domain of `scheme//host/path` is the host when the scheme and host contain no `/`. */
  lemma DomainOfUrl(scheme: string, host: string, path: string)
    requires '/' !in scheme && '/' !in host && (path == [] || path[0] == '/')
    ensures DomainOf(scheme + "//" + host + path) == Some(host)
  {
    var url := scheme + "//" + host + path;
    var r := host + path;
    assert url == scheme + ("//" + r);
    FindAfterScheme(scheme, r);
    SplitPieces(url, "//");
    assert url[|scheme| + 2..] == r;
    HostPiece(host, path);
    FirstSlashPiece(Split(r, "//")[0], host);
  }

  /** Neither "/" nor "//" starts at a character other than `/`. */
  lemma NoSlashStart(s: string, j: nat)
    requires j < |s| && s[j] != '/'
    ensures !OccursAt(s, "/", j) && !OccursAt(s, "//", j)
  {
    assert s[j..j + 1][0] == s[j];
    if j + 2 <= |s| {
      assert s[j..j + 2][0] == s[j];
    }
  }

  /** The first "//" of `scheme//r` is the one after the scheme, when the scheme has no `/`. */
  lemma FindAfterScheme(scheme: string, r: string)
    requires '/' !in scheme
    ensures Find(scheme + ("//" + r), "//") == Some(|scheme|)
  {
    var url := scheme + ("//" + r);
    var n := |scheme|;
    assert url[n..n + 2] == "//";
    forall j | 0 <= j < n ensures !OccursAt(url, "//", j) {
      assert url[j] == scheme[j];
      assert scheme[j] in scheme;
      NoSlashStart(url, j);
    }
    FindFirst(url, "//", n);
  }

  /** Cutting `host + path` at its first "//" keeps `host`, followed by nothing or by `/`. */
  lemma HostPiece(host: string, path: string)
    requires '/' !in host && (path == [] || path[0] == '/')
    ensures var piece := Split(host + path, "//")[0];
      |host| <= |piece| && piece[..|host|] == host && (piece == host || piece[|host|] == '/')
  {
    var r := host + path;
    SplitHead(r, "//");
    var piece := Split(r, "//")[0];
    forall k | 0 <= k < |host| ensures !OccursAt(r, "//", k) {
      assert r[k] == host[k];
      assert host[k] in host;
      NoSlashStart(r, k);
    }
    assert |host| <= |piece|;
    assert piece[..|host|] == r[..|host|] == host;
    if piece != host {
      assert piece[|host|] == r[|host|] == path[0];
    }
  }

  /** A piece that is `host`, or `host` followed by `/...`, keeps `host` before its first `/`. */
  lemma FirstSlashPiece(piece: string, host: string)
    requires '/' !in host && |host| <= |piece| && piece[..|host|] == host
    requires piece == host || piece[|host|] == '/'
    ensures Split(piece, "/")[0] == host
  {
    SplitHead(piece, "/");
    var h := Split(piece, "/")[0];
    forall j | 0 <= j < |host| ensures !OccursAt(piece, "/", j) {
      assert piece[j] == piece[..|host|][j] == host[j];
      assert host[j] in host;
      NoSlashStart(piece, j);
    }
    assert |host| <= |h|;
    if piece != host {
      assert piece[|host|..|host| + 1] == "/";
      assert OccursAt(piece, "/", |host|);
    }
    assert h == piece[..|host|];
  }

  /** On a timeout, `scheme//host/path` is valid exactly when its host is trusted. */
  lemma TimeoutOnHost(scheme: string, host: string, path: string, net: Probe)
    requires '/' !in scheme && '/' !in host && (path == [] || path[0] == '/')
    requires FinalOutcome(net) == Timeout
    ensures CheckUrl(scheme + "//" + host + path, net).result.isValid <==> IsTrusted(host)
  {
    DomainOfUrl(scheme, host, path);
  }

  /** docs.python.org and www.github.com are trusted; definitely-fake-xyz.com is not. */
  lemma TrustedExamples()
    ensures IsTrusted("docs.python.org")
    ensures IsTrusted("www.github.com")
    ensures !IsTrusted("definitely-fake-xyz.com")
  {
    assert "www.github.com"[4..] == "github.com";
  }

  // ---------------------------------------------------------------------------
  // validate_urls

  /** The results a sequential check of `urls` gives, one per URL, `net(i)` answering for the i-th. */
  function CheckAll(urls: seq<string>, net: nat -> Probe): (r: seq<URLCheckResult>)
    ensures |r| == |urls|
    ensures forall i :: 0 <= i < |urls| ==> r[i] == CheckUrl(urls[i], net(i)).result
  {
    seq(|urls|, i requires 0 <= i < |urls| => CheckUrl(urls[i], net(i)).result)
  }

  /** `validate_urls`, run one URL after another: one result per URL, in order, each for its own URL. */
  method ValidateUrls(urls: seq<string>, net: nat -> Probe) returns (results: seq<URLCheckResult>)
    ensures |results| == |urls|
    ensures forall i :: 0 <= i < |urls| ==> results[i].url == urls[i]
    ensures forall i :: 0 <= i < |urls| ==> results[i] == CheckUrl(urls[i], net(i)).result
  {
    if urls == [] {
      return [];
    }
    results := [];
    var i := 0;
    while i < |urls|
      invariant i <= |urls| && |results| == i
      invariant forall k :: 0 <= k < i ==> results[k] == CheckUrl(urls[k], net(k)).result
    {
      var outcome := CheckUrl(urls[i], net(i));
      results := results + [outcome.result];
      i := i + 1;
    }
  }

  // ---------------------------------------------------------------------------
  // filter_valid_urls_in_markdown

  /** What a match is replaced by: itself when its URL is valid, else its linkText struck through. */
  function Replacement(m: Match, validUrls: set<string>): string {
    if m.url in validUrls then MarkdownLink(m.linkText, m.url)
    else "~~" + m.linkText + "~~ (link unavailable)"
  }

  /** `re.sub` of the link pattern with the replacement above. */
  function FilterValidUrlsInMarkdown(text: string, validUrls: set<string>): string
    decreases |text|
  {
    if text == [] then []
    else match MatchPrefix(text)
      case Some(m) => Replacement(m, validUrls) + FilterValidUrlsInMarkdown(text[m.length..], validUrls)
      case None => [text[0]] + FilterValidUrlsInMarkdown(text[1..], validUrls)
  }

  /** One step of the rewrite. */
  lemma FilterStep(t: string, validUrls: set<string>)
    requires t != []
    ensures MatchPrefix(t).Some? ==>
      FilterValidUrlsInMarkdown(t, validUrls) ==
      Replacement(MatchPrefix(t).value, validUrls) + FilterValidUrlsInMarkdown(t[MatchPrefix(t).value.length..], validUrls)
    ensures MatchPrefix(t).None? ==> FilterValidUrlsInMarkdown(t, validUrls) == [t[0]] + FilterValidUrlsInMarkdown(t[1..], validUrls)
  {
  }

  /** Every match in `ms` has a URL in `validUrls`. */
  predicate AllValid(ms: seq<Match>, validUrls: set<string>) {
    forall i :: 0 <= i < |ms| ==> ms[i].url in validUrls
  }

  lemma AllValidCons(m: Match, ms: seq<Match>, validUrls: set<string>)
    requires AllValid([m] + ms, validUrls)
    ensures m.url in validUrls && AllValid(ms, validUrls)
  {
    assert ([m] + ms)[0] == m;
    forall i | 0 <= i < |ms| ensures ms[i].url in validUrls {
      assert ([m] + ms)[i + 1] == ms[i];
    }
  }

  /** When every matched URL is valid, the rewrite returns its input. */
  lemma {:induction false} FilterAllValid(text: string, validUrls: set<string>)
    requires AllValid(Matches(text), validUrls)
    ensures FilterValidUrlsInMarkdown(text, validUrls) == text
    decreases |text|
  {
    if text != [] {
      MatchesStep(text);
      FilterStep(text, validUrls);
      var found := MatchPrefix(text);
      if found.Some? {
        var m := found.value;
        var rest := text[m.length..];
        AllValidCons(m, Matches(rest), validUrls);
        FilterAllValid(rest, validUrls);
        KeptLink(text, validUrls);
      } else {
        FilterAllValid(text[1..], validUrls);
        assert text == [text[0]] + text[1..];
      }
    }
  }

  /** A match whose URL is valid is replaced by the very text it matched. */
  lemma KeptLink(text: string, validUrls: set<string>)
    requires MatchPrefix(text).Some? && MatchPrefix(text).value.url in validUrls
    ensures Replacement(MatchPrefix(text).value, validUrls) + text[MatchPrefix(text).value.length..] == text
  {
    var m := MatchPrefix(text).value;
    MatchPrefixSound(text);
    assert text == text[..m.length] + text[m.length..];
  }

  /** Text without `[` passes through the rewrite unchanged. */
  lemma {:induction false} FilterSkipPlain(p: string, rest: string, validUrls: set<string>)
    requires Plain(p)
    ensures FilterValidUrlsInMarkdown(p + rest, validUrls) == p + FilterValidUrlsInMarkdown(rest, validUrls)
    decreases |p|
  {
    if p != [] {
      var t := p + rest;
      assert t[0] == p[0];
      NoMatchAt(t);
      FilterStep(t, validUrls);
      SliceAppend(p, rest, 1);
      PlainTail(p);
      FilterSkipPlain(p[1..], rest, validUrls);
      var f := FilterValidUrlsInMarkdown(rest, validUrls);
      assert FilterValidUrlsInMarkdown(t, validUrls) == [p[0]] + (p[1..] + f);
      SeqConsAssoc(p, f);
    } else {
      assert p + rest == rest;
    }
  }

  /** Text in which no link starts passes through the rewrite unchanged. */
  lemma {:induction false} FilterLinkFree(text: string, validUrls: set<string>)
    requires LinkFree(text)
    ensures FilterValidUrlsInMarkdown(text, validUrls) == text
    decreases |text|
  {
    if text != [] {
      LinkFreeStep(text);
      FilterStep(text, validUrls);
      FilterLinkFree(text[1..], validUrls);
      assert [text[0]] + text[1..] == text;
    }
  }

  lemma SeqConsAssoc(p: string, f: string)
    requires p != []
    ensures [p[0]] + (p[1..] + f) == p + f
  {
    assert [p[0]] + p[1..] == p;
  }

  /** A link is kept verbatim iff its URL is valid; otherwise it becomes `~~linkText~~ (link unavailable)`. */
  lemma FilterLink(linkText: string, url: string, rest: string, validUrls: set<string>)
    requires IsLabel(linkText) && IsTarget(url)
    ensures FilterValidUrlsInMarkdown(MarkdownLink(linkText, url) + rest, validUrls) ==
      (if url in validUrls then MarkdownLink(linkText, url) else "~~" + linkText + "~~ (link unavailable)") +
      FilterValidUrlsInMarkdown(rest, validUrls)
  {
    MatchPrefixOfLink(linkText, url, rest);
    assert (MarkdownLink(linkText, url) + rest)[|MarkdownLink(linkText, url)|..] == rest;
  }

  // ---------------------------------------------------------------------------
  // validate_and_filter_references

  /** `{r.url for r in results if r.is_valid}` */
  function ValidUrls(results: seq<URLCheckResult>): set<string> {
    set r | r in results && r.isValid :: r.url
  }

  /** There are at most as many distinct valid URLs as results. */
  lemma {:induction false} ValidUrlsBound(results: seq<URLCheckResult>)
    ensures |ValidUrls(results)| <= |results|
    decreases |results|
  {
    if results != [] {
      var head := if results[0].isValid then {results[0].url} else {};
      assert ValidUrls(results) == head + ValidUrls(results[1..]) by {
        assert results == [results[0]] + results[1..];
      }
      ValidUrlsBound(results[1..]);
    } else {
      assert ValidUrls(results) == {};
    }
  }

  /** Every validated-URL set built from extracted URLs holds only URLs starting with "http". */
  lemma ValidUrlsAreHttp(text: string, net: nat -> Probe)
    ensures forall u :: u in ValidUrls(CheckAll(ExtractedUrls(text), net)) ==> StartsWith(u, "http") && u in ExtractedUrls(text)
  {
    var urls := ExtractedUrls(text);
    var results := CheckAll(urls, net);
    HttpUrlsMembers(Matches(text));
    forall u | u in ValidUrls(results) ensures StartsWith(u, "http") && u in urls {
      var r :| r in results && r.isValid && r.url == u;
      var i :| 0 <= i < |results| && results[i] == r;
      assert results[i].url == urls[i];
    }
  }

  /**
   * As written, a link whose URL does not start with "http" is never
   * validated, so whenever the rewrite runs it is struck through.
   */
  lemma NonHttpLinkStruck(text: string, net: nat -> Probe, linkText: string, url: string, rest: string)
    requires IsLabel(linkText) && IsTarget(url) && !StartsWith(url, "http")
    ensures FilterValidUrlsInMarkdown(MarkdownLink(linkText, url) + rest, ValidUrls(CheckAll(ExtractedUrls(text), net))) ==
      "~~" + linkText + "~~ (link unavailable)" + FilterValidUrlsInMarkdown(rest, ValidUrls(CheckAll(ExtractedUrls(text), net)))
  {
    ValidUrlsAreHttp(text, net);
    FilterLink(linkText, url, rest, ValidUrls(CheckAll(ExtractedUrls(text), net)));
  }

  /**
   * `validate_and_filter_references`: with no http link the text comes back
   * with (0, 0); otherwise `totalLinks` counts the extracted occurrences,
   * `validLinks` the distinct valid URLs, and the text is rewritten.
   */
  method ValidateAndFilterReferences(markdownText: string, net: nat -> Probe)
    returns (filteredText: string, totalLinks: nat, validLinks: nat)
    ensures ExtractedUrls(markdownText) == [] ==> filteredText == markdownText && totalLinks == 0 && validLinks == 0
    ensures ExtractedUrls(markdownText) != [] ==>
      filteredText == FilterValidUrlsInMarkdown(markdownText, ValidUrls(CheckAll(ExtractedUrls(markdownText), net)))
    ensures totalLinks == |ExtractedUrls(markdownText)|
    ensures validLinks == |ValidUrls(CheckAll(ExtractedUrls(markdownText), net))|
    ensures validLinks <= totalLinks
  {
    var urls := ExtractUrlsFromMarkdown(markdownText);
    if urls == [] {
      return markdownText, 0, 0;
    }
    var results := ValidateUrls(urls, net);
    assert results == CheckAll(urls, net);
    var validUrls := ValidUrls(results);
    totalLinks := |urls|;
    validLinks := |validUrls|;
    ValidUrlsBound(results);
    filteredText := FilterValidUrlsInMarkdown(markdownText, validUrls);
  }
}
