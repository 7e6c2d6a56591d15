/**
 * One sitemap check (src/lib.rs): fetch a sitemap, pull the page URLs out of
 * its `loc` elements, probe every page that is not ignored, and summarise the
 * outcome in a SiteCheckResult.
 *
 * Everything the check asks of the outside world (the sitemap fetch, decoding
 * its body, parsing the XML, probing a page) is an input, bundled in an
 * Environment.
 */
module SiteCheck {
  import opened Wrappers

  /** Whether a sitemap was retrieved and parsed. */
  datatype SiteCheckStatus = Success | UnreachableSitemap | InvalidSitemap

  /** The record posted to the webhooks; counts are `usize` in the source. */
  datatype SiteCheckResult = SiteCheckResult(
    status: SiteCheckStatus,
    sitemapUrl: string,
    pageTotal: Option<nat>,
    unreachableTotal: Option<nat>,
    unreachablePages: Option<string>)

  /** The first child of an XML node, reduced to what the XML library's `text()` yields for it. */
  datatype ChildNode = ChildNode(text: Option<string>)

  /** A node of the parsed document: its local tag name (no namespace prefix) and its first child, if any. */
  datatype XmlNode = XmlNode(localName: string, firstChild: Option<ChildNode>)

  /** Reply to the sitemap GET: a transport error, or a response whose body decodes to text or not. */
  datatype SitemapResponse = FetchError | Fetched(body: Option<string>)

  /** Outcome of parsing the body: an error, or the document's nodes in descendant (document) order. */
  datatype ParsedDocument = ParseError | Document(descendants: seq<XmlNode>)

  /** Reply to a page GET: a transport error, or an HTTP status code. */
  datatype ProbeResponse = ProbeError | Status(code: nat)

  /** The outside world as seen by one check. */
  datatype Environment = Environment(
    fetch: string -> SitemapResponse,
    parse: string -> ParsedDocument,
    probe: string -> ProbeResponse)

  /**
   * How a check task ends: it returns a result, or it panics (the `unwrap` of
   * a `loc` element's text), which the task's join reports as an error.
   */
  datatype TaskOutcome = Completed(result: SiteCheckResult) | Panicked

  /** HTTP 200, the only status that makes a page reachable. */
  const StatusOk: nat := 200

  /** What separates the unreachable pages in `unreachable_pages`. */
  const Separator: string := ", "

  // ---------------------------------------------------------------------------
  // URL extraction
  // ---------------------------------------------------------------------------

  /** A node the extraction keeps: local name `loc` and at least one child. */
  predicate IsLocEntry(n: XmlNode) {
    n.localName == "loc" && n.firstChild.Some?
  }

  /** A kept node whose first child has no text: unwrapping it panics. */
  predicate LacksText(n: XmlNode) {
    IsLocEntry(n) && n.firstChild.value.text.None?
  }

  /**
   * The URLs of a document's nodes, in order: the first child's text of every
   * `loc` entry. None when some `loc` entry's first child has no text (the
   * extraction panics).
   */
  function ExtractUrls(nodes: seq<XmlNode>): (urls: Option<seq<string>>)
    ensures urls.None? <==> exists i :: 0 <= i < |nodes| && LacksText(nodes[i])
    ensures urls.Some? ==> |urls.value| <= |nodes|
  {
    if nodes == [] then Some([])
    else
      var rest := ExtractUrls(nodes[1..]);
      assert forall i :: 1 <= i < |nodes| ==> nodes[i] == nodes[1..][i - 1];
      if !IsLocEntry(nodes[0]) then rest
      else match nodes[0].firstChild.value.text
        case None => None
        case Some(url) => if rest.Some? then Some([url] + rest.value) else None
  }

  /** Extraction works node by node: the URLs of a + b are those of a followed by those of b. */
  lemma {:induction false} ExtractUrlsAppend(a: seq<XmlNode>, b: seq<XmlNode>)
    ensures ExtractUrls(a + b) ==
      if ExtractUrls(a).Some? && ExtractUrls(b).Some?
      then Some(ExtractUrls(a).value + ExtractUrls(b).value)
      else None
  {
    if a == [] {
      assert a + b == b;
      if ExtractUrls(b).Some? {
        assert [] + ExtractUrls(b).value == ExtractUrls(b).value;
      }
    } else {
      assert (a + b)[0] == a[0];
      assert (a + b)[1..] == a[1..] + b;
      ExtractUrlsAppend(a[1..], b);
      if IsLocEntry(a[0]) && a[0].firstChild.value.text.Some? {
        var url := a[0].firstChild.value.text.value;
        var restA, restB := ExtractUrls(a[1..]), ExtractUrls(b);
        if restA.Some? && restB.Some? {
          assert [url] + (restA.value + restB.value) == ([url] + restA.value) + restB.value;
        }
      }
    }
  }

  /** What a single node contributes: its text if it is a `loc` entry, nothing otherwise. */
  lemma ExtractUrlsSingle(n: XmlNode)
    ensures ExtractUrls([n]) ==
      if !IsLocEntry(n) then Some([])
      else if n.firstChild.value.text.None? then None
      else Some([n.firstChild.value.text.value])
  {
    assert [n][1..] == [];
    if IsLocEntry(n) && n.firstChild.value.text.Some? {
      assert [n.firstChild.value.text.value] + [] == [n.firstChild.value.text.value];
    }
  }

  /**
   * Every extracted URL is the text of some `loc` entry, and the text of every
   * `loc` entry is extracted.
   */
  lemma {:induction false} ExtractUrlsMembership(nodes: seq<XmlNode>, url: string)
    requires ExtractUrls(nodes).Some?
    ensures url in ExtractUrls(nodes).value <==>
      exists i :: 0 <= i < |nodes| && IsLocEntry(nodes[i]) && nodes[i].firstChild.value.text == Some(url)
  {
    if nodes != [] {
      assert forall i :: 1 <= i < |nodes| ==> nodes[i] == nodes[1..][i - 1];
      ExtractUrlsMembership(nodes[1..], url);
      if exists i :: 1 <= i < |nodes| && IsLocEntry(nodes[i]) && nodes[i].firstChild.value.text == Some(url) {
        var i :| 1 <= i < |nodes| && IsLocEntry(nodes[i]) && nodes[i].firstChild.value.text == Some(url);
        assert IsLocEntry(nodes[1..][i - 1]);
      }
    }
  }

  // ---------------------------------------------------------------------------
  // Probing
  // ---------------------------------------------------------------------------

  /** Exact-match membership in the optional ignore list. */
  predicate IsIgnored(ignore: Option<seq<string>>, url: string) {
    ignore.Some? && url in ignore.value
  }

  /** A page is reachable iff its probe got a response with status exactly 200. */
  predicate IsReachable(response: ProbeResponse) {
    response.Status? && response.code == StatusOk
  }

  /** ys with some of its elements left out, the rest kept in order. */
  predicate IsSubsequence<T(==)>(xs: seq<T>, ys: seq<T>)
    decreases |ys|
  {
    if xs == [] then true
    else if ys == [] then false
    else (xs[0] == ys[0] && IsSubsequence(xs[1..], ys[1..])) || IsSubsequence(xs, ys[1..])
  }

  lemma {:induction false} SubsequenceLength<T>(xs: seq<T>, ys: seq<T>)
    requires IsSubsequence(xs, ys)
    ensures |xs| <= |ys|
  {
    if xs != [] {
      if xs[0] == ys[0] && IsSubsequence(xs[1..], ys[1..]) {
        SubsequenceLength(xs[1..], ys[1..]);
      } else {
        SubsequenceLength(xs, ys[1..]);
      }
    }
  }

  /** The URLs the check probes, in order: those not on the ignore list. */
  function ProbedUrls(urls: seq<string>, ignore: Option<seq<string>>): (probed: seq<string>)
    ensures IsSubsequence(probed, urls)
  {
    if urls == [] then []
    else
      var rest := ProbedUrls(urls[1..], ignore);
      if IsIgnored(ignore, urls[0]) then rest else [urls[0]] + rest
  }

  /** A URL is probed iff it was extracted and is not on the ignore list. */
  lemma {:induction false} ProbedUrlsMembership(urls: seq<string>, ignore: Option<seq<string>>, url: string)
    ensures url in ProbedUrls(urls, ignore) <==> url in urls && !IsIgnored(ignore, url)
  {
    if urls != [] {
      assert url in urls <==> url == urls[0] || url in urls[1..];
      ProbedUrlsMembership(urls[1..], ignore, url);
    }
  }

  /** The pages found unreachable, in extraction order. */
  function UnreachablePages(urls: seq<string>, ignore: Option<seq<string>>, probe: string -> ProbeResponse)
    : (pages: seq<string>)
    ensures IsSubsequence(pages, urls)
    ensures |pages| <= |urls|
  {
    if urls == [] then []
    else
      var rest := UnreachablePages(urls[1..], ignore, probe);
      var pages := if IsIgnored(ignore, urls[0]) || IsReachable(probe(urls[0])) then rest else [urls[0]] + rest;
      SubsequenceLength(pages, urls);
      pages
  }

  lemma {:induction false} ProbedUrlsAppend(a: seq<string>, b: seq<string>, ignore: Option<seq<string>>)
    ensures ProbedUrls(a + b, ignore) == ProbedUrls(a, ignore) + ProbedUrls(b, ignore)
  {
    if a == [] {
      assert a + b == b;
    } else {
      assert (a + b)[1..] == a[1..] + b;
      ProbedUrlsAppend(a[1..], b, ignore);
    }
  }

  lemma {:induction false} UnreachablePagesAppend(
    a: seq<string>, b: seq<string>, ignore: Option<seq<string>>, probe: string -> ProbeResponse)
    ensures UnreachablePages(a + b, ignore, probe) == UnreachablePages(a, ignore, probe) + UnreachablePages(b, ignore, probe)
  {
    if a == [] {
      assert a + b == b;
    } else {
      assert (a + b)[1..] == a[1..] + b;
      UnreachablePagesAppend(a[1..], b, ignore, probe);
    }
  }

  /**
   * A URL is listed as unreachable iff it was extracted, is not ignored, and
   * its probe failed in transport or answered with a status other than 200.
   */
  lemma {:induction false} UnreachablePagesMembership(
    urls: seq<string>, ignore: Option<seq<string>>, probe: string -> ProbeResponse, url: string)
    ensures url in UnreachablePages(urls, ignore, probe) <==>
      url in urls && !IsIgnored(ignore, url) && (probe(url).ProbeError? || probe(url).code != StatusOk)
  {
    if urls != [] {
      assert url in urls <==> url == urls[0] || url in urls[1..];
      UnreachablePagesMembership(urls[1..], ignore, probe, url);
    }
  }

  /** Only probed URLs can be unreachable: the unreachable list keeps the probe order. */
  lemma {:induction false} UnreachableAreProbed(urls: seq<string>, ignore: Option<seq<string>>, probe: string -> ProbeResponse)
    ensures IsSubsequence(UnreachablePages(urls, ignore, probe), ProbedUrls(urls, ignore))
  {
    if urls != [] {
      UnreachableAreProbed(urls[1..], ignore, probe);
      var rest := UnreachablePages(urls[1..], ignore, probe);
      var probed := ProbedUrls(urls[1..], ignore);
      if !IsIgnored(ignore, urls[0]) && rest != [] {
        // the current URL was probed; whether or not it was listed, the rest is a subsequence of the rest
        assert ProbedUrls(urls, ignore) == [urls[0]] + probed;
        assert ([urls[0]] + probed)[1..] == probed;
        if !IsReachable(probe(urls[0])) {
          assert ([urls[0]] + rest)[1..] == rest;
        }
      }
    }
  }

  // ---------------------------------------------------------------------------
  // Joining
  // ---------------------------------------------------------------------------

  /** Rust's `join`: the parts separated by sep; "" for no parts. */
  function Join(parts: seq<string>, sep: string): (s: string)
    ensures |parts| > 0 ==> parts[0] <= s
    ensures |parts| > 0 ==> |parts[|parts| - 1]| <= |s| && s[|s| - |parts[|parts| - 1]|..] == parts[|parts| - 1]
  {
    if |parts| == 0 then ""
    else if |parts| == 1 then parts[0]
    else
      var rest := Join(parts[1..], sep);
      assert parts[1..][|parts[1..]| - 1] == parts[|parts| - 1];
      var s := parts[0] + sep + rest;
      assert s[|s| - |rest|..] == rest;
      s
  }

  /** Joining a + b puts one separator between the joins of its non-empty halves. */
  lemma {:induction false} JoinAppend(a: seq<string>, b: seq<string>, sep: string)
    requires a != [] && b != []
    ensures Join(a + b, sep) == Join(a, sep) + sep + Join(b, sep)
  {
    if |a| == 1 {
      assert (a + b)[1..] == b;
    } else {
      assert (a + b)[1..] == a[1..] + b;
      JoinAppend(a[1..], b, sep);
    }
  }

  /** The length of a join: every part plus one separator between neighbours. */
  function TotalLength(parts: seq<string>): nat {
    if parts == [] then 0 else |parts[0]| + TotalLength(parts[1..])
  }

  lemma {:induction false} JoinLength(parts: seq<string>, sep: string)
    requires parts != []
    ensures |Join(parts, sep)| == TotalLength(parts) + |sep| * (|parts| - 1)
  {
    if |parts| > 1 {
      JoinLength(parts[1..], sep);
    }
  }

  // ---------------------------------------------------------------------------
  // The check
  // ---------------------------------------------------------------------------

  /** How far a check gets before probing. */
  datatype Extraction = Unfetchable | Undecodable | Unparseable | MissingText | Extracted(urls: seq<string>)

  /** Fetch, decode, parse and extract, stopping at the first step that fails. */
  function Extract(sitemapUrl: string, env: Environment): Extraction {
    match env.fetch(sitemapUrl)
    case FetchError => Unfetchable
    case Fetched(body) =>
      if body.None? then Undecodable
      else match env.parse(body.value)
        case ParseError => Unparseable
        case Document(nodes) =>
          var urls := ExtractUrls(nodes);
          if urls.None? then MissingText else Extracted(urls.value)
  }

  /** The record of a check that stopped before probing: only the status and the sitemap URL. */
  function Unchecked(status: SiteCheckStatus, sitemapUrl: string): (r: SiteCheckResult) {
    SiteCheckResult(status, sitemapUrl, None, None, None)
  }

  /** The record of a completed check over all the extracted URLs. */
  function Summary(sitemapUrl: string, urls: seq<string>, unreachable: seq<string>): (r: SiteCheckResult) {
    SiteCheckResult(
      Success, sitemapUrl, Some(|urls|), Some(|unreachable|),
      if unreachable == [] then None else Some(Join(unreachable, Separator)))
  }

  /**
   * The invariant of every returned record: optional fields are absent
   * together unless the status is Success; on Success there are at most as
   * many unreachable pages as pages, and the page list is present iff some
   * page is unreachable.
   */
  predicate WellFormed(r: SiteCheckResult) {
    if r.status == Success then
      && r.pageTotal.Some? && r.unreachableTotal.Some?
      && r.unreachableTotal.value <= r.pageTotal.value
      && (r.unreachablePages.Some? <==> r.unreachableTotal.value > 0)
    else
      r.pageTotal.None? && r.unreachableTotal.None? && r.unreachablePages.None?
  }

  /** The outcome of one check task (the specification of HandleSitemap). */
  function CheckSitemap(sitemapUrl: string, ignore: Option<seq<string>>, env: Environment): (outcome: TaskOutcome)
    ensures outcome.Completed? ==> outcome.result.sitemapUrl == sitemapUrl && WellFormed(outcome.result)
    ensures outcome.Completed? && outcome.result.status == UnreachableSitemap <==> env.fetch(sitemapUrl).FetchError?
    ensures outcome.Completed? && outcome.result.status == InvalidSitemap <==>
      env.fetch(sitemapUrl).Fetched? &&
      (env.fetch(sitemapUrl).body.None? || env.parse(env.fetch(sitemapUrl).body.value).ParseError?)
    ensures outcome.Panicked? <==> Extract(sitemapUrl, env).MissingText?
  {
    match Extract(sitemapUrl, env)
    case Unfetchable => Completed(Unchecked(UnreachableSitemap, sitemapUrl))
    case Undecodable => Completed(Unchecked(InvalidSitemap, sitemapUrl))
    case Unparseable => Completed(Unchecked(InvalidSitemap, sitemapUrl))
    case MissingText => Panicked
    case Extracted(urls) => Completed(Summary(sitemapUrl, urls, UnreachablePages(urls, ignore, env.probe)))
  }

  /** The pages a check probes, in order; none when it stops before probing. */
  function ProbeLog(sitemapUrl: string, ignore: Option<seq<string>>, env: Environment): seq<string> {
    match Extract(sitemapUrl, env)
    case Extracted(urls) => ProbedUrls(urls, ignore)
    case _ => []
  }

  /**
   * The `descendants().filter(..).for_each(..)` step: push the first child's
   * text of every `loc` entry, in order; None stands for the panic of
   * `unwrap` on a first child without text.
   */
  method CollectUrls(nodes: seq<XmlNode>) returns (allUrls: Option<seq<string>>)
    ensures allUrls == ExtractUrls(nodes)
  {
    var urls: seq<string> := [];
    for i := 0 to |nodes|
      invariant ExtractUrls(nodes[..i]) == Some(urls)
    {
      var n := nodes[i];
      ExtractUrlsAppend(nodes[..i], [n]);
      ExtractUrlsSingle(n);
      assert nodes[..i + 1] == nodes[..i] + [n];
      if n.localName == "loc" && n.firstChild.Some? {
        var text := n.firstChild.value.text;
        if text.None? {
          ExtractUrlsAppend(nodes[..i + 1], nodes[i + 1..]);
          assert nodes == nodes[..i + 1] + nodes[i + 1..];
          return None;
        }
        urls := urls + [text.value];
      } else {
        assert urls + [] == urls;
      }
    }
    assert nodes[..|nodes|] == nodes;
    return Some(urls);
  }

  /**
   * The probing loop: skip ignored URLs, probe the others one at a time in
   * order, and collect those whose probe failed or answered other than 200.
   */
  method ProbePages(allUrls: seq<string>, ignore: Option<seq<string>>, probe: string -> ProbeResponse)
    returns (unreachablePages: seq<string>, probed: seq<string>)
    ensures unreachablePages == UnreachablePages(allUrls, ignore, probe)
    ensures probed == ProbedUrls(allUrls, ignore)
  {
    unreachablePages, probed := [], [];
    for i := 0 to |allUrls|
      invariant unreachablePages == UnreachablePages(allUrls[..i], ignore, probe)
      invariant probed == ProbedUrls(allUrls[..i], ignore)
    {
      var url := allUrls[i];
      UnreachablePagesAppend(allUrls[..i], [url], ignore, probe);
      ProbedUrlsAppend(allUrls[..i], [url], ignore);
      assert [url][1..] == [];
      assert allUrls[..i + 1] == allUrls[..i] + [url];
      if ignore.Some? && url in ignore.value {
        assert unreachablePages + [] == unreachablePages && probed + [] == probed;
        continue;
      }
      probed := probed + [url];
      var res := probe(url);
      if res.ProbeError? {
        unreachablePages := unreachablePages + [url];
        continue;
      }
      if res.code != StatusOk {
        unreachablePages := unreachablePages + [url];
      } else {
        assert unreachablePages + [] == unreachablePages;
      }
    }
    assert allUrls[..|allUrls|] == allUrls;
  }

  /**
   * `handle_sitemap`: the early returns on a failed fetch, decode or parse,
   * then extraction, probing and the final record. It returns the task's
   * outcome and the pages it probed.
   */
  method HandleSitemap(sitemapUrl: string, ignore: Option<seq<string>>, env: Environment)
    returns (outcome: TaskOutcome, probed: seq<string>)
    ensures outcome == CheckSitemap(sitemapUrl, ignore, env)
    ensures probed == ProbeLog(sitemapUrl, ignore, env)
  {
    probed := [];
    var response := env.fetch(sitemapUrl);
    if response.FetchError? {
      return Completed(SiteCheckResult(UnreachableSitemap, sitemapUrl, None, None, None)), probed;
    }
    if response.body.None? {
      return Completed(SiteCheckResult(InvalidSitemap, sitemapUrl, None, None, None)), probed;
    }
    var sitemap := env.parse(response.body.value);
    if sitemap.ParseError? {
      return Completed(SiteCheckResult(InvalidSitemap, sitemapUrl, None, None, None)), probed;
    }
    var allUrls := CollectUrls(sitemap.descendants);
    if allUrls.None? {
      return Panicked, probed;
    }
    var unreachablePages;
    unreachablePages, probed := ProbePages(allUrls.value, ignore, env.probe);
    outcome := Completed(SiteCheckResult(
      Success, sitemapUrl, Some(|allUrls.value|), Some(|unreachablePages|),
      if |unreachablePages| == 0 then None else Some(Join(unreachablePages, Separator))));
  }

  // ---------------------------------------------------------------------------
  // Properties of a check
  // ---------------------------------------------------------------------------

  /**
   * On Success the record counts every extracted URL, ignored ones included,
   * and lists exactly the unreachable ones in extraction order.
   */
  lemma SuccessCounts(sitemapUrl: string, ignore: Option<seq<string>>, env: Environment, urls: seq<string>)
    requires Extract(sitemapUrl, env) == Extracted(urls)
    ensures var r := CheckSitemap(sitemapUrl, ignore, env).result;
      && r.status == Success
      && r.pageTotal == Some(|urls|)
      && r.unreachableTotal == Some(|UnreachablePages(urls, ignore, env.probe)|)
      && (r.unreachablePages.Some? ==> r.unreachablePages.value == Join(UnreachablePages(urls, ignore, env.probe), ", "))
  {
  }

  /**
   * An ignored URL is never probed and never listed as unreachable, yet it is
   * counted in the page total.
   */
  lemma {:induction false} IgnoredUrlNeverProbed(
    sitemapUrl: string, ignore: Option<seq<string>>, env: Environment, url: string)
    requires IsIgnored(ignore, url)
    ensures url !in ProbeLog(sitemapUrl, ignore, env)
    ensures CheckSitemap(sitemapUrl, ignore, env).Completed? ==>
      var r := CheckSitemap(sitemapUrl, ignore, env).result;
      r.unreachablePages.None? || url !in UnreachablePages(Extract(sitemapUrl, env).urls, ignore, env.probe)
  {
    var e := Extract(sitemapUrl, env);
    if e.Extracted? {
      ProbedUrlsMembership(e.urls, ignore, url);
      UnreachablePagesMembership(e.urls, ignore, env.probe, url);
    }
  }

  /** The body of a sitemap listing three pages. */
  const ExampleBody: string := "<urlset><loc>a</loc><loc>b</loc><loc>c</loc></urlset>"

  /** The descendants of `ExampleBody`: the root, `urlset`, and each `loc` followed by its text node. */
  const ExampleNodes: seq<XmlNode> := [
    XmlNode("", Some(ChildNode(None))),
    XmlNode("urlset", Some(ChildNode(Some("a")))),
    XmlNode("loc", Some(ChildNode(Some("a")))), XmlNode("", None),
    XmlNode("loc", Some(ChildNode(Some("b")))), XmlNode("", None),
    XmlNode("loc", Some(ChildNode(Some("c")))), XmlNode("", None)]

  lemma ExampleUrls()
    ensures ExtractUrls(ExampleNodes) == Some(["a", "b", "c"])
  {
    var nodes := ExampleNodes;
    // Extraction unfolds from the last node back to the first.
    assert ExtractUrls(nodes[8..]) == Some([]);
    assert nodes[7..][1..] == nodes[8..];
    assert ExtractUrls(nodes[7..]) == Some([]);
    assert nodes[6..][1..] == nodes[7..];
    assert ["c"] + [] == ["c"];
    assert ExtractUrls(nodes[6..]) == Some(["c"]);
    assert nodes[5..][1..] == nodes[6..];
    assert ExtractUrls(nodes[5..]) == Some(["c"]);
    assert nodes[4..][1..] == nodes[5..];
    assert ["b"] + ["c"] == ["b", "c"];
    assert ExtractUrls(nodes[4..]) == Some(["b", "c"]);
    assert nodes[3..][1..] == nodes[4..];
    assert ExtractUrls(nodes[3..]) == Some(["b", "c"]);
    assert nodes[2..][1..] == nodes[3..];
    assert ["a"] + ["b", "c"] == ["a", "b", "c"];
    assert ExtractUrls(nodes[2..]) == Some(["a", "b", "c"]);
    assert nodes[1..][1..] == nodes[2..];
    assert ExtractUrls(nodes[1..]) == Some(["a", "b", "c"]);
    assert nodes[0..][1..] == nodes[1..];
    assert ExtractUrls(nodes[0..]) == Some(["a", "b", "c"]);
    assert nodes[0..] == nodes;
  }

  lemma ExampleUnreachable(probe: string -> ProbeResponse)
    requires probe("a") == Status(200) && probe("c") == ProbeError
    ensures UnreachablePages(["a", "b", "c"], Some(["b"]), probe) == ["c"]
  {
    var urls := ["a", "b", "c"];
    assert urls[1..] == ["b", "c"] && urls[1..][1..] == ["c"] && urls[1..][1..][1..] == [];
    assert UnreachablePages(["c"], Some(["b"]), probe) == ["c"];
    assert "b" in ["b"];
    assert UnreachablePages(["b", "c"], Some(["b"]), probe) == ["c"];
  }

  /** The example of a three-page sitemap: a answers 200, b is ignored, c fails in transport. */
  lemma {:induction false} ThreePageExample(sitemapUrl: string, env: Environment)
    requires env.fetch(sitemapUrl) == Fetched(Some(ExampleBody))
    requires env.parse(ExampleBody) == Document(ExampleNodes)
    requires env.probe("a") == Status(200) && env.probe("c") == ProbeError
    ensures CheckSitemap(sitemapUrl, Some(["b"]), env) ==
      Completed(SiteCheckResult(Success, sitemapUrl, Some(3), Some(1), Some("c")))
  {
    ExampleUrls();
    ExampleUnreachable(env.probe);
    var urls := ["a", "b", "c"];
    assert Extract(sitemapUrl, env) == Extracted(urls);
    assert |["c"]| == 1 && Join(["c"], Separator) == "c";
    assert Summary(sitemapUrl, urls, ["c"]) == SiteCheckResult(Success, sitemapUrl, Some(3), Some(1), Some("c"));
  }
}
