/** The scraper: URL validation, the rate-limited fetch loop, and the process-wide
    document buffer with its index and summary. HTTP fetching, HTML text extraction,
    the web-page loader and the vector index are oracles passed in as functions. */
module Scraper {
  import opened Common

  // ---------------------------------------------------------------------------
  // URL validation

  predicate IsAsciiLetter(c: char) {
    'a' <= c <= 'z' || 'A' <= c <= 'Z'
  }

  /** The characters `urlsplit` accepts in a scheme (section 3.1 of RFC 3986). */
  predicate IsSchemeChar(c: char) {
    IsAsciiLetter(c) || '0' <= c <= '9' || c == '+' || c == '-' || c == '.'
  }

  /** The characters that end the authority (section 3.2 of RFC 3986). */
  predicate EndsAuthority(c: char) {
    c == '/' || c == '?' || c == '#'
  }

  /** The index, at or after 2, of the first character that ends the authority in `rest`. */
  function AuthorityEnd(rest: string, from: nat): (i: nat)
    requires from <= |rest|
    ensures from <= i <= |rest|
    ensures forall k :: from <= k < i ==> !EndsAuthority(rest[k])
    ensures i < |rest| ==> EndsAuthority(rest[i])
    decreases |rest| - from
  {
    if from == |rest| then from
    else if EndsAuthority(rest[from]) then from
    else AuthorityEnd(rest, from + 1)
  }

  /** `urlsplit`'s split of the scheme: the text before the first ':' when it starts with
      an ASCII letter and holds only scheme characters (lower-cased), and the text after it. */
  function SplitScheme(url: string): (string, string) {
    var i := IndexOf(url, ':');
    if 0 < i < |url| && IsAsciiLetter(url[0]) && (forall k | 0 <= k < i :: IsSchemeChar(url[k]))
    then (Lower(url[..i]), url[i + 1..])
    else ("", url)
  }

  /** `urlsplit`'s network location: what follows a leading "//" up to the end of the authority. */
  function SplitNetloc(rest: string): string {
    if |rest| >= 2 && rest[..2] == "//" then rest[2..AuthorityEnd(rest, 2)] else ""
  }

  /** `urlparse`'s scheme and netloc, or None when it raises (a netloc with one square
      bracket but not the other). */
  function UrlParse(url: string): Option<(string, string)> {
    var (scheme, rest) := SplitScheme(url);
    var netloc := SplitNetloc(rest);
    if ('[' in netloc) != (']' in netloc) then None else Some((scheme, netloc))
  }

  /** `validate_url`: the parsed URL has a non-empty scheme and a non-empty netloc; a
      parse that raises makes it invalid. */
  function ValidateUrl(url: string): (valid: bool)
    ensures valid ==> UrlParse(url).Some? && ':' in url && IsAsciiLetter(url[0])
  {
    match UrlParse(url)
    case None => false
    case Some((scheme, netloc)) => scheme != "" && netloc != ""
  }

  /** `url` begins with a scheme of length `i` followed by "://" and a first authority character. */
  ghost predicate SchemeAndAuthorityAt(url: string, i: int) {
    0 < i && i + 3 < |url| && IsAsciiLetter(url[0]) &&
    (forall k :: 0 <= k < i ==> IsSchemeChar(url[k])) &&
    url[i] == ':' && url[i + 1] == '/' && url[i + 2] == '/' && !EndsAuthority(url[i + 3])
  }

  /** A valid URL has the shape scheme "://" authority; without square brackets, that shape
      is also enough. */
  lemma ValidUrlShape(url: string)
    ensures ValidateUrl(url) ==> exists i :: SchemeAndAuthorityAt(url, i)
    ensures '[' !in url && ']' !in url ==> (ValidateUrl(url) <==> exists i :: SchemeAndAuthorityAt(url, i))
  {
    if ValidateUrl(url) {
      ValidUrlHasShape(url);
    }
    if j :| SchemeAndAuthorityAt(url, j) {
      if '[' !in url && ']' !in url {
        ShapeMakesValid(url, j);
      }
    }
  }

  lemma ValidUrlHasShape(url: string)
    requires ValidateUrl(url)
    ensures SchemeAndAuthorityAt(url, IndexOf(url, ':'))
  {
    var i := IndexOf(url, ':');
    var rest := url[i + 1..];
    assert SplitScheme(url) == (Lower(url[..i]), rest);
    assert rest[..2] == "//";
    assert url[i + 1] == rest[0] && url[i + 2] == rest[1] && url[i + 3] == rest[2];
  }

  lemma ShapeMakesValid(url: string, j: int)
    requires SchemeAndAuthorityAt(url, j)
    requires '[' !in url && ']' !in url
    ensures ValidateUrl(url)
  {
    ShapeSplitsScheme(url, j);
    var rest := url[j + 1..];
    assert rest[..2] == "//";
    assert rest[2] == url[j + 3];
    var netloc := SplitNetloc(rest);
    assert netloc != "";
    assert forall k :: 0 <= k < |netloc| ==> netloc[k] == url[j + 3 + k];
    assert '[' !in netloc && ']' !in netloc;
  }

  lemma ShapeSplitsScheme(url: string, j: int)
    requires SchemeAndAuthorityAt(url, j)
    ensures SplitScheme(url) == (Lower(url[..j]), url[j + 1..])
  {
    assert ':' !in url[..j] by {
      forall k | 0 <= k < j ensures url[k] != ':' {
        assert IsSchemeChar(url[k]);
      }
    }
    assert IndexOf(url, ':') == j;
  }

  /** An "https://" URL with a host and no square brackets is valid. */
  lemma HttpsUrlValid(url: string)
    requires |url| > 8 && url[..8] == "https://" && !EndsAuthority(url[8])
    requires '[' !in url && ']' !in url
    ensures ValidateUrl(url)
  {
    assert forall k :: 0 <= k < 8 ==> url[k] == "https://"[k];
    assert SchemeAndAuthorityAt(url, 5);
    ValidUrlShape(url);
  }

  /** Without a ':' there is no scheme, so the URL is invalid. */
  lemma NoColonInvalid(url: string)
    requires ':' !in url
    ensures !ValidateUrl(url)
  {
    ValidUrlShape(url);
  }

  /** The valid case of the project's URL test. */
  lemma ExampleUrlValid()
    ensures ValidateUrl("https://example.com")
  {
    HttpsUrlValid("https://example.com");
  }

  /** The invalid case of the project's URL test. */
  lemma NotAUrlInvalid()
    ensures !ValidateUrl("not_a_url")
  {
    NoColonInvalid("not_a_url");
  }

  /** The URLs of the project's rate-limit test are valid. */
  lemma FirstTestUrlValid()
    ensures ValidateUrl("https://example.com/1")
  {
    HttpsUrlValid("https://example.com/1");
  }

  lemma SecondTestUrlValid()
    ensures ValidateUrl("https://example.com/2")
  {
    HttpsUrlValid("https://example.com/2");
  }

  // ---------------------------------------------------------------------------
  // The rate-limited fetch loop

  /** A scraped document: its text and the `url` recorded in its extra info. */
  datatype Document = Document(text: string, url: string)

  /** The outcome of fetching one URL: the extracted text of a page, or a failure (a network
      error, a non-2xx status, or a parse error). */
  datatype Fetched = Page(text: string) | FetchFailed

  /** The observable effects of the fetch loop, in order. */
  datatype Event = Fetch(url: string) | Sleep(duration: int)

  /** A URL that yields a document: accepted by the URL filter `valid`, and fetched
      successfully. The fetch loop uses `ValidateUrl` as its filter; its properties below
      hold for every filter. */
  predicate Succeeds(url: string, valid: string -> bool, fetch: string -> Fetched) {
    valid(url) && fetch(url).Page?
  }

  /** The documents `scrape_with_rate_limit` returns. */
  function Scraped(urls: seq<string>, valid: string -> bool, fetch: string -> Fetched): seq<Document> {
    if urls == [] then []
    else
      var url := urls[|urls| - 1];
      Scraped(urls[..|urls| - 1], valid, fetch) + (if Succeeds(url, valid, fetch) then [Document(fetch(url).text, url)] else [])
  }

  /** The effects of processing one URL: nothing for an invalid URL; a fetch otherwise,
      followed by a sleep after a success. `time.sleep` raises on a negative delay, and that
      error is caught inside the loop after the document was appended. */
  function StepTrace(url: string, valid: string -> bool, delay: int, fetch: string -> Fetched): seq<Event> {
    if !valid(url) then []
    else if fetch(url).Page? && delay >= 0 then [Fetch(url), Sleep(delay)]
    else [Fetch(url)]
  }

  function ScrapeTrace(urls: seq<string>, valid: string -> bool, delay: int, fetch: string -> Fetched): seq<Event> {
    if urls == [] then []
    else ScrapeTrace(urls[..|urls| - 1], valid, delay, fetch) + StepTrace(urls[|urls| - 1], valid, delay, fetch)
  }

  /** `scrape_with_rate_limit`: skip invalid URLs, fetch the others, append one document per
      success and sleep after it. `trace` records the fetches and sleeps. */
  method ScrapeWithRateLimit(urls: seq<string>, delay: int, fetch: string -> Fetched)
    returns (documents: seq<Document>, ghost trace: seq<Event>)
    ensures documents == Scraped(urls, ValidateUrl, fetch)
    ensures trace == ScrapeTrace(urls, ValidateUrl, delay, fetch)
  {
    documents := [];
    trace := [];
    for i := 0 to |urls|
      invariant documents == Scraped(urls[..i], ValidateUrl, fetch)
      invariant trace == ScrapeTrace(urls[..i], ValidateUrl, delay, fetch)
    {
      var url := urls[i];
      ScrapeStep(urls, i, ValidateUrl, delay, fetch);
      if !ValidateUrl(url) {
        continue;
      }
      trace := trace + [Fetch(url)];
      var response := fetch(url);
      if response.Page? {
        documents := documents + [Document(response.text, url)];
        if delay >= 0 {
          trace := trace + [Sleep(delay)];
        }
      }
    }
    assert urls[..|urls|] == urls;
  }

  /** Processing URL `i` extends the documents and the effects by that URL's share. */
  lemma ScrapeStep(urls: seq<string>, i: nat, valid: string -> bool, delay: int, fetch: string -> Fetched)
    requires i < |urls|
    ensures Scraped(urls[..i + 1], valid, fetch) == Scraped(urls[..i], valid, fetch) +
              (if Succeeds(urls[i], valid, fetch) then [Document(fetch(urls[i]).text, urls[i])] else [])
    ensures ScrapeTrace(urls[..i + 1], valid, delay, fetch) ==
              ScrapeTrace(urls[..i], valid, delay, fetch) + StepTrace(urls[i], valid, delay, fetch)
  {
    assert urls[..i + 1][..i] == urls[..i];
  }

  // ---------------------------------------------------------------------------
  // Properties of the fetch loop

  function DocumentUrls(docs: seq<Document>): (r: seq<string>)
    ensures |r| == |docs|
    ensures forall k :: 0 <= k < |docs| ==> r[k] == docs[k].url
  {
    seq(|docs|, k requires 0 <= k < |docs| => docs[k].url)
  }

  /** The documents are tagged, in input order, with exactly the URLs that pass the filter
      and are fetched successfully, each holding the text fetched for its URL (possibly
      empty). */
  lemma {:induction false} ScrapedIsFilter(urls: seq<string>, valid: string -> bool, fetch: string -> Fetched)
    ensures DocumentUrls(Scraped(urls, valid, fetch)) == Filter(urls, u => Succeeds(u, valid, fetch))
    ensures forall d :: d in Scraped(urls, valid, fetch) ==>
              Succeeds(d.url, valid, fetch) && fetch(d.url) == Page(d.text)
  {
    if urls != [] {
      var init := urls[..|urls| - 1];
      ScrapedIsFilter(init, valid, fetch);
      var url := urls[|urls| - 1];
      if Succeeds(url, valid, fetch) {
        assert DocumentUrls(Scraped(urls, valid, fetch)) == DocumentUrls(Scraped(init, valid, fetch)) + [url];
      } else {
        assert DocumentUrls(Scraped(urls, valid, fetch)) == DocumentUrls(Scraped(init, valid, fetch));
      }
    }
  }

  /** At most one document per input URL; a URL is among the documents' exactly when it
      passes the filter and its fetch succeeds. */
  lemma ScrapedUrls(urls: seq<string>, valid: string -> bool, fetch: string -> Fetched, url: string)
    ensures |Scraped(urls, valid, fetch)| <= |urls|
    ensures url in DocumentUrls(Scraped(urls, valid, fetch)) <==> url in urls && valid(url) && fetch(url).Page?
  {
    ScrapedIsFilter(urls, valid, fetch);
    FilterMembership(urls, u => Succeeds(u, valid, fetch), url);
  }

  /** A failed or rejected URL changes nothing for the others: the batch is the
      concatenation of its parts. */
  lemma {:induction false} ScrapedAppend(a: seq<string>, b: seq<string>, valid: string -> bool, fetch: string -> Fetched)
    ensures Scraped(a + b, valid, fetch) == Scraped(a, valid, fetch) + Scraped(b, valid, fetch)
  {
    if b == [] {
      assert a + b == a;
    } else {
      var init := b[..|b| - 1];
      ScrapedAppend(a, init, valid, fetch);
      assert (a + b)[..|a + b| - 1] == a + init;
    }
  }

  /** Every fetch in `t` is of a URL that passes the filter. */
  ghost predicate FetchesOnlyValid(t: seq<Event>, valid: string -> bool) {
    forall k :: 0 <= k < |t| && t[k].Fetch? ==> valid(t[k].url)
  }

  /** Every sleep in `t` lasts `delay` and directly follows the fetch of a URL that succeeded. */
  ghost predicate SleepsFollowSuccess(t: seq<Event>, valid: string -> bool, delay: int, fetch: string -> Fetched) {
    forall k :: 0 <= k < |t| && t[k].Sleep? ==>
      k > 0 && t[k - 1].Fetch? && Succeeds(t[k - 1].url, valid, fetch) && t[k].duration == delay
  }

  /** Only URLs that pass the filter are fetched, and a sleep of `delay` only ever follows a
      successful fetch. */
  lemma {:induction false} TraceDiscipline(urls: seq<string>, valid: string -> bool, delay: int, fetch: string -> Fetched)
    ensures FetchesOnlyValid(ScrapeTrace(urls, valid, delay, fetch), valid)
    ensures SleepsFollowSuccess(ScrapeTrace(urls, valid, delay, fetch), valid, delay, fetch)
  {
    if urls != [] {
      var url := urls[|urls| - 1];
      var prev := ScrapeTrace(urls[..|urls| - 1], valid, delay, fetch);
      var step := StepTrace(url, valid, delay, fetch);
      TraceDiscipline(urls[..|urls| - 1], valid, delay, fetch);
      StepShape(url, valid, delay, fetch);
      var t := prev + step;
      assert t == ScrapeTrace(urls, valid, delay, fetch);
      forall k | 0 <= k < |t| && t[k].Fetch?
        ensures valid(t[k].url)
      {
        if k < |prev| {
          assert t[k] == prev[k];
        } else {
          assert t[k] == step[k - |prev|];
        }
      }
      forall k | 0 <= k < |t| && t[k].Sleep?
        ensures k > 0 && t[k - 1].Fetch? && Succeeds(t[k - 1].url, valid, fetch) && t[k].duration == delay
      {
        if k < |prev| {
          assert t[k] == prev[k];
          assert prev[k].Sleep?;
          assert t[k - 1] == prev[k - 1];
        } else {
          assert t[k] == step[k - |prev|];
          assert k == |prev| + 1 && t[k - 1] == step[0];
        }
      }
    }
  }

  /** The total time slept. */
  function TotalSleep(trace: seq<Event>): int {
    if trace == [] then 0
    else TotalSleep(trace[..|trace| - 1]) + (if trace[|trace| - 1].Sleep? then trace[|trace| - 1].duration else 0)
  }

  lemma {:induction false} TotalSleepAppend(a: seq<Event>, b: seq<Event>)
    ensures TotalSleep(a + b) == TotalSleep(a) + TotalSleep(b)
  {
    if b == [] {
      assert a + b == a;
    } else {
      TotalSleepAppend(a, b[..|b| - 1]);
      assert (a + b)[..|a + b| - 1] == a + b[..|b| - 1];
    }
  }

  lemma MulSucc(a: int, n: int)
    ensures a * (n + 1) == a * n + a
  {
  }

  /** The loop sleeps `delay` once per document it returns (not at all for a negative delay). */
  lemma {:induction false} SleepPerDocument(urls: seq<string>, valid: string -> bool, delay: int, fetch: string -> Fetched)
    ensures TotalSleep(ScrapeTrace(urls, valid, delay, fetch)) ==
            (if delay >= 0 then delay * |Scraped(urls, valid, fetch)| else 0)
  {
    if urls != [] {
      var init := urls[..|urls| - 1];
      var url := urls[|urls| - 1];
      SleepPerDocument(init, valid, delay, fetch);
      assert ScrapeTrace(urls, valid, delay, fetch) == ScrapeTrace(init, valid, delay, fetch) + StepTrace(url, valid, delay, fetch);
      TotalSleepAppend(ScrapeTrace(init, valid, delay, fetch), StepTrace(url, valid, delay, fetch));
      StepSleep(url, valid, delay, fetch);
      var n := |Scraped(init, valid, fetch)|;
      if Succeeds(url, valid, fetch) {
        assert |Scraped(urls, valid, fetch)| == n + 1;
        MulSucc(delay, n);
      } else {
        assert |Scraped(urls, valid, fetch)| == n;
      }
    }
  }

  /** What one URL contributes to the trace. */
  lemma StepShape(url: string, valid: string -> bool, delay: int, fetch: string -> Fetched)
    ensures var step := StepTrace(url, valid, delay, fetch);
            (!valid(url) ==> step == []) &&
            (valid(url) ==> |step| >= 1 && step[0] == Fetch(url)) &&
            (|step| == 2 <==> Succeeds(url, valid, fetch) && delay >= 0) &&
            (|step| == 2 ==> step[1] == Sleep(delay)) &&
            |step| <= 2
  {
  }

  lemma StepSleep(url: string, valid: string -> bool, delay: int, fetch: string -> Fetched)
    ensures TotalSleep(StepTrace(url, valid, delay, fetch)) == if Succeeds(url, valid, fetch) && delay >= 0 then delay else 0
  {
    var step := StepTrace(url, valid, delay, fetch);
    assert TotalSleep([]) == 0;
    assert TotalSleep([Fetch(url)]) == 0 by {
      assert [Fetch(url)][..0] == [];
    }
    if Succeeds(url, valid, fetch) && delay >= 0 {
      assert step == [Fetch(url), Sleep(delay)];
      assert step[..1] == [Fetch(url)];
    }
  }

  /** A batch of three URLs whose second is rejected yields the documents of the two others,
      in order; with those two fetched and a delay of 1, the loop sleeps 2 time units in all. */
  lemma RejectedUrlSkipped(u1: string, bad: string, u2: string, valid: string -> bool, fetch: string -> Fetched)
    requires Succeeds(u1, valid, fetch) && !valid(bad) && Succeeds(u2, valid, fetch)
    ensures Scraped([u1, bad, u2], valid, fetch) == [Document(fetch(u1).text, u1), Document(fetch(u2).text, u2)]
    ensures TotalSleep(ScrapeTrace([u1, u2], valid, 1, fetch)) == 2
  {
    SingleUrl(u1, valid, fetch);
    SingleUrl(bad, valid, fetch);
    SingleUrl(u2, valid, fetch);
    ScrapedAppend([u1], [bad], valid, fetch);
    assert [u1] + [bad] == [u1, bad];
    ScrapedAppend([u1, bad], [u2], valid, fetch);
    assert [u1, bad] + [u2] == [u1, bad, u2];
    ScrapedAppend([u1], [u2], valid, fetch);
    assert [u1] + [u2] == [u1, u2];
    SleepPerDocument([u1, u2], valid, 1, fetch);
  }

  /** The URLs of the project's rate-limit test, with a malformed URL in the middle, when both
      fetches succeed. */
  lemma MalformedUrlSkipped(fetch: string -> Fetched)
    requires fetch("https://example.com/1") == Page("one")
    requires fetch("https://example.com/2") == Page("two")
    ensures Scraped(["https://example.com/1", "not_a_url", "https://example.com/2"], ValidateUrl, fetch) ==
            [Document("one", "https://example.com/1"), Document("two", "https://example.com/2")]
    ensures TotalSleep(ScrapeTrace(["https://example.com/1", "https://example.com/2"], ValidateUrl, 1, fetch)) == 2
  {
    FirstTestUrlValid();
    NotAUrlInvalid();
    SecondTestUrlValid();
    RejectedUrlSkipped("https://example.com/1", "not_a_url", "https://example.com/2", ValidateUrl, fetch);
  }

  lemma SingleUrl(url: string, valid: string -> bool, fetch: string -> Fetched)
    ensures Scraped([url], valid, fetch) == if Succeeds(url, valid, fetch) then [Document(fetch(url).text, url)] else []
  {
    assert [url][..0] == [];
  }

  // ---------------------------------------------------------------------------
  // The document buffer, its index and the summary

  /** The outcome of the web-page loader on a list of URLs. */
  datatype Loaded = Loaded(docs: seq<Document>) | LoadError(message: string)

  /** The vector index; the model records only the documents it was built from. */
  datatype VectorIndex = VectorIndex(documents: seq<Document>)

  /** The outcome of building the vector index. */
  datatype Built = Built | BuildError(message: string)

  const ErrorPrefix: string := "Error during scraping: "

  /** Python's `text[:200]`. */
  function Prefix200(text: string): (p: string)
    ensures |p| <= 200 && p <= text
    ensures |text| <= 200 ==> p == text
    ensures |text| > 200 ==> |p| == 200
  {
    if |text| <= 200 then text else text[..200]
  }

  /** The summary pieces: the first 200 characters of each document with non-empty text. */
  function SummaryParts(docs: seq<Document>): seq<string> {
    if docs == [] then []
    else
      var d := docs[|docs| - 1];
      SummaryParts(docs[..|docs| - 1]) + (if d.text != "" then [Prefix200(d.text)] else [])
  }

  function Summary(docs: seq<Document>): string {
    Join(" ", SummaryParts(docs))
  }

  /** The summary loop of `scrape_and_add_dynamic`. */
  method Summarize(docs: seq<Document>) returns (summary: string)
    ensures summary == Summary(docs)
  {
    var parts := [];
    for i := 0 to |docs|
      invariant parts == SummaryParts(docs[..i])
    {
      assert docs[..i + 1][..i] == docs[..i];
      var doc := docs[i];
      if doc.text != "" {
        parts := parts + [Prefix200(doc.text)];
      }
    }
    assert docs[..|docs|] == docs;
    summary := Join(" ", parts);
  }

  /** One summary piece per document with text, each a non-empty prefix of at most 200
      characters of its document's text. */
  lemma {:induction false} SummaryPartsSpec(docs: seq<Document>)
    ensures |SummaryParts(docs)| == |Filter(docs, (d: Document) => d.text != "")|
    ensures forall k :: 0 <= k < |SummaryParts(docs)| ==>
              var p := SummaryParts(docs)[k];
              p != "" && |p| <= 200 && p == Prefix200(Filter(docs, (d: Document) => d.text != "")[k].text)
  {
    if docs != [] {
      SummaryPartsSpec(docs[..|docs| - 1]);
    }
  }

  /** An empty batch summarises to "", and a summary is never longer than 201 characters
      per document. */
  lemma SummaryBounds(docs: seq<Document>)
    ensures docs == [] ==> Summary(docs) == ""
    ensures |Summary(docs)| <= 201 * |docs|
  {
    var parts := SummaryParts(docs);
    SummaryPartsSpec(docs);
    JoinBound(parts);
    MulMono(201, |parts|, |docs|);
  }

  /** Joining pieces of at most 200 characters with single spaces costs at most 201 per piece. */
  lemma JoinBound(parts: seq<string>)
    requires forall k :: 0 <= k < |parts| ==> |parts[k]| <= 200
    ensures |Join(" ", parts)| <= 201 * |parts|
  {
    if parts != [] {
      JoinLength(" ", parts);
      PartsLength(parts);
    }
  }

  lemma MulMono(a: nat, b: nat, c: nat)
    requires b <= c
    ensures a * b <= a * c
  {
  }

  lemma {:induction false} PartsLength(parts: seq<string>)
    requires forall k :: 0 <= k < |parts| ==> |parts[k]| <= 200
    ensures SumLengths(parts) <= 200 * |parts|
  {
    if parts != [] {
      PartsLength(parts[..|parts| - 1]);
    }
  }

  /** The process-wide state of the scraper module: `documents_list` and `index`. */
  class ContentIndex {
    var documents: seq<Document>
    var index: Option<VectorIndex>

    constructor ()
      ensures documents == [] && index == None
    {
      documents := [];
      index := None;
    }

    /** `scrape_and_add_dynamic`: load the URLs, extend the buffer, rebuild the index from
        the whole buffer and summarise the new documents. A loader error leaves everything
        unchanged; an index error leaves the buffer already extended. Errors come back as a
        string starting with "Error during scraping: ". */
    method ScrapeAndAddDynamic(urls: seq<string>, load: seq<string> -> Loaded, build: seq<Document> -> Built)
      returns (summary: string)
      modifies this
      ensures old(documents) <= documents
      ensures load(urls).LoadError? ==>
                documents == old(documents) && index == old(index) && summary == ErrorPrefix + load(urls).message
      ensures load(urls).Loaded? ==> documents == old(documents) + load(urls).docs
      ensures load(urls).Loaded? && build(documents).BuildError? ==>
                index == old(index) && summary == ErrorPrefix + build(documents).message
      ensures load(urls).Loaded? && build(documents).Built? ==>
                index == Some(VectorIndex(documents)) && summary == Summary(load(urls).docs)
    {
      var loaded := load(urls);
      if loaded.LoadError? {
        return ErrorPrefix + loaded.message;
      }
      var scrapedDocuments := loaded.docs;
      documents := documents + scrapedDocuments;
      var built := build(documents);
      if built.BuildError? {
        return ErrorPrefix + built.message;
      }
      index := Some(VectorIndex(documents));
      summary := Summarize(scrapedDocuments);
    }
  }
}
