/** The site crawler of scraper.py: the section extractor, the guessed
    policy paths, and the aggregation of one domain's pages and ads.txt
    into one findings record. Fetching and HTML parsing are not modelled:
    the web is a function from URL to fetch result, and a parsed page is
    its sections' visible text and link targets. */
module Scraper {
  import opened PyStr
  import EmailRegex
  import OwnerName
  import SocialLinks
  import AdsTxt

  /** One part of a page as the extractor reads it: its visible text and the
      `href` of each `<a href=...>` in it, in document order. */
  datatype Section = Section(text: string, hrefs: seq<string>)

  /** Group 1 and group 2 of one match of the phone pattern, `""` for a group
      that did not take part, as `re.findall` returns them. */
  datatype PhoneGroups = PhoneGroups(countryCode: string, areaCode: string)

  /** `re.findall(phone_regex, text)`: the phone pattern's matcher is a parameter. */
  type PhoneScan = string -> seq<PhoneGroups>

  /** The four-key dictionary the extractor and the crawler return. */
  datatype Findings = Findings(
    ownerName: string,
    ownerEmails: seq<string>,
    phoneNumbers: seq<string>,
    socialMediaLinks: map<string, string>)

  /** The record every extraction and every crawl starts from. */
  const Empty: Findings := Findings("", [], [], map[])

  /** A parsed page: `<header>`, `<footer>`, `<body>` and `<div id="about-us">`
      when the page has them, and the whole document. */
  datatype Document = Document(
    header: Option<Section>,
    footer: Option<Section>,
    body: Option<Section>,
    aboutUs: Option<Section>,
    whole: Section)

  /** A response: its status code, its content parsed as HTML, and its content as text. */
  datatype Response = Response(status: int, doc: Document, text: string)

  /** A GET request either raises a `RequestException` or gives a response. */
  datatype Fetch = Failed | Received(response: Response)

  /** What each URL gives when fetched. */
  type Web = string -> Fetch

  /** How a crawl ends: with a record, or with the `KeyError` that reading a
      missing `owner_email` key raises. */
  datatype Outcome = Returned(data: Findings) | KeyErrorRaised

  // ------------------------------------------------------ section extractor

  /** The phone entries of a scan: groups 1 and 2 of each match, joined. */
  function PhoneEntries(matches: seq<PhoneGroups>): seq<string> {
    seq(|matches|, i requires 0 <= i < |matches| => matches[i].countryCode + matches[i].areaCode)
  }

  /** The record `extract_data_from_section` builds for `section`. */
  function SectionRecord(section: Section, phones: PhoneScan): Findings {
    Findings(
      OwnerName.OwnerNameOf(section.text),
      EmailRegex.FindAll(section.text),
      PhoneEntries(phones(section.text)),
      SocialLinks.Links(section.hrefs))
  }

  /** `extract_data_from_section`: the owner-name patterns are tried in order
      until one matches, the email and phone scans run over the text, and
      every link is filed under its platform, a later one replacing an earlier one. */
  method ExtractSection(section: Section, phones: PhoneScan) returns (extracted: Findings)
    ensures extracted == SectionRecord(section, phones)
  {
    extracted := Empty;
    var text := section.text;
    var name := OwnerName.FirstMatch(text, OwnerName.Labels);
    extracted := extracted.(ownerName := name);
    extracted := extracted.(ownerEmails := extracted.ownerEmails + EmailRegex.FindAll(text));
    extracted := extracted.(phoneNumbers := extracted.phoneNumbers + PhoneEntries(phones(text)));
    var links := SocialLinks.FileLinks(section.hrefs, SocialLinks.Platforms);
    extracted := extracted.(socialMediaLinks := links);
  }

  /** A section's record has one phone entry per match, groups 1 and 2
      joined, and files links only under the ten lower-case platform names. */
  lemma SectionRecordShape(section: Section, phones: PhoneScan)
    ensures var r := SectionRecord(section, phones);
      && |r.phoneNumbers| == |phones(section.text)|
      && (forall i :: 0 <= i < |r.phoneNumbers| ==>
            r.phoneNumbers[i] == phones(section.text)[i].countryCode + phones(section.text)[i].areaCode)
      && r.socialMediaLinks.Keys <= SocialLinks.PlatformNames
  {
    SocialLinks.LinksKeys(section.hrefs);
  }

  // ------------------------------------------------------------ guessed paths

  /** The `common_paths` of `find_urls`, in list order. */
  const CommonPaths: seq<string> := [
    "/privacy-policy", "/terms-of-service", "/terms-of-use", "/cookies-policy",
    "/contact", "/contact-us", "/about", "/about-us", "/legal", "/legal-notice",
    "/disclaimer", "/support", "/help", "/careers", "/faq", "/faq.htm", "/faq.html",
    "/faq.aspx", "/blog", "/blog.htm", "/blog.html", "/sitemap"
  ]

  /** `find_urls(url)`: the base URL joined with each common path. */
  function FindUrls(url: string): seq<string> {
    seq(|CommonPaths|, i requires 0 <= i < |CommonPaths| => url + CommonPaths[i])
  }

  /** There are 22 guessed URLs, in path order, each the base URL followed
      by its path with nothing in between; the last is the sitemap. */
  lemma FindUrlsShape(url: string)
    ensures |FindUrls(url)| == 22
    ensures forall i :: 0 <= i < 22 ==>
      StartsWith(FindUrls(url)[i], url) && FindUrls(url)[i][|url|..] == CommonPaths[i]
    ensures FindUrls(url)[21] == url + "/sitemap"
  {
    forall i | 0 <= i < 22
      ensures StartsWith(FindUrls(url)[i], url) && FindUrls(url)[i][|url|..] == CommonPaths[i]
    {
      assert FindUrls(url)[i] == url + CommonPaths[i];
    }
  }

  // -------------------------------------------------------------- aggregation

  /** The four sections the crawler looks for on the first page, in visiting order. */
  function MainSections(doc: Document): seq<Option<Section>> {
    [doc.header, doc.footer, doc.body, doc.aboutUs]
  }

  /** The sections of `sections` that the page has, in order. */
  function Present(sections: seq<Option<Section>>): seq<Section>
    decreases |sections|
  {
    if sections == [] then []
    else
      Present(sections[..|sections| - 1])
      + match sections[|sections| - 1]
        case Some(s) => [s]
        case None => []
  }

  /** The pages the guessed-URL loop reads: their whole documents, in order,
      up to the first fetch that raises; `completed` tells whether no fetch
      raised. A page is read whatever its status code. */
  datatype Crawl = Crawl(pages: seq<Section>, completed: bool)

  /** The crawl over the guessed URLs `urls`. */
  function GuessedPages(urls: seq<string>, web: Web): Crawl
    decreases |urls|
  {
    if urls == [] then Crawl([], true)
    else
      var before := GuessedPages(urls[..|urls| - 1], web);
      if !before.completed then before
      else
        match web(urls[|urls| - 1])
        case Failed => Crawl(before.pages, false)
        case Received(page) => Crawl(before.pages + [page.doc.whole], true)
  }

  /** The aggregate after `data.update(...)` with the record of each section
      of `visited` in turn: every update replaces all four keys, so only the
      last section counts. */
  function RecordOfLast(visited: seq<Section>, phones: PhoneScan): Findings {
    if visited == [] then Empty else SectionRecord(visited[|visited| - 1], phones)
  }

  /** The characters of a string, each as a one-character string: what
      `list.extend` appends when given a `str`. */
  function Chars(s: string): seq<string> {
    seq(|s|, i requires 0 <= i < |s| => [s[i]])
  }

  /** What the ads.txt fetch does to the aggregate `data`. */
  function ApplyAds(data: Findings, fetched: Fetch): Outcome {
    match fetched
    case Failed => Returned(data)
    case Received(r) =>
      if r.status != 200 then Returned(data)
      else
        var ads := AdsTxt.Scan(SplitLines(r.text));
        match ads.ownerEmail
        case None => KeyErrorRaised
        case Some(email) =>
          var withEmail := if email != "" then data.(ownerEmails := data.ownerEmails + Chars(email)) else data;
          Returned(if ads.ownerName != "" then withEmail.(ownerName := ads.ownerName) else withEmail)
  }

  /** `get_website_data(url)` over the web `web`: the record of the last
      section read on the first page or the guessed pages, then the ads.txt
      rules, with ads.txt fetched from the last guessed URL followed by `/ads.txt`. */
  function WebsiteData(url: string, web: Web, phones: PhoneScan): Outcome {
    match web(url)
    case Failed => Returned(Empty)
    case Received(r) =>
      if r.status != 200 then Returned(Empty)
      else
        var urls := FindUrls(url);
        var crawl := GuessedPages(urls, web);
        var data := RecordOfLast(Present(MainSections(r.doc)) + crawl.pages, phones);
        if !crawl.completed then Returned(data)
        else ApplyAds(data, web(urls[|urls| - 1] + "/ads.txt"))
  }

  /** Once a guessed fetch raises, no later page is read. */
  lemma {:induction false} GuessedStopsAtFailure(urls: seq<string>, web: Web, i: nat, j: nat)
    requires i < j <= |urls|
    requires GuessedPages(urls[..i], web).completed
    requires web(urls[i]).Failed?
    ensures GuessedPages(urls[..j], web) == Crawl(GuessedPages(urls[..i], web).pages, false)
    decreases j
  {
    assert urls[..j][..j - 1] == urls[..j - 1];
    if j > i + 1 {
      GuessedStopsAtFailure(urls, web, i, j - 1);
    }
  }

  /** Once a guessed fetch raises, the crawl over all the URLs ends there. */
  lemma GuessedEndsAtFailure(urls: seq<string>, web: Web, i: nat)
    requires i < |urls|
    requires GuessedPages(urls[..i], web).completed
    requires web(urls[i]).Failed?
    ensures GuessedPages(urls, web) == Crawl(GuessedPages(urls[..i], web).pages, false)
  {
    GuessedStopsAtFailure(urls, web, i, |urls|);
    assert urls[..|urls|] == urls;
  }

  /** A guessed fetch that returns adds its page's whole document. */
  lemma GuessedStep(urls: seq<string>, web: Web, i: nat)
    requires i < |urls|
    requires GuessedPages(urls[..i], web).completed
    requires web(urls[i]).Received?
    ensures GuessedPages(urls[..i + 1], web)
         == Crawl(GuessedPages(urls[..i], web).pages + [web(urls[i]).response.doc.whole], true)
  {
    assert urls[..i + 1][..i] == urls[..i];
  }

  /** The section read last decides the aggregate. */
  lemma RecordOfLastAppend(visited: seq<Section>, s: Section, phones: PhoneScan)
    ensures RecordOfLast(visited + [s], phones) == SectionRecord(s, phones)
  {
  }

  /** The first part of `get_website_data`: the header, footer, body and
      about-us sections, each extracted when the page has it, each record
      replacing the aggregate. */
  method ExtractMainSections(doc: Document, phones: PhoneScan) returns (data: Findings)
    ensures data == RecordOfLast(Present(MainSections(doc)), phones)
  {
    data := Empty;
    var sections := MainSections(doc);
    ghost var visited: seq<Section> := [];
    for i := 0 to |sections|
      invariant visited == Present(sections[..i])
      invariant data == RecordOfLast(visited, phones)
    {
      assert sections[..i + 1][..i] == sections[..i];
      if sections[i].Some? {
        var extracted := ExtractSection(sections[i].value, phones);
        data := extracted;
        visited := visited + [sections[i].value];
      }
    }
    assert sections[..|sections|] == sections;
  }

  /** The loop of `get_website_data` over the guessed URLs: each page is
      fetched, whatever its status its whole document is extracted, and its
      record replaces the aggregate; a fetch that raises ends the loop
      (`completed` is false). After a full loop, `current` is the last URL. */
  method CrawlGuessed(url: string, urls: seq<string>, web: Web, phones: PhoneScan,
                      start: Findings, ghost visited: seq<Section>)
    returns (data: Findings, current: string, completed: bool)
    requires start == RecordOfLast(visited, phones)
    ensures completed == GuessedPages(urls, web).completed
    ensures data == RecordOfLast(visited + GuessedPages(urls, web).pages, phones)
    ensures completed && urls == [] ==> current == url
    ensures completed && urls != [] ==> current == urls[|urls| - 1]
  {
    data := start;
    current := url;
    ghost var pages: seq<Section> := [];
    assert visited + pages == visited;
    var i := 0;
    while i < |urls|
      invariant 0 <= i <= |urls|
      invariant GuessedPages(urls[..i], web) == Crawl(pages, true)
      invariant data == RecordOfLast(visited + pages, phones)
      invariant i == 0 ==> current == url
      invariant i > 0 ==> current == urls[i - 1]
    {
      current := urls[i];
      var page := web(current);
      if page.Failed? {
        GuessedEndsAtFailure(urls, web, i);
        return data, current, false;
      }
      var extracted := ExtractSection(page.response.doc.whole, phones);
      data := extracted;
      GuessedStep(urls, web, i);
      RecordOfLastAppend(visited + pages, page.response.doc.whole, phones);
      pages := pages + [page.response.doc.whole];
      i := i + 1;
    }
    assert urls[..|urls|] == urls;
    completed := true;
  }

  /** The ads.txt part of `get_website_data`: an answer with status 200 is
      scanned; reading `owner_email` raises `KeyError` when the scan did not
      set it; a non-empty email extends the list, a non-empty name replaces
      the owner name. */
  method ApplyAdsTxt(data: Findings, fetched: Fetch) returns (outcome: Outcome)
    ensures outcome == ApplyAds(data, fetched)
  {
    var updated := data;
    if fetched.Received? && fetched.response.status == 200 {
      var adsData := AdsTxt.ExtractAdsTxt(fetched.response.text);
      if adsData.ownerEmail.None? {
        return KeyErrorRaised;
      }
      var email := adsData.ownerEmail.value;
      var name := adsData.ownerName;
      if email != "" {
        updated := updated.(ownerEmails := updated.ownerEmails + Chars(email));
      }
      if name != "" {
        updated := updated.(ownerName := name);
      }
    }
    return Returned(updated);
  }

  /** `get_website_data(url)`: a first fetch that raises or does not answer
      200 gives the empty record. */
  method GetWebsiteData(url: string, web: Web, phones: PhoneScan) returns (outcome: Outcome)
    ensures outcome == WebsiteData(url, web, phones)
    ensures (web(url).Failed? || web(url).response.status != 200) ==> outcome == Returned(Empty)
  {
    var response := web(url);
    if response.Failed? || response.response.status != 200 {
      return Returned(Empty);
    }
    var data := ExtractMainSections(response.response.doc, phones);
    var urls := FindUrls(url);
    var current, completed;
    data, current, completed := CrawlGuessed(url, urls, web, phones, data, Present(MainSections(response.response.doc)));
    if !completed {
      return Returned(data);
    }
    outcome := ApplyAdsTxt(data, web(current + "/ads.txt"));
  }

  // ---------------------------------------------------------------- properties

  /** When every guessed fetch returns, each of them adds its page, in order. */
  lemma {:induction false} GuessedAllReceived(urls: seq<string>, web: Web)
    requires forall i :: 0 <= i < |urls| ==> web(urls[i]).Received?
    ensures GuessedPages(urls, web).completed
    ensures |GuessedPages(urls, web).pages| == |urls|
    ensures forall i :: 0 <= i < |urls| ==> GuessedPages(urls, web).pages[i] == web(urls[i]).response.doc.whole
    decreases |urls|
  {
    if urls != [] {
      var init := urls[..|urls| - 1];
      assert forall i :: 0 <= i < |init| ==> init[i] == urls[i];
      GuessedAllReceived(init, web);
    }
  }

  /** The sections of the first page never reach the result when every
      guessed fetch returns: every `update` replaces all four keys, so the
      sitemap page's record replaces them all, and ads.txt is read from the
      sitemap URL followed by `/ads.txt`. */
  lemma SitemapDecides(url: string, web: Web, phones: PhoneScan)
    requires web(url).Received? && web(url).response.status == 200
    requires forall i :: 0 <= i < |CommonPaths| ==> web(url + CommonPaths[i]).Received?
    ensures var sitemap := web(url + "/sitemap");
      && sitemap.Received?
      && WebsiteData(url, web, phones)
         == ApplyAds(SectionRecord(sitemap.response.doc.whole, phones), web(url + "/sitemap/ads.txt"))
  {
    var urls := FindUrls(url);
    FindUrlsShape(url);
    assert forall i :: 0 <= i < |urls| ==> urls[i] == url + CommonPaths[i];
    GuessedAllReceived(urls, web);
    var main := Present(MainSections(web(url).response.doc));
    var pages := GuessedPages(urls, web).pages;
    assert (main + pages)[|main + pages| - 1] == pages[21];
    assert urls[21] + "/ads.txt" == url + "/sitemap/ads.txt";
  }

  /** A guessed fetch that raises ends the crawl with the record of the page
      before it, or, for the first guessed page, of the last section found on
      the first page; ads.txt is not fetched. */
  lemma GuessedFailureKeepsEarlierRecord(url: string, web: Web, phones: PhoneScan, k: nat)
    requires web(url).Received? && web(url).response.status == 200
    requires k < |CommonPaths|
    requires forall i :: 0 <= i < k ==> web(url + CommonPaths[i]).Received?
    requires web(url + CommonPaths[k]).Failed?
    ensures k > 0 ==> (WebsiteData(url, web, phones)
                       == Returned(SectionRecord(web(url + CommonPaths[k - 1]).response.doc.whole, phones)))
    ensures k == 0 ==> (WebsiteData(url, web, phones)
                        == Returned(RecordOfLast(Present(MainSections(web(url).response.doc)), phones)))
  {
    var urls := FindUrls(url);
    FindUrlsShape(url);
    assert forall i :: 0 <= i < k ==> urls[..k][i] == url + CommonPaths[i];
    GuessedAllReceived(urls[..k], web);
    GuessedStopsAtFailure(urls, web, k, |urls|);
    assert urls[..|urls|] == urls;
    var main := Present(MainSections(web(url).response.doc));
    var pages := GuessedPages(urls[..k], web).pages;
    if k > 0 {
      assert (main + pages)[|main + pages| - 1] == pages[k - 1];
    } else {
      assert main + pages == main;
    }
  }

  /** What the ads.txt step does. It raises `KeyError` exactly when ads.txt
      answers 200 and no `contact=` line ends its scan. Otherwise the owner
      name, the phone numbers and the links stay as they were (the name
      assignment is never reached with a non-empty name), and the emails
      gain one one-character entry per character of the contact value. */
  lemma AdsEffect(data: Findings, fetched: Fetch)
    ensures ApplyAds(data, fetched).KeyErrorRaised? <==>
      fetched.Received? && fetched.response.status == 200
      && AdsTxt.Scan(SplitLines(fetched.response.text)).ownerEmail.None?
    ensures ApplyAds(data, fetched).Returned? ==>
      var d := ApplyAds(data, fetched).data;
      && d.ownerName == data.ownerName
      && d.phoneNumbers == data.phoneNumbers
      && d.socialMediaLinks == data.socialMediaLinks
      && |data.ownerEmails| <= |d.ownerEmails|
      && d.ownerEmails[..|data.ownerEmails|] == data.ownerEmails
      && forall i :: |data.ownerEmails| <= i < |d.ownerEmails| ==> |d.ownerEmails[i]| == 1
  {
    if fetched.Received? && fetched.response.status == 200 {
      AdsTxt.NameOrEmail(SplitLines(fetched.response.text));
    }
  }

  /** The value of a `contact=` line reaches the emails as its characters. */
  lemma AdsEmailAppended(data: Findings, fetched: Fetch)
    requires fetched.Received? && fetched.response.status == 200
    requires AdsTxt.Scan(SplitLines(fetched.response.text)).ownerEmail.Some?
    ensures ApplyAds(data, fetched).Returned?
    ensures var email := AdsTxt.Scan(SplitLines(fetched.response.text)).ownerEmail.value;
      ApplyAds(data, fetched).data.ownerEmails == data.ownerEmails + Chars(email)
  {
    AdsTxt.NameOrEmail(SplitLines(fetched.response.text));
  }

  /** The crawl's links map has only the ten lower-case platform names as keys. */
  lemma WebsiteDataKeys(url: string, web: Web, phones: PhoneScan)
    ensures WebsiteData(url, web, phones).Returned? ==>
      WebsiteData(url, web, phones).data.socialMediaLinks.Keys <= SocialLinks.PlatformNames
  {
    if web(url).Received? && web(url).response.status == 200 {
      var urls := FindUrls(url);
      var visited := Present(MainSections(web(url).response.doc)) + GuessedPages(urls, web).pages;
      if visited != [] {
        SocialLinks.LinksKeys(visited[|visited| - 1].hrefs);
      }
      AdsEffect(RecordOfLast(visited, phones), web(urls[|urls| - 1] + "/ads.txt"));
    }
  }
}
