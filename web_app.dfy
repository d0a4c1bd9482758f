/** The web application (app.py): its own copy of the URL cleaner, with Python's
    white space and a quirk for domains that start with "http"; the folder document
    it serves, titled by host name; the guard of the /convert route; and the usage
    counters it keeps in a JSON file. */
module WebApp {
  import opened Options
  import opened Strings
  import opened Seqs
  import opened UrlNormalizer
  import opened NetscapeHtml

  // ---------------------------------------------------------------------------
  // clean_and_process_urls

  /** The third pattern, ^[a-zA-Z0-9][a-zA-Z0-9\-\.]*\.[a-zA-Z]{2,}$: the domain
      pattern made to reach the end of the line. */
  predicate WholeDomain(s: string)
  {
    |s| >= 1 && IsAsciiAlnum(s[0])
    && exists k :: 1 <= k < |s| - 2 && s[k] == '.'
         && (forall i :: 1 <= i < k ==> IsHostChar(s[i]))
         && (forall i :: k < i < |s| ==> IsAsciiLetter(s[i]))
  }

  /** The tests after the strips: keep a URL with a scheme, give "https://" to a
      domain unless it starts with "http", and then try the third pattern. */
  function CleanStripped(d: string): Option<string>
  {
    if HasHttpScheme(d) then Some(d)
    else if LooksLikeDomain(d) then Some(if StartsWith(d, "http") then d else "https://" + d)
    else if WholeDomain(d) then Some("https://" + d)
    else None
  }

  /** What the loop body makes of one line: strip it, drop it when blank, remove
      the three decorations with Python's white space, then the tests. */
  function CleanLine(line: string): Option<string>
  {
    var t := PyStrip(line);
    if t == "" then None else CleanStripped(StripDecorations(t, Standard, PySpace))
  }

  /** CleanLine, given the values of its stages. */
  lemma CleanLineStages(line: string, t: string, d: string)
    requires PyStrip(line) == t && t != "" && StripDecorations(t, Standard, PySpace) == d
    ensures CleanLine(line) == CleanStripped(d)
  {
  }

  function Cleaner(): string -> Option<string>
  {
    line => CleanLine(line)
  }

  /** clean_and_process_urls as a value: the cleaned lines, in line order. */
  function CleanedUrls(text: string): seq<string>
  {
    FilterMap(Split(text, '\n'), Cleaner())
  }

  method CleanAndProcessUrls(text: string) returns (processedUrls: seq<string>)
    ensures processedUrls == CleanedUrls(text)
  {
    var lines := Split(text, '\n');
    processedUrls := [];
    var i := 0;
    while i < |lines|
      invariant 0 <= i <= |lines|
      invariant processedUrls == FilterMap(lines[..i], Cleaner())
    {
      var url := CleanOne(lines[i]);
      CleanedStep(lines, i, url);
      if url.Some? {
        processedUrls := processedUrls + [url.value];
      }
      i := i + 1;
    }
    assert lines[..i] == lines;
  }

  lemma CleanedStep(lines: seq<string>, i: nat, url: Option<string>)
    requires i < |lines| && url == CleanLine(lines[i])
    ensures FilterMap(lines[..i + 1], Cleaner())
      == FilterMap(lines[..i], Cleaner()) + (if url.Some? then [url.value] else [])
  {
    if url.Some? {
      FilterMapKeep(lines, Cleaner(), i, url.value);
    } else {
      FilterMapSkip(lines, Cleaner(), i);
    }
  }

  /** The loop body of clean_and_process_urls for one line: strip it, skip it when
      blank, remove the decorations, then try the three patterns in order. */
  method CleanOne(text: string) returns (r: Option<string>)
    ensures r == CleanLine(text)
  {
    var line := PyStrip(text);
    if line == "" {
      return None;
    }
    ghost var t := line;
    ghost var m := StripListMarker(line, Standard, PySpace);
    line := StripListMarker(line, Standard, PySpace);
    ghost var l := StripLabel(line, PySpace);
    line := StripLabel(line, PySpace);
    line := StripClosingParen(line);
    DecorationsCompose(t, Standard, PySpace, m, l);
    CleanLineStages(text, t, line);
    if HasHttpScheme(line) {
      return Some(line);
    }
    if LooksLikeDomain(line) {
      if !StartsWith(line, "http") {
        line := "https://" + line;
      }
      return Some(line);
    }
    if WholeDomain(line) {
      line := "https://" + line;
      return Some(line);
    }
    return None;
  }

  /** The third pattern is the second one anchored at the end, so a line that fails
      the second fails the third: its branch is never taken. */
  lemma ThirdPatternUnreachable(d: string)
    ensures WholeDomain(d) ==> LooksLikeDomain(d)
  {
    if WholeDomain(d) {
      var k :| 1 <= k < |d| - 2 && d[k] == '.'
        && (forall i :: 1 <= i < k ==> IsHostChar(d[i]))
        && (forall i :: k < i < |d| ==> IsAsciiLetter(d[i]));
      assert DomainMatchAt(d, k);
      LooksLikeDomainIsRegex(d);
    }
  }

  /** After the strips, the Python cleaner applies the normaliser's formula (keep a
      URL with a scheme, give "https://" to a domain), with one exception: a domain
      that starts with "http" (such as httpbin.org) is kept without a scheme. */
  lemma CleanStrippedFollowsNormaliser(d: string)
    ensures if StartsWith(d, "http") && !HasHttpScheme(d) && LooksLikeDomain(d)
      then CleanStripped(d) == Some(d)
      else CleanStripped(d) == (var u := InferScheme(d); if u != [] && HasHttpScheme(u) then Some(u) else None)
  {
    ThirdPatternUnreachable(d);
    if !HasHttpScheme(d) && LooksLikeDomain(d) {
      assert ("https://" + d)[..8] == "https://";
    }
  }

  /** Every cleaned URL has a scheme, except a domain starting with "http". */
  lemma CleanedUrlShape(line: string)
    requires CleanLine(line).Some?
    ensures var u := CleanLine(line).value;
      HasHttpScheme(u) || (StartsWith(u, "http") && LooksLikeDomain(u))
  {
    var d := StripDecorations(PyStrip(line), Standard, PySpace);
    assert CleanLine(line) == CleanStripped(d);
    CleanStrippedFollowsNormaliser(d);
  }

  /** A line that, once stripped, starts with a scheme and does not end in ')' is
      kept exactly as stripped. */
  lemma SchemedLineKept(line: string)
    requires HasHttpScheme(PyStrip(line)) && !EndsWith(PyStrip(line), ")")
    ensures CleanLine(line) == Some(PyStrip(line))
  {
    var s := PyStrip(line);
    assert s[0] == 'h' && !IsListMarker('h');
    var m := StripListMarker(s, Standard, PySpace);
    assert m == s;
    SchemeHasNoLabel(s, PySpace);
    var l := StripLabel(m, PySpace);
    assert l == s;
    assert StripClosingParen(l) == s;
    DecorationsCompose(s, Standard, PySpace, m, l);
  }

  /** Blank lines are skipped and the cleaned URLs keep the order of their lines. */
  lemma CleanedUrlsInOrder(text: string)
    ensures var lines := Split(text, '\n');
      var kept := Kept(lines, Cleaner());
      |kept| == |CleanedUrls(text)|
      && (forall j :: 0 <= j < |kept| ==> kept[j] < |lines| && CleanLine(lines[kept[j]]) == Some(CleanedUrls(text)[j]))
      && (forall j, k :: 0 <= j < k < |kept| ==> kept[j] < kept[k])
      && (forall i :: 0 <= i < |lines| && PyStrip(lines[i]) == "" ==> i !in kept)
  {
    FilterMapOrigins(Split(text, '\n'), Cleaner());
  }

  /** "httpbin.org" passes the strips unchanged. */
  lemma HttpbinUnstripped()
    ensures PyStrip("httpbin.org") == "httpbin.org"
    ensures StripDecorations("httpbin.org", Standard, PySpace) == "httpbin.org"
  {
    HttpbinTrim();
    HttpbinNoLabel();
    Undecorated("httpbin.org");
  }

  /** A string that starts with no marker, has no label and does not end in ')' is
      left as it is by the strips. */
  lemma Undecorated(s: string)
    requires s != [] && !IsListMarker(s[0]) && StripLabel(s, PySpace) == s && s[|s| - 1] != ')'
    ensures StripDecorations(s, Standard, PySpace) == s
  {
    DecorationsCompose(s, Standard, PySpace, s, s);
  }

  lemma HttpbinTrim()
    ensures PyStrip("httpbin.org") == "httpbin.org"
  {
    StrippedEnds("httpbin.org", 'h', 'g');
  }

  /** A line that starts and ends with characters other than white space is its own
      strip. */
  lemma StrippedEnds(s: string, first: char, last: char)
    requires |s| > 0 && s[0] == first && s[|s| - 1] == last && !IsPySpace(first) && !IsPySpace(last)
    ensures PyStrip(s) == s
  {
    TrimUnchanged(s, PySpace);
  }

  lemma HttpbinNoLabel()
    ensures StripLabel("httpbin.org", PySpace) == "httpbin.org"
  {
    LetterRunStops("httpbin.org", 7, PySpace);
  }

  /** "httpbin.org" is a domain that starts with "http" but has no scheme. */
  lemma HttpbinIsDomain()
    ensures LooksLikeDomain("httpbin.org") && StartsWith("httpbin.org", "http")
    ensures !HasHttpScheme("httpbin.org")
  {
    var s := "httpbin.org";
    assert s[4] == 'b';
    assert DomainMatchAt(s, 7);
    LooksLikeDomainIsRegex(s);
    assert s[..4] == "http";
  }

  /** So "httpbin.org" is cleaned to itself, without a scheme. */
  lemma HttpbinKeptWithoutScheme()
    ensures CleanLine("httpbin.org") == Some("httpbin.org")
  {
    HttpbinUnstripped();
    HttpbinIsDomain();
  }

  // ---------------------------------------------------------------------------
  // txt_to_bookmarks_html

  /** `parsed.netloc.replace('www.', '') or url`, where `netloc` stands for urlparse
      (None when it raises): every "www." goes, and an empty result gives the URL. */
  function Title(url: string, netloc: string -> Option<string>): string
  {
    match netloc(url)
    case Some(h) => var t := ReplaceAll(h, "www.", ""); if t != "" then t else url
    case None => url
  }

  /** A link line of the served document. */
  function Item(url: string, netloc: string -> Option<string>): string
  {
    Anchor("        ", url, Title(url, netloc))
  }

  /** The loop's filter: a URL with a scheme gives a link line. */
  function ItemOf(netloc: string -> Option<string>): string -> Option<string>
  {
    url => if HasHttpScheme(url) then Some(Item(url, netloc)) else None
  }

  function Items(urls: seq<string>, netloc: string -> Option<string>): seq<string>
  {
    FilterMap(urls, ItemOf(netloc))
  }

  /** The template filled in: the items joined with '\n' stand in one slot. */
  function TemplateDocument(heading: string, items: seq<string>): string
  {
    Join(FolderPreamble + [heading, FolderListOpen, Join(items, '\n'), FolderListClose, ListClose], '\n')
  }

  /** Filling the template's slot with joined items is the folder document of the
      items; without items the slot leaves one empty line. */
  lemma TemplateIsFolderDocument(heading: string, items: seq<string>)
    ensures items != [] ==> TemplateDocument(heading, items) == FolderDocument(heading, items)
    ensures items == [] ==> TemplateDocument(heading, items) == FolderDocument(heading, [""])
  {
    var a := FolderPreamble + [heading, FolderListOpen];
    var b := [FolderListClose, ListClose];
    var j := Join(items, '\n');
    assert FolderPreamble + [heading, FolderListOpen, j, FolderListClose, ListClose] == a + ([j] + b);
    JoinAppend(a, [j] + b, '\n');
    JoinAppend([j], b, '\n');
    if items != [] {
      assert a + items + b == a + (items + b);
      JoinAppend(a, items + b, '\n');
      JoinAppend(items, b, '\n');
    } else {
      assert j == "";
      assert a + [""] + b == a + ([j] + b);
    }
  }

  /** txt_to_bookmarks_html: the cleaned URLs with a scheme become link lines under
      a plain folder heading, and the count is the number of link lines. */
  method TxtToBookmarksHtml(urlsText: string, folderName: string, netloc: string -> Option<string>)
    returns (finalHtml: string, count: nat)
    ensures var items := Items(CleanedUrls(urlsText), netloc);
      finalHtml == TemplateDocument(PlainHeading(folderName), items) && count == |items|
  {
    var bookmarkItems: seq<string> := [];
    var processedUrls := CleanAndProcessUrls(urlsText);
    var i := 0;
    while i < |processedUrls|
      invariant 0 <= i <= |processedUrls|
      invariant bookmarkItems == FilterMap(processedUrls[..i], ItemOf(netloc))
    {
      ItemStep(processedUrls, i, netloc);
      var url := processedUrls[i];
      if url != "" && (StartsWith(url, "http://") || StartsWith(url, "https://")) {
        var title := Title(url, netloc);
        var bookmarkItem := Anchor("        ", url, title);
        bookmarkItems := bookmarkItems + [bookmarkItem];
      }
      i := i + 1;
    }
    assert processedUrls[..i] == processedUrls;
    finalHtml := TemplateDocument(PlainHeading(folderName), bookmarkItems);
    count := |bookmarkItems|;
  }

  /** One more URL adds its link line when it has a scheme. */
  lemma ItemStep(urls: seq<string>, i: nat, netloc: string -> Option<string>)
    requires i < |urls|
    ensures FilterMap(urls[..i + 1], ItemOf(netloc))
      == FilterMap(urls[..i], ItemOf(netloc)) + (if HasHttpScheme(urls[i]) then [Item(urls[i], netloc)] else [])
  {
    assert urls[..i + 1][..i] == urls[..i];
  }

  /** The served document splits back into the header, the heading, one line per
      link in order (or one empty line when there is none) and the closing lines,
      when no name or link line holds a line break. */
  lemma TemplateDocumentLines(folderName: string, items: seq<string>)
    requires '\n' !in folderName && BreakFree(items)
    ensures Split(TemplateDocument(PlainHeading(folderName), items), '\n')
      == FolderPreamble + [PlainHeading(folderName), FolderListOpen]
         + (if items == [] then [""] else items) + [FolderListClose, ListClose]
  {
    TemplateIsFolderDocument(PlainHeading(folderName), items);
    if items == [] {
      FolderDocumentLines(PlainHeading(folderName), [""]);
    } else {
      FolderDocumentLines(PlainHeading(folderName), items);
    }
  }

  /** A domain starting with "http" is cleaned but, lacking a scheme, makes no link
      line and is not counted. */
  lemma HttpbinNotCounted(netloc: string -> Option<string>)
    ensures CleanedUrls("httpbin.org") == ["httpbin.org"]
    ensures Items(CleanedUrls("httpbin.org"), netloc) == []
  {
    HttpbinCleaned();
    HttpbinIsDomain();
    var us := ["httpbin.org"];
    assert us[..0] == [];
    assert ItemOf(netloc)(us[0]) == None;
  }

  lemma HttpbinCleaned()
    ensures CleanedUrls("httpbin.org") == ["httpbin.org"]
  {
    var s := "httpbin.org";
    assert forall i :: 0 <= i < |s| ==> s[i] != '\n';
    CleanedOneLine(s);
    HttpbinKeptWithoutScheme();
  }

  /** Text without a line break is one line. */
  lemma CleanedOneLine(s: string)
    requires '\n' !in s
    ensures CleanedUrls(s) == if CleanLine(s).Some? then [CleanLine(s).value] else []
  {
    SplitSingle(s, '\n');
    var lines := [s];
    assert lines[..0] == [];
  }

  /** The title drops every "www." of the host name, where the extension drops only
      the first; an empty result, or a URL urlparse rejects, gives the URL itself. */
  lemma TitleCases(url: string, netloc: string -> Option<string>)
    ensures netloc(url).None? ==> Title(url, netloc) == url
    ensures netloc(url).Some? && ReplaceAll(netloc(url).value, "www.", "") == "" ==> Title(url, netloc) == url
    ensures netloc(url).Some? && (forall j :: !OccursAt(netloc(url).value, "www.", j)) && netloc(url).value != ""
            ==> Title(url, netloc) == netloc(url).value
    ensures ReplaceAll("www.www.x", "www.", "") == "x"
    ensures ReplaceFirst("www.www.x", "www.", "") == "www.x"
  {
    if netloc(url).Some? && forall j :: !OccursAt(netloc(url).value, "www.", j) {
      ReplaceAllUnchanged(netloc(url).value, "www.", "");
    }
    AllWwwRemoved();
    FirstWwwRemoved();
  }

  lemma AllWwwRemoved()
    ensures ReplaceAll("www.www.x", "www.", "") == "x"
  {
    var h := "www.www.x";
    assert StartsWith(h, "www.");
    var h1 := h[4..];
    assert h1 == "www.x";
    assert StartsWith(h1, "www.");
    assert h1[4..] == "x";
    assert ReplaceAll("x", "www.", "") == "x";
  }

  lemma FirstWwwRemoved()
    ensures ReplaceFirst("www.www.x", "www.", "") == "www.x"
  {
    var h := "www.www.x";
    assert h[..4] == "www.";
    assert IndexOf(h, "www.") == Some(0);
    assert h[4..] == "www.x";
  }

  // ---------------------------------------------------------------------------
  // /convert and log_usage

  /** One entry of `recent_activity`. */
  datatype Activity = Activity(timestamp: string, urlCount: nat, folderName: string)

  /** `xs[-n:]`: the last `n` elements, or all of them when there are fewer. */
  function LastN<A>(xs: seq<A>, n: nat): (r: seq<A>)
    ensures |r| == if |xs| <= n then |xs| else n
    ensures forall k :: 0 <= k < |r| ==> r[k] == xs[|xs| - |r| + k]
  {
    if |xs| <= n then xs else xs[|xs| - n..]
  }

  const RecentLimit: nat := 50

  /** The usage file `usage_log.json`. */
  class UsageLog {
    var totalConversions: int
    var totalUrls: int
    var recentActivity: seq<Activity>

    /** The content used when the file cannot be read. */
    constructor()
      ensures totalConversions == 0 && totalUrls == 0 && recentActivity == []
    {
      totalConversions, totalUrls, recentActivity := 0, 0, [];
    }

    /** log_usage: start from the file, or from zero when it cannot be read; count the
        conversion and its URLs, append the activity, keep the last fifty. */
    method LogUsage(urlCount: nat, folderName: string, timestamp: string, readable: bool)
      modifies this
      ensures var c := if readable then old(totalConversions) else 0;
        var u := if readable then old(totalUrls) else 0;
        var a := if readable then old(recentActivity) else [];
        totalConversions == c + 1 && totalUrls == u + urlCount
        && recentActivity == LastN(a + [Activity(timestamp, urlCount, folderName)], RecentLimit)
    {
      if !readable {
        totalConversions, totalUrls, recentActivity := 0, 0, [];
      }
      totalConversions := totalConversions + 1;
      totalUrls := totalUrls + urlCount;
      recentActivity := recentActivity + [Activity(timestamp, urlCount, folderName)];
      recentActivity := LastN(recentActivity, RecentLimit);
    }
  }

  /** After an activity is logged the list holds at most fifty, ends with the new
      one, keeps the older ones in order, and loses an old one only when it was
      already full. */
  lemma RecentActivityBounded(before: seq<Activity>, a: Activity)
    ensures var r := LastN(before + [a], RecentLimit);
      |r| <= RecentLimit && r[|r| - 1] == a
      && (|before| < RecentLimit ==> r == before + [a])
      && (|before| >= RecentLimit ==> |r| == RecentLimit && r[..|r| - 1] == before[|before| - (RecentLimit - 1)..])
  {
    var r := LastN(before + [a], RecentLimit);
    if |before| >= RecentLimit {
      assert r[..|r| - 1] == before[|before| - (RecentLimit - 1)..];
    }
  }

  /** The JSON body of a /convert request; a missing key reads as its default. */
  datatype ConvertRequest = ConvertRequest(urls: Option<string>, folderName: Option<string>)

  /** The replies of /convert: the count and the document, status 400, status 500. */
  datatype ConvertReply = Converted(urlCount: nat, html: string) | BadRequest | ServerError

  function RequestUrls(req: ConvertRequest): string { if req.urls.Some? then req.urls.value else "" }

  function RequestFolder(req: ConvertRequest): string
  {
    if req.folderName.Some? then req.folderName.value else "Imported Bookmarks"
  }

  /** convert: no JSON body is an error 500; blank URL text is refused with 400
      before anything is logged; otherwise the document is made and the
      conversion logged with its count. */
  method Convert(log: UsageLog, body: Option<ConvertRequest>, netloc: string -> Option<string>,
                 timestamp: string, readable: bool)
    returns (r: ConvertReply)
    modifies log
    ensures body.None? ==> r == ServerError
    ensures body.Some? ==> (r == BadRequest <==> PyStrip(RequestUrls(body.value)) == "")
    ensures !r.Converted? ==> unchanged(log)
    ensures r.Converted? ==>
      body.Some? && PyStrip(RequestUrls(body.value)) != ""
      && var items := Items(CleanedUrls(RequestUrls(body.value)), netloc);
      r.urlCount == |items| && r.html == TemplateDocument(PlainHeading(RequestFolder(body.value)), items)
      && log.totalConversions == (if readable then old(log.totalConversions) else 0) + 1
      && log.totalUrls == (if readable then old(log.totalUrls) else 0) + r.urlCount
      && log.recentActivity
         == LastN((if readable then old(log.recentActivity) else [])
                  + [Activity(timestamp, r.urlCount, RequestFolder(body.value))], RecentLimit)
  {
    if body.None? {
      return ServerError;
    }
    var urlsText := RequestUrls(body.value);
    var folderName := RequestFolder(body.value);
    if PyStrip(urlsText) == "" {
      return BadRequest;
    }
    var htmlContent, urlCount := TxtToBookmarksHtml(urlsText, folderName, netloc);
    log.LogUsage(urlCount, folderName, timestamp, readable);
    r := Converted(urlCount, htmlContent);
  }
}
