/** The Safari popup (safari/popup.js): a URL cleaner of its own, a fixed folder list,
    a text area that imports from and exports to the web app line by line, and an
    export of a flat list of bookmarks. */
module SafariPopup {
  import opened Options
  import opened Strings
  import opened Seqs
  import opened UrlNormalizer
  import opened Bookmarks
  import opened NetscapeHtml

  // ---------------------------------------------------------------------------
  // cleanUrl

  const Arrow: char := '\U{2192}'

  /** `s.replace(/^c\s*\/, '')`: one leading `c` and the white space after it. */
  function StripLead(s: string, c: char): string
  {
    if |s| > 0 && s[0] == c then TrimStart(s[1..], JsSpace) else s
  }

  /** The pattern `\s*\([^)]*\)$` matches `s` at offset `p`: white space, then '(',
      then anything but ')', then a ')' that ends the text. */
  ghost predicate DescriptionAt(s: string, p: int)
  {
    0 <= p && |s| >= 2 && s[|s| - 1] == ')'
    && exists q :: p <= q < |s| - 1 && s[q] == '('
         && (forall i :: p <= i < q ==> IsJsSpace(s[i]))
         && (forall i :: q < i < |s| - 1 ==> s[i] != ')')
  }

  /** The test of the pattern at one offset: the white space run from `p` is skipped
      greedily (a shorter run would leave white space where '(' is required). */
  predicate MatchesAt(s: string, p: nat)
    requires p <= |s|
  {
    TrimStartTrims(s[p..], JsSpace);
    var q := |s| - |TrimStart(s[p..], JsSpace)|;
    |s| >= 2 && s[|s| - 1] == ')' && q < |s| - 1 && s[q] == '('
    && forall i :: q < i < |s| - 1 ==> s[i] != ')'
  }

  lemma MatchesAtIsDescription(s: string, p: nat)
    requires p <= |s|
    ensures MatchesAt(s, p) <==> DescriptionAt(s, p)
  {
    var q := |s| - |TrimStart(s[p..], JsSpace)|;
    FirstNonSpace(s, p);
    if DescriptionAt(s, p) {
      var q' :| p <= q' < |s| - 1 && s[q'] == '('
        && (forall i :: p <= i < q' ==> IsJsSpace(s[i]))
        && (forall i :: q' < i < |s| - 1 ==> s[i] != ')');
      assert !IsJsSpace(s[q']);
      assert q' == q;
    }
  }

  /** Where the greedy white space run from `p` stops: everything before is white
      space and the character there, if any, is not. */
  lemma FirstNonSpace(s: string, p: nat)
    requires p <= |s|
    ensures p <= |s| - |TrimStart(s[p..], JsSpace)| <= |s|
    ensures forall i :: p <= i < |s| - |TrimStart(s[p..], JsSpace)| ==> IsJsSpace(s[i])
    ensures |s| - |TrimStart(s[p..], JsSpace)| < |s| ==> !IsJsSpace(s[|s| - |TrimStart(s[p..], JsSpace)|])
  {
    var t := TrimStart(s[p..], JsSpace);
    TrimStartTrims(s[p..], JsSpace);
    var q := |s| - |t|;
    forall i | p <= i < q ensures IsJsSpace(s[i]) {
      assert s[p..][i - p] == s[i];
    }
    if q < |s| {
      assert t[0] == s[p..][q - p] == s[q];
    }
  }

  /** The leftmost offset at or after `p` where the pattern matches. */
  function DescriptionFrom(s: string, p: nat): (r: Option<nat>)
    requires p <= |s|
    ensures r.Some? ==> p <= r.value <= |s| && MatchesAt(s, r.value)
    ensures forall i :: p <= i < (if r.Some? then r.value else |s| + 1) && i <= |s| ==> !MatchesAt(s, i)
    decreases |s| - p
  {
    if MatchesAt(s, p) then Some(p)
    else if p == |s| then None
    else DescriptionFrom(s, p + 1)
  }

  /** `s.replace(/\s*\([^)]*\)$/, '')`: the first (leftmost) match is removed. */
  function StripDescription(s: string): string
  {
    match DescriptionFrom(s, 0)
    case Some(p) => s[..p]
    case None => s
  }

  /** The description removal keeps the text before the leftmost offset where the
      pattern matches, and keeps the whole text when it matches nowhere. */
  lemma DescriptionRemoval(s: string)
    ensures match DescriptionFrom(s, 0)
      case Some(p) =>
        DescriptionAt(s, p) && StripDescription(s) == s[..p]
        && forall i :: 0 <= i < p ==> !DescriptionAt(s, i)
      case None =>
        StripDescription(s) == s && forall i :: 0 <= i <= |s| ==> !DescriptionAt(s, i)
  {
    forall i | 0 <= i <= |s| ensures MatchesAt(s, i) <==> DescriptionAt(s, i) {
      MatchesAtIsDescription(s, i);
    }
  }

  /** The branch for a text without an http(s) scheme: a leading "www." goes and
      "https://" is put in front. */
  function WithScheme(s: string): string
  {
    if HasHttpScheme(s) then s
    else "https://" + (if StartsWith(s, "www.") then s[4..] else s)
  }

  /** cleanUrl. */
  function CleanUrl(url: string): string
  {
    if url == "" then ""
    else
      var stripped := StripMarkers(url);
      JsTrim(WithScheme(StripDescription(stripped)))
  }

  /** Trimming a text that starts with a scheme keeps the scheme: it ends in '/' and
      starts with 'h', neither of them white space. */
  lemma TrimKeepsScheme(s: string)
    requires HasHttpScheme(s)
    ensures HasHttpScheme(JsTrim(s))
  {
    var n := if StartsWith(s, "https://") then 8 else 7;
    assert StartsWith(s, s[..n]) && s[n - 1] == '/' && s[0] == 'h';
    TrimPadded(s, JsSpace);
    var a :| PaddedBy(s, a, JsTrim(s), JsSpace);
    var r := JsTrim(s);
    assert !IsJsSpace(s[0]) && !IsJsSpace(s[n - 1]);
    assert a == 0;
    assert |r| >= n;
    assert r[..n] == s[..n];
  }

  /** cleanUrl turns the empty text into the empty text and any other text into one
      that starts with http:// or https://. */
  lemma CleanUrlHasScheme(url: string)
    ensures url == "" ==> CleanUrl(url) == ""
    ensures url != "" ==> HasHttpScheme(CleanUrl(url))
  {
    if url != "" {
      var stripped := StripMarkers(url);
      var w := WithScheme(StripDescription(stripped));
      if !HasHttpScheme(StripDescription(stripped)) {
        assert w[..8] == "https://";
        assert StartsWith(w, "https://");
      }
      TrimKeepsScheme(w);
    }
  }

  /** The leading strips of cleanUrl. */
  function StripMarkers(s: string): string
  {
    StripLead(StripLead(StripLead(s, Arrow), '-'), '*')
  }

  /** The three strips run once each, in the order arrow, hyphen, asterisk: an arrow,
      a hyphen and an asterisk in that order all go. */
  lemma StripsInOrder(rest: string)
    requires rest == [] || (!IsJsSpace(rest[0]) && rest[0] != Arrow && rest[0] != '-' && rest[0] != '*')
    ensures StripMarkers([Arrow, '-', '*'] + rest) == rest
  {
    var x := ['*'] + rest;
    var y := ['-'] + x;
    assert [Arrow] + y == [Arrow, '-', '*'] + rest;
    LeadStripped(Arrow, y);
    LeadStripped('-', x);
    LeadStripped('*', rest);
  }

  /** The hyphen strip runs before the asterisk strip, so a hyphen after an asterisk
      stays. */
  lemma HyphenAfterAsteriskStays(rest: string)
    requires rest == [] || (!IsJsSpace(rest[0]) && rest[0] != Arrow && rest[0] != '-' && rest[0] != '*')
    ensures StripMarkers(['*', '-'] + rest) == ['-'] + rest
  {
    var x := ['-'] + rest;
    var y := ['*'] + x;
    assert y == ['*', '-'] + rest;
    assert StripLead(y, Arrow) == y;
    assert StripLead(y, '-') == y;
    LeadStripped('*', x);
  }

  /** Each strip runs once: of two leading hyphens one stays. */
  lemma OneHyphenStripped(rest: string)
    requires rest == [] || (!IsJsSpace(rest[0]) && rest[0] != Arrow && rest[0] != '-' && rest[0] != '*')
    ensures StripMarkers(['-', '-'] + rest) == ['-'] + rest
  {
    var x := ['-'] + rest;
    var y := ['-'] + x;
    assert y == ['-', '-'] + rest;
    assert StripLead(y, Arrow) == y;
    LeadStripped('-', x);
    assert StripLead(x, '*') == x;
  }

  /** One leading `c` goes, with no white space after it to remove. */
  lemma LeadStripped(c: char, rest: string)
    requires rest == [] || !IsJsSpace(rest[0])
    ensures StripLead([c] + rest, c) == rest
  {
    assert ([c] + rest)[1..] == rest;
  }

  /** A bare "www." address without decorations becomes its https:// form without
      the "www.". */
  lemma CleanUrlOfBareAddress(host: string)
    requires host != [] && !IsJsSpace(host[|host| - 1]) && host[|host| - 1] != ')'
    ensures CleanUrl("www." + host) == "https://" + host
  {
    var w := "www." + host;
    assert w[0] == 'w' && w[|w| - 1] == host[|host| - 1];
    assert StripMarkers(w) == w;
    NoDescription(w);
    assert StartsWith(w, "www.") && w[4..] == host;
    assert !HasHttpScheme(w);
    var h := "https://" + host;
    assert h[0] == 'h' && h[|h| - 1] == host[|host| - 1];
    TrimUnchanged(h, JsSpace);
  }

  /** A URL that already has a scheme and carries nothing to strip is kept. */
  lemma CleanUrlKeepsSchemed(url: string)
    requires HasHttpScheme(url) && !IsJsSpace(url[|url| - 1]) && url[|url| - 1] != ')'
    ensures CleanUrl(url) == url
  {
    assert url[0] == 'h';
    assert StripMarkers(url) == url;
    NoDescription(url);
    TrimUnchanged(url, JsSpace);
  }

  /** A text that does not end with ')' has no description to remove. */
  lemma NoDescription(s: string)
    requires s == [] || s[|s| - 1] != ')'
    ensures StripDescription(s) == s
  {
  }

  // ---------------------------------------------------------------------------
  // loadFolders

  /** An entry of the fixed folder list: its name and its count. */
  datatype StaticFolder = StaticFolder(name: string, count: nat)

  /** The folder list the Safari popup shows, which it cannot read from the browser:
      five names, each with a count of 0. */
  function StaticFolders(): (r: seq<StaticFolder>)
    ensures |r| == 5 && forall k :: 0 <= k < 5 ==> r[k].count == 0
    ensures forall j, k :: 0 <= j < k < 5 ==> r[j].name != r[k].name
    ensures r[0].name == "Bookmarks Bar" && r[2].name == "My Bookmarks"
  {
    [StaticFolder("Bookmarks Bar", 0), StaticFolder("Other Bookmarks", 0), StaticFolder("My Bookmarks", 0),
     StaticFolder("Work", 0), StaticFolder("Personal", 0)]
  }

  // ---------------------------------------------------------------------------
  // The text area

  /** `current + (current ? '\n' : '') + line`. */
  function AppendedTo(current: string, line: string): string
  {
    if current == "" then line else current + "\n" + line
  }

  /** The text area after appending the lines one by one. */
  function AppendAll(current: string, lines: seq<string>): string
  {
    if lines == [] then current
    else AppendedTo(AppendAll(current, lines[..|lines| - 1]), lines[|lines| - 1])
  }

  /** Appending non-empty lines one by one to a text area joins them with '\n',
      after what was there when that was not empty. */
  lemma AppendAllIsJoin(current: string, lines: seq<string>)
    requires forall k :: 0 <= k < |lines| ==> lines[k] != ""
    ensures current == "" ==> AppendAll(current, lines) == Join(lines, '\n')
    ensures current != "" ==> AppendAll(current, lines) == Join([current] + lines, '\n')
  {
    if current == "" {
      AppendAllFromEmpty(lines);
    } else {
      AppendAllAfterText(current, lines);
    }
  }

  /** One more line appended, as AppendAll defines it. */
  lemma AppendAllStep(current: string, init: seq<string>, last: string)
    ensures AppendAll(current, init + [last]) == AppendedTo(AppendAll(current, init), last)
  {
    assert (init + [last])[..|init + [last]| - 1] == init;
  }

  lemma {:induction false} AppendAllFromEmpty(lines: seq<string>)
    requires forall k :: 0 <= k < |lines| ==> lines[k] != ""
    ensures AppendAll("", lines) == Join(lines, '\n')
    decreases |lines|
  {
    if lines != [] {
      var init := lines[..|lines| - 1];
      var last := lines[|lines| - 1];
      assert lines == init + [last];
      AppendAllFromEmpty(init);
      AppendAllStep("", init, last);
      if init != [] {
        JoinNonEmpty(init);
        JoinAppend(init, [last], '\n');
      }
    }
  }

  lemma {:induction false} AppendAllAfterText(current: string, lines: seq<string>)
    requires current != ""
    ensures AppendAll(current, lines) == Join([current] + lines, '\n')
    decreases |lines|
  {
    if lines == [] {
      assert [current] + lines == [current];
    } else {
      var init := lines[..|lines| - 1];
      var last := lines[|lines| - 1];
      assert lines == init + [last];
      AppendAllAfterText(current, init);
      AppendAllStep(current, init, last);
      JoinNonEmpty([current] + init);
      JoinAppend([current] + init, [last], '\n');
      assert [current] + init + [last] == [current] + lines;
    }
  }

  /** A join whose first part is not empty is not empty. */
  lemma JoinNonEmpty(parts: seq<string>)
    requires parts != [] && parts[0] != ""
    ensures Join(parts, '\n') != ""
  {
    if |parts| > 1 {
      assert Join(parts, '\n') == parts[0] + ['\n'] + Join(parts[1..], '\n');
    }
  }

  /** `.filter(url => url.trim())`. */
  function NonBlank(l: string): Option<string> { if JsTrim(l) != "" then Some(l) else None }

  /** A non-blank line, trimmed. */
  function TrimmedLine(l: string): Option<string> { if JsTrim(l) != "" then Some(JsTrim(l)) else None }

  /** A truthy URL. */
  function NonEmpty(u: string): Option<string> { if u != "" then Some(u) else None }

  function KeepNonBlank(): string -> Option<string> { l => NonBlank(l) }
  function TrimmedNonBlank(): string -> Option<string> { l => TrimmedLine(l) }
  function KeepNonEmpty(): string -> Option<string> { u => NonEmpty(u) }

  /** The lines `url.trim()` gives for the non-blank lines of a text. */
  function ImportedLines(text: string): seq<string>
  {
    FilterMap(Split(text, '\n'), TrimmedNonBlank())
  }

  /** What the import handler answers: the number of imported URLs, or failure. */
  datatype ImportReply = Imported(successCount: nat) | ImportRefused

  class Textarea {
    /** `urlsTextarea.value`. */
    var value: string

    constructor(initial: string)
      ensures value == initial
    {
      value := initial;
    }

    method AppendLine(line: string)
      modifies this
      ensures value == AppendedTo(old(value), line)
    {
      var currentUrls := value;
      value := currentUrls + (if currentUrls != "" then "\n" else "") + line;
    }

    /** The loops of restoreBookmarksFromBackup and of the array branch of
        importJSONBookmarks: every truthy URL is appended in order. */
    method AppendUrls(urls: seq<string>)
      modifies this
      ensures value == AppendAll(old(value), FilterMap(urls, KeepNonEmpty()))
    {
      var i := 0;
      while i < |urls|
        invariant 0 <= i <= |urls|
        invariant value == AppendAll(old(value), FilterMap(urls[..i], KeepNonEmpty()))
      {
        assert urls[..i + 1][..i] == urls[..i];
        if urls[i] != "" {
          AppendLine(urls[i]);
        }
        i := i + 1;
      }
      assert urls[..i] == urls;
    }

    /** importBookmarksFromWebApp: no text (or an empty one) is refused; otherwise
        each non-blank line is trimmed and appended, and the count is the number of
        non-blank lines. */
    method ImportFromWebApp(urls: Option<string>) returns (r: ImportReply)
      modifies this
      ensures urls.None? || urls == Some("") <==> r == ImportRefused
      ensures r == ImportRefused ==> value == old(value)
      ensures r.Imported? ==>
        value == AppendAll(old(value), ImportedLines(urls.value))
        && r.successCount == |ImportedLines(urls.value)|
        && r.successCount == |FilterMap(Split(urls.value, '\n'), KeepNonBlank())|
    {
      if urls.None? || urls.value == "" {
        return ImportRefused;
      }
      var lines := FilterMap(Split(urls.value, '\n'), KeepNonBlank());
      var successCount := AppendTrimmed(lines);
      NonBlankTwice(Split(urls.value, '\n'));
      r := Imported(successCount);
    }

    /** The loop of importBookmarksFromWebApp: each line is trimmed and, when that
        leaves something, appended and counted. */
    method AppendTrimmed(lines: seq<string>) returns (successCount: nat)
      modifies this
      ensures value == AppendAll(old(value), FilterMap(lines, TrimmedNonBlank()))
      ensures successCount == |FilterMap(lines, TrimmedNonBlank())|
    {
      successCount := 0;
      var i := 0;
      ghost var kept: seq<string> := [];
      while i < |lines|
        invariant 0 <= i <= |lines|
        invariant kept == FilterMap(lines[..i], TrimmedNonBlank())
        invariant value == AppendAll(old(value), kept)
        invariant successCount == |kept|
      {
        var cleanUrl := JsTrim(lines[i]);
        if cleanUrl != "" {
          FilterMapKeep(lines, TrimmedNonBlank(), i, cleanUrl);
          AppendAllStep(old(value), kept, cleanUrl);
          AppendLine(cleanUrl);
          successCount := successCount + 1;
          kept := kept + [cleanUrl];
        } else {
          FilterMapSkip(lines, TrimmedNonBlank(), i);
        }
        i := i + 1;
      }
      assert lines[..i] == lines;
    }

    /** exportBookmarksToWebApp: the non-blank lines of the text area, joined with
        '\n', and their number. */
    method ExportToWebApp() returns (urls: string, count: nat)
      ensures var ls := FilterMap(Split(value, '\n'), KeepNonBlank());
        urls == Join(ls, '\n') && count == |ls|
    {
      var ls := FilterMap(Split(value, '\n'), KeepNonBlank());
      urls := Join(ls, '\n');
      count := |ls|;
    }
  }

  /** Filtering the non-blank lines and then trimming the non-blank ones is
      trimming the non-blank lines, and the filter keeps as many lines. */
  lemma {:induction false} NonBlankTwice(lines: seq<string>)
    ensures FilterMap(FilterMap(lines, KeepNonBlank()), TrimmedNonBlank()) == FilterMap(lines, TrimmedNonBlank())
    ensures |FilterMap(lines, KeepNonBlank())| == |FilterMap(lines, TrimmedNonBlank())|
    decreases |lines|
  {
    if lines != [] {
      var init := lines[..|lines| - 1];
      var last := lines[|lines| - 1];
      NonBlankTwice(init);
      var a := FilterMap(init, KeepNonBlank());
      if JsTrim(last) != "" {
        assert FilterMap(lines, KeepNonBlank()) == a + [last];
        assert (a + [last])[..|a + [last]| - 1] == a;
        assert FilterMap(a + [last], TrimmedNonBlank()) == FilterMap(a, TrimmedNonBlank()) + [JsTrim(last)];
      } else {
        assert FilterMap(lines, KeepNonBlank()) == a;
      }
    }
  }

  /** A list whose every element the filter keeps unchanged is its own filtering. */
  lemma {:induction false} FilterMapKeepsAll(ls: seq<string>)
    requires forall k :: 0 <= k < |ls| ==> NonBlank(ls[k]) == Some(ls[k])
    ensures FilterMap(ls, KeepNonBlank()) == ls
    decreases |ls|
  {
    if ls != [] {
      var init := ls[..|ls| - 1];
      assert ls == init + [ls[|ls| - 1]];
      FilterMapKeepsAll(init);
      FilterMapAppend(init, [ls[|ls| - 1]], KeepNonBlank());
      assert FilterMap([ls[|ls| - 1]], KeepNonBlank()) == [ls[|ls| - 1]];
    }
  }

  /** Importing a text into an empty text area and exporting it again gives back the
      imported lines, joined with '\n', and the same count: the web app receives
      exactly what it sent, minus blank lines and surrounding white space. */
  lemma ImportExportRoundTrip(text: string)
    ensures var ls := ImportedLines(text);
      var stored := AppendAll("", ls);
      stored == Join(ls, '\n')
      && FilterMap(Split(stored, '\n'), KeepNonBlank()) == ls
  {
    var ls := ImportedLines(text);
    ImportedLinesClean(text);
    AppendAllFromEmpty(ls);
    ExportGivesBack(ls);
  }

  /** Every imported line is non-blank, has no line break and is its own trim. */
  lemma ImportedLinesClean(text: string)
    ensures forall k :: 0 <= k < |ImportedLines(text)| ==> KeptAsIs(ImportedLines(text)[k])
  {
    var lines := Split(text, '\n');
    var ls := ImportedLines(text);
    SplitPiecesFree(text, '\n');
    forall k | 0 <= k < |ls| ensures KeptAsIs(ls[k]) {
      FilterMapFrom(lines, TrimmedNonBlank(), ls[k]);
      var i :| 0 <= i < |lines| && TrimmedNonBlank()(lines[i]) == Some(ls[k]);
      TrimmedLineClean(lines[i]);
    }
  }

  /** A line the text area keeps as it is: non-empty, without a break, its own trim. */
  predicate KeptAsIs(l: string) {
    l != "" && '\n' !in l && NonBlank(l) == Some(l)
  }

  lemma TrimmedLineClean(l: string)
    requires '\n' !in l && TrimmedLine(l).Some?
    ensures KeptAsIs(TrimmedLine(l).value)
  {
    var t := JsTrim(l);
    TrimPadded(l, JsSpace);
    if '\n' in t {
      TrimKeeps(l, JsSpace, '\n');
    }
    TrimUnchanged(t, JsSpace);
  }

  /** Joining clean lines and filtering the non-blank lines of the result gives the
      lines back. */
  lemma ExportGivesBack(ls: seq<string>)
    requires forall k :: 0 <= k < |ls| ==> KeptAsIs(ls[k])
    ensures FilterMap(Split(Join(ls, '\n'), '\n'), KeepNonBlank()) == ls
  {
    if ls == [] {
      assert Split("", '\n') == [""];
      assert FilterMap([""], KeepNonBlank()) == [];
    } else {
      SplitJoin(ls, '\n');
      FilterMapKeepsAll(ls);
    }
  }

  // ---------------------------------------------------------------------------
  // generateHTMLBookmarks of a flat list

  /** generateHTMLBookmarks: one export line per bookmark with a URL, in order. */
  method ExportFlat(bookmarks: seq<Node>) returns (html: string)
    ensures html == ExportDocument(Links(bookmarks))
  {
    html := Doctype + "\n" + Meta + "\n" + TitleLine + "\n" + Heading + "\n" + ListOpen + "\n";
    ExportPreambleText();
    html := AppendFlat(bookmarks, html);
    html := html + ListClose;
    JoinTerminated(ExportPreamble, ExportLines(Links(bookmarks)), ListClose);
  }

  /** The forEach of generateHTMLBookmarks. */
  method AppendFlat(bookmarks: seq<Node>, start: string) returns (html: string)
    ensures html == start + Terminated(ExportLines(Links(bookmarks)))
  {
    html := start;
    var i := 0;
    assert Links(bookmarks[..0]) == [] && ExportLines([]) == [];
    while i < |bookmarks|
      invariant 0 <= i <= |bookmarks|
      invariant html == start + Terminated(ExportLines(Links(bookmarks[..i])))
    {
      ghost var before := html;
      html := AppendOwn(bookmarks[i], html);
      FlatTextStep(bookmarks, i, start, before, html);
      i := i + 1;
    }
    assert bookmarks[..i] == bookmarks;
  }

  /** One more entry of the forEach adds its own line when it has a URL. */
  lemma FlatTextStep(bs: seq<Node>, i: nat, start: string, before: string, after: string)
    requires i < |bs|
    requires before == start + Terminated(ExportLines(Links(bs[..i])))
    requires after == before + OwnText(bs[i])
    ensures after == start + Terminated(ExportLines(Links(bs[..i + 1])))
  {
    FlatStep(bs, i);
    if HasUrl(bs[i]) {
      LineStep(Links(bs[..i]), bs[i]);
      SeqAssoc(start, Terminated(ExportLines(Links(bs[..i]))), ExportLine(bs[i]) + "\n");
    } else {
      assert Links(bs[..i]) + [] == Links(bs[..i]);
    }
  }

  lemma FlatStep(bs: seq<Node>, i: nat)
    requires i < |bs|
    ensures Links(bs[..i + 1]) == Links(bs[..i]) + (if HasUrl(bs[i]) then [bs[i]] else [])
  {
    assert bs[..i + 1][..i] == bs[..i];
  }

  lemma LineStep(links: seq<Node>, n: Node)
    ensures Terminated(ExportLines(links + [n])) == Terminated(ExportLines(links)) + (ExportLine(n) + "\n")
  {
    ExportLinesAppend(links, [n]);
    TerminatedAppend(ExportLines(links), ExportLines([n]));
    assert ExportLines([n]) == [ExportLine(n)];
    assert Terminated([ExportLine(n)]) == ExportLine(n) + "\n";
  }

  /** On a list without folders the flat export is the tree export of the other
      popups. */
  lemma FlatIsTreeExport(bookmarks: seq<Node>)
    requires forall i :: 0 <= i < |bookmarks| ==> !bookmarks[i].hasChildren
    ensures ExportDocument(Links(bookmarks)) == ExportDocument(PreorderLinks(bookmarks))
  {
    PreorderLinksFlat(bookmarks);
  }

  /** The two bookmarks the export and backup actions use in place of the browser's. */
  function SampleBookmarks(): seq<Node>
  {
    [Node("", "Sample Bookmark 1", Some("https://example.com"), false, []),
     Node("", "Sample Bookmark 2", Some("https://google.com"), false, [])]
  }

  /** The export action writes both samples, in order, under the export header. */
  lemma SampleExport()
    ensures Split(ExportDocument(Links(SampleBookmarks())), '\n')
      == ExportPreamble + [ExportLine(SampleBookmarks()[0]), ExportLine(SampleBookmarks()[1])] + [ListClose]
  {
    var s := SampleBookmarks();
    PairOfLinks(s[0], s[1]);
    assert s == [s[0], s[1]];
    SamplesBreakFree();
    ExportDocumentLines(s);
  }

  lemma SamplesBreakFree()
    ensures forall k :: 0 <= k < |SampleBookmarks()| ==> LinkBreakFree(SampleBookmarks()[k])
  {
    assert '\n' !in "https://example.com" && '\n' !in "Sample Bookmark 1";
    assert '\n' !in "https://google.com" && '\n' !in "Sample Bookmark 2";
  }

  /** Two links export as their two lines. */
  lemma PairOfLinks(a: Node, b: Node)
    requires HasUrl(a) && HasUrl(b)
    ensures Links([a, b]) == [a, b]
    ensures ExportLines([a, b]) == [ExportLine(a), ExportLine(b)]
  {
    assert [a, b] == [a] + [b];
    FilterMapAppend([a], [b], LinkKeeper());
    assert Links([a]) == [a];
    assert Links([b]) == [b];
  }
}
