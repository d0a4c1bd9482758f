/** The original popup (popup.js): it bookmarks the text box's URLs itself, under a
    folder appended to the bar "1", and downloads them as a folder document whose
    heading and links carry the time of the download. */
module LegacyPopup {
  import opened Options
  import opened Strings
  import opened UrlNormalizer
  import opened BookmarkStore
  import opened NetscapeHtml

  const BarId: string := "1"
  const PageForbidden: seq<string> := ["chrome://", "moz-extension://"]
  const TabForbidden: seq<string> := ["chrome://", "moz-extension://", "edge://"]

  /** addBookmarksToBrowser: both boxes are trimmed; an empty URL box is refused
      before anything else, no entry means no folder, and otherwise a folder is
      appended to the bar and the entries are appended to it. */
  method AddBookmarksToBrowser(store: Store, urlsBox: string, folderBox: string, hostname: string -> Option<string>)
    returns (r: Outcome, ghost oks: seq<bool>, ghost made: seq<Item>)
    requires store.Valid()
    modifies store
    ensures store.Valid()
    ensures r == Failed(NoInput) <==> JsTrim(urlsBox) == ""
    ensures r == Failed(NoValidUrls) <==> JsTrim(urlsBox) != "" && NormalizeText(JsTrim(urlsBox), Standard, hostname) == []
    ensures r.Failed? ==> store.children == old(store.children)
    ensures r.Bookmarked? ==> false
    ensures r.Filed? ==>
      NewFolderFilled(old(store.children), store.children, BarId, FolderNameOr(JsTrim(folderBox)),
                      EntryCandidates(NormalizeText(JsTrim(urlsBox), Standard, hostname)), r.folder, r.count, r.errors,
                      oks, made, false, false)
  {
    var folderName := JsTrim(folderBox);
    var urls := JsTrim(urlsBox);
    if urls == "" {
      return Failed(NoInput), [], [];
    }
    var entries := ProcessUrls(urls, Standard, hostname);
    r, oks, made := store.FileEntries(entries, BarId, folderName, false, false);
  }

  /** A link line of the download: indented by eight, dated like the heading. */
  function DatedItem(e: Entry, secs: nat): (r: string)
    ensures '\n' !in e.url && '\n' !in e.title ==> '\n' !in r
  {
    "        <DT><A HREF=\"" + e.url + "\" ADD_DATE=\"" + Decimal(secs) + "\">" + e.title + "</A>"
  }

  function DatedItems(es: seq<Entry>, secs: nat): seq<string>
  {
    seq(|es|, k requires 0 <= k < |es| => DatedItem(es[k], secs))
  }

  /** generateBookmarksHTML: the header and the dated heading, then one dated line
      per entry, each preceded by '\n', then the two closing lines. */
  method GenerateBookmarksHtml(urls: seq<Entry>, folderName: string, nowMs: nat) returns (html: string)
    ensures html == FolderDocument(DatedHeading(folderName, Seconds(nowMs)), DatedItems(urls, Seconds(nowMs)))
  {
    var secs := Seconds(nowMs);
    var head := FolderPreamble + [DatedHeading(folderName, secs), FolderListOpen];
    html := Join(FolderPreamble, '\n') + "\n" + DatedHeading(folderName, secs) + "\n" + FolderListOpen;
    JoinAppend(FolderPreamble, [DatedHeading(folderName, secs), FolderListOpen], '\n');
    html := AppendDatedItems(html, head, urls, secs);
    html := html + "\n" + FolderListClose + "\n" + ListClose;
    JoinAppend(head + DatedItems(urls, secs), [FolderListClose, ListClose], '\n');
  }

  /** The loop of generateBookmarksHTML: one '\n' and one dated line per entry. */
  method AppendDatedItems(html: string, head: seq<string>, urls: seq<Entry>, secs: nat) returns (out: string)
    requires |head| >= 1 && html == Join(head, '\n')
    ensures out == Join(head + DatedItems(urls, secs), '\n')
  {
    var items := DatedItems(urls, secs);
    out := html;
    var i := 0;
    assert head + items[..0] == head;
    while i < |urls|
      invariant 0 <= i <= |urls|
      invariant out == Join(head + items[..i], '\n')
    {
      JoinAppend(head + items[..i], [items[i]], '\n');
      assert head + items[..i] + [items[i]] == head + items[..i + 1];
      out := out + "\n" + DatedItem(urls[i], secs);
      i := i + 1;
    }
    assert items[..i] == items;
  }

  /** The download holds, after the header, the folder's heading with the download's
      second, then exactly one line per entry, the k-th naming the k-th entry's URL
      and title, when no name, URL or title holds a line break. */
  lemma DatedDocumentLines(urls: seq<Entry>, folderName: string, secs: nat)
    requires '\n' !in folderName
    requires forall k :: 0 <= k < |urls| ==> '\n' !in urls[k].url && '\n' !in urls[k].title
    ensures var lines := Split(FolderDocument(DatedHeading(folderName, secs), DatedItems(urls, secs)), '\n');
      |lines| == |FolderPreamble| + |urls| + 4
      && lines[|FolderPreamble|] == DatedHeading(folderName, secs)
      && forall k :: 0 <= k < |urls| ==> lines[|FolderPreamble| + 2 + k] == DatedItem(urls[k], secs)
  {
    FolderDocumentLines(DatedHeading(folderName, secs), DatedItems(urls, secs));
  }

  /** What the download button ends with: the file and its number of links, or why
      no file was made. */
  datatype Download = Downloaded(html: string, count: nat) | NotDownloaded(reason: Failure)

  /** downloadBookmarksHTML: the same guards as the bookmarking path, then the
      document of the processed URLs under `folderName || 'My Bookmarks'`. */
  method DownloadBookmarksHtml(urlsBox: string, folderBox: string, hostname: string -> Option<string>, nowMs: nat)
    returns (r: Download)
    ensures r == NotDownloaded(NoInput) <==> JsTrim(urlsBox) == ""
    ensures r == NotDownloaded(NoValidUrls) <==>
      JsTrim(urlsBox) != "" && NormalizeText(JsTrim(urlsBox), Standard, hostname) == []
    ensures r.Downloaded? ==>
      var es := NormalizeText(JsTrim(urlsBox), Standard, hostname);
      r.count == |es| && r.count > 0
      && r.html == FolderDocument(DatedHeading(FolderNameOr(JsTrim(folderBox)), Seconds(nowMs)), DatedItems(es, Seconds(nowMs)))
    ensures r.NotDownloaded? ==> r.reason == NoInput || r.reason == NoValidUrls
  {
    var folderName := JsTrim(folderBox);
    var urls := JsTrim(urlsBox);
    if urls == "" {
      return NotDownloaded(NoInput);
    }
    var entries := ProcessUrls(urls, Standard, hostname);
    if |entries| == 0 {
      return NotDownloaded(NoValidUrls);
    }
    var html := GenerateBookmarksHtml(entries, FolderNameOr(folderName), nowMs);
    r := Downloaded(html, |entries|);
  }

  /** The URL of every line of a download is one the normaliser produced, so it starts
      with http:// or https://. */
  lemma DownloadedUrlsAreHttp(urlsBox: string, hostname: string -> Option<string>, k: nat)
    requires k < |NormalizeText(JsTrim(urlsBox), Standard, hostname)|
    ensures HasHttpScheme(NormalizeText(JsTrim(urlsBox), Standard, hostname)[k].url)
  {
    var es := NormalizeText(JsTrim(urlsBox), Standard, hostname);
    NormalizedUrlsAreHttp(JsTrim(urlsBox), Standard, hostname, es[k]);
  }

  /** bookmarkCurrentPageAction: two refused schemes, and the page is appended to the
      bar. */
  method BookmarkCurrentPageAction(store: Store, tab: Tab, hostname: string -> Option<string>) returns (r: Outcome)
    requires store.Valid()
    modifies store
    ensures store.Valid()
    ensures r == Failed(CannotBookmarkPage) <==> !Bookmarkable(tab.url, PageForbidden)
    ensures r.Failed? ==> store.children == old(store.children)
    ensures r.Filed? ==> false
    ensures r.Bookmarked? ==>
      TabTitle(tab, hostname).Some? && r.item.title == TabTitle(tab, hostname).value
      && r.item.url == Some(tab.url) && BarId in old(store.children)
      && store.children == Added(old(store.children), BarId, r.item, false)
  {
    r := store.BookmarkPage(tab, PageForbidden, hostname, BarId, false);
  }

  /** bookmarkAllTabsAction: three refused schemes; the folder is appended to the bar
      and the tabs to the folder. */
  method BookmarkAllTabsAction(store: Store, tabs: seq<Tab>, date: string, hostname: string -> Option<string>)
    returns (r: Outcome, ghost oks: seq<bool>, ghost made: seq<Item>)
    requires store.Valid()
    modifies store
    ensures store.Valid()
    ensures r == Failed(NoValidTabs) <==> ValidTabs(tabs, TabForbidden) == []
    ensures r.Failed? ==> store.children == old(store.children)
    ensures r.Bookmarked? ==> false
    ensures r.Filed? ==>
      NewFolderFilled(old(store.children), store.children, BarId, "All Tabs - " + date,
                      TabCandidates(ValidTabs(tabs, TabForbidden), hostname), r.folder, r.count, r.errors,
                      oks, made, false, false)
  {
    r, oks, made := store.BookmarkTabs(tabs, TabForbidden, hostname, BarId, "All Tabs - " + date, false, false);
  }

  /** The tabs' folder becomes the bar's last child and lists the bookmarked tabs in
      tab order; at most one bookmark per valid tab. */
  lemma TabsAppendedInOrder(before: map<string, seq<Item>>, after: map<string, seq<Item>>, tabs: seq<Tab>,
                            date: string, hostname: string -> Option<string>, folder: Item, count: nat,
                            errors: seq<string>, oks: seq<bool>, made: seq<Item>)
    requires NewFolderFilled(before, after, BarId, "All Tabs - " + date,
                             TabCandidates(ValidTabs(tabs, TabForbidden), hostname), folder, count, errors,
                             oks, made, false, false)
    ensures after[BarId] == before[BarId] + [folder]
    ensures folder.id in after && after[folder.id] == made
    ensures count <= |ValidTabs(tabs, TabForbidden)|
  {
    NewFolderContents(before, after, BarId, "All Tabs - " + date,
                      TabCandidates(ValidTabs(tabs, TabForbidden), hostname), folder, count, errors,
                      oks, made, false, false);
  }
}
