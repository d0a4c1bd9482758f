/** The Chromium background script (chrome-based/background.js): its handlers work on
    the bookmarks bar, node "1", refuse three browser-internal schemes, list the bar's
    folders with the suggestions always appended, and export every URL of the tree. */
module ChromeBackground {
  import opened Options
  import opened Strings
  import opened UrlNormalizer
  import opened Bookmarks
  import opened BookmarkStore

  const BarId: string := "1"
  const Forbidden: seq<string> := ["chrome://", "moz-extension://", "edge://"]

  /** The page guard and the tab filter accept a URL iff it is non-empty and is not a
      chrome://, moz-extension:// or edge:// page. */
  lemma ForbiddenSchemes(url: string)
    ensures Bookmarkable(url, Forbidden) <==>
      url != "" && !StartsWith(url, "chrome://") && !StartsWith(url, "moz-extension://")
      && !StartsWith(url, "edge://")
  {
    assert Forbidden[0] == "chrome://" && Forbidden[1] == "moz-extension://" && Forbidden[2] == "edge://";
  }

  /** bookmarkCurrentPage: the page goes to index 0 of the bar. */
  method BookmarkCurrentPage(store: Store, tab: Tab, hostname: string -> Option<string>) returns (r: Outcome)
    requires store.Valid()
    modifies store
    ensures store.Valid()
    ensures r == Failed(CannotBookmarkPage) <==> !Bookmarkable(tab.url, Forbidden)
    ensures r.Failed? ==> store.children == old(store.children)
    ensures r.Filed? ==> false
    ensures r.Bookmarked? ==>
      TabTitle(tab, hostname).Some? && r.item.title == TabTitle(tab, hostname).value
      && r.item.url == Some(tab.url) && BarId in old(store.children)
      && store.children == Added(old(store.children), BarId, r.item, true)
  {
    r := store.BookmarkPage(tab, Forbidden, hostname, BarId, true);
  }

  /** bookmarkCurrentPageWithFolder: a child of the bar without a URL titled exactly
      `folderName` is reused, or such a folder is created at index 0 of the bar; the
      page goes to index 0 of the folder. */
  method BookmarkCurrentPageWithFolder(store: Store, tab: Tab, folderName: string,
                                       hostname: string -> Option<string>)
    returns (r: Outcome, ghost folder: Option<Item>)
    requires store.Valid()
    modifies store
    ensures store.Valid()
    ensures r == Failed(CannotBookmarkPage) <==> !Bookmarkable(tab.url, Forbidden)
    ensures r == Failed(CannotBookmarkPage) ==> store.children == old(store.children)
    ensures r.Filed? ==> false
    ensures r.Failed? ==> r.reason == CannotBookmarkPage || r.reason == HostFailure
    ensures r == Failed(HostFailure) ==> FolderLeftBehind(old(store.children), store.children, BarId, folderName, folder)
    ensures r.Bookmarked? ==>
      BarId in old(store.children) && folder.Some? && folder.value.title == folderName
      && !ItemHasUrl(folder.value) && TabTitle(tab, hostname).Some?
      && r.item.title == TabTitle(tab, hostname).value && r.item.url == Some(tab.url)
      && match FindFolder(old(store.children)[BarId], folderName)
         case Some(k) =>
           folder.value == old(store.children)[BarId][k] && folder.value.id in old(store.children)
           && store.children == Added(old(store.children), folder.value.id, r.item, true)
         case None =>
           folder.value.id !in old(store.children) && folder.value.url.None?
           && store.children == Added(Added(old(store.children), BarId, folder.value, true), folder.value.id, r.item, true)
  {
    r, folder := store.BookmarkPageInFolder(tab, Forbidden, hostname, BarId, folderName);
  }

  /** bookmarkAllTabs: the valid tabs go into a new folder "All Tabs - <date>" at
      index 0 of the bar, each at index 0 of the folder. */
  method BookmarkAllTabs(store: Store, tabs: seq<Tab>, date: string, hostname: string -> Option<string>)
    returns (r: Outcome, ghost oks: seq<bool>, ghost made: seq<Item>)
    requires store.Valid()
    modifies store
    ensures store.Valid()
    ensures r == Failed(NoValidTabs) <==> ValidTabs(tabs, Forbidden) == []
    ensures r.Failed? ==> store.children == old(store.children)
    ensures r.Bookmarked? ==> false
    ensures r.Filed? ==>
      NewFolderFilled(old(store.children), store.children, BarId, "All Tabs - " + date,
                      TabCandidates(ValidTabs(tabs, Forbidden), hostname), r.folder, r.count, r.errors,
                      oks, made, true, true)
  {
    r, oks, made := store.BookmarkTabs(tabs, Forbidden, hostname, BarId, "All Tabs - " + date, true, true);
  }

  /** processAndBookmark: the processed URLs go into a new folder at index 0 of the
      bar, each at index 0 of the folder, so the last URL of the text comes first. */
  method ProcessAndBookmark(store: Store, text: string, folderName: string, hostname: string -> Option<string>)
    returns (r: Outcome, ghost oks: seq<bool>, ghost made: seq<Item>)
    requires store.Valid()
    modifies store
    ensures store.Valid()
    ensures r == Failed(NoValidUrls) <==> NormalizeText(text, Standard, hostname) == []
    ensures r.Failed? ==> store.children == old(store.children)
    ensures r.Bookmarked? ==> false
    ensures r.Filed? ==>
      NewFolderFilled(old(store.children), store.children, BarId, FolderNameOr(folderName),
                      EntryCandidates(NormalizeText(text, Standard, hostname)), r.folder, r.count, r.errors,
                      oks, made, true, true)
  {
    var entries := ProcessUrls(text, Standard, hostname);
    r, oks, made := store.FileEntries(entries, BarId, folderName, true, true);
  }

  /** getBookmarkFolders: a tree that could not be read still answers with the four
      suggestions, in their own (unsorted) order. */
  function ChromeFolders(tree: Option<seq<Node>>): seq<Folder>
  {
    match tree
    case None => Suggestions()
    case Some(t) => FolderListing(t, IdIs(BarId), Always)
  }

  method GetBookmarkFolders(tree: Option<seq<Node>>) returns (folders: seq<Folder>)
    ensures folders == ChromeFolders(tree)
  {
    if tree.None? {
      return Suggestions();
    }
    folders := ListBarFolders(tree.value, IdIs(BarId), Always);
  }

  /** Every answer holds the four suggestions; with a tree it is sorted and has one
      more entry per folder child of node "1"; without one it is not sorted. */
  lemma ChromeFoldersShape(tree: Option<seq<Node>>)
    ensures forall s :: s in Suggestions() ==> s in ChromeFolders(tree)
    ensures tree.Some? ==>
      SortedByTitle(ChromeFolders(tree))
      && |ChromeFolders(tree)| == |BarFolders(FindBar(tree.value, IdIs(BarId)), None)| + 4
    ensures tree.None? ==> !SortedByTitle(ChromeFolders(tree))
  {
    if tree.Some? {
      AlwaysListing(tree.value, IdIs(BarId));
    } else {
      assert !LexLe("Work", "Personal");
      assert !TitleLe(Suggestions()[1], Suggestions()[2]);
    }
  }

  // ---------------------------------------------------------------------------
  // exportBookmarksToWebApp

  function LinkUrl(n: Node): string {
    if n.url.Some? then n.url.value else ""
  }

  function UrlList(ns: seq<Node>): seq<string> {
    seq(|ns|, k requires 0 <= k < |ns| => LinkUrl(ns[k]))
  }

  lemma UrlListAppend(a: seq<Node>, b: seq<Node>)
    ensures UrlList(a + b) == UrlList(a) + UrlList(b)
  {
    assert forall k :: 0 <= k < |a + b| ==> UrlList(a + b)[k] == (UrlList(a) + UrlList(b))[k];
  }

  lemma UrlListEmpty(nodes: seq<Node>)
    ensures UrlList(PreorderLinks(nodes[..0])) == []
  {
    assert nodes[..0] == [];
  }

  /** One more node of the walk adds its own URL, then the URLs below it. */
  lemma ExtractStep(urls: seq<string>, nodes: seq<Node>, i: nat, start: seq<string>, mid: seq<string>, out: seq<string>)
    requires i < |nodes|
    requires start == urls + UrlList(PreorderLinks(nodes[..i]))
    requires mid == start + (if HasUrl(nodes[i]) then [nodes[i].url.value] else [])
    requires out == mid + (if nodes[i].hasChildren then UrlList(PreorderLinks(nodes[i].children)) else [])
    ensures out == urls + UrlList(PreorderLinks(nodes[..i + 1]))
  {
    var node := nodes[i];
    var before := PreorderLinks(nodes[..i]);
    var own := if HasUrl(node) then [node] else [];
    var below := if node.hasChildren then PreorderLinks(node.children) else [];
    assert PreorderLinks(nodes[..i + 1]) == before + (own + below) by {
      assert nodes[..i + 1] == nodes[..i] + [node];
      PreorderLinksAppend(nodes[..i], [node]);
      PreorderLinksSingle(node);
    }
    UrlListAppend(before, own + below);
    UrlListAppend(own, below);
    assert UrlList(own) == if HasUrl(node) then [node.url.value] else [];
    assert UrlList(below) == if node.hasChildren then UrlList(PreorderLinks(node.children)) else [];
    SeqAssoc(urls, UrlList(before), UrlList(own));
    SeqAssoc(urls + UrlList(before), UrlList(own), UrlList(below));
    SeqAssoc(urls, UrlList(before), UrlList(own) + UrlList(below));
  }

  /** extractUrls: pushes the URL of every node that has one, a node before its
      children. */
  method ExtractUrls(nodes: seq<Node>, urls: seq<string>) returns (out: seq<string>)
    ensures out == urls + UrlList(PreorderLinks(nodes))
    decreases nodes
  {
    out := urls;
    UrlListEmpty(nodes);
    var i := 0;
    while i < |nodes|
      invariant 0 <= i <= |nodes|
      invariant out == urls + UrlList(PreorderLinks(nodes[..i]))
    {
      var node := nodes[i];
      assert node in nodes;
      ghost var start := out;
      if HasUrl(node) {
        out := out + [node.url.value];
      }
      ghost var mid := out;
      if node.hasChildren {
        out := ExtractUrls(node.children, out);
      }
      ExtractStep(urls, nodes, i, start, mid, out);
      i := i + 1;
    }
    assert nodes[..i] == nodes;
  }

  /** The export's answer: the URLs joined with '\n' and their number, or
      `success: false` when the tree could not be read. */
  datatype Export = Exported(urls: string, count: nat) | ExportFailed

  method ExportBookmarksToWebApp(tree: Option<seq<Node>>) returns (r: Export)
    ensures tree.None? ==> r == ExportFailed
    ensures tree.Some? ==>
      r == Exported(Join(UrlList(PreorderLinks(tree.value)), '\n'), |PreorderLinks(tree.value)|)
  {
    if tree.None? {
      return ExportFailed;
    }
    var urls := ExtractUrls(tree.value, []);
    assert urls == UrlList(PreorderLinks(tree.value));
    r := Exported(Join(urls, '\n'), |urls|);
  }

  /** When no URL holds a line break and the tree has a link, the exported text
      splits back into exactly `count` URLs, each the URL of a node of the tree, in
      the walk's order. */
  lemma ExportedUrlsRoundTrip(tree: seq<Node>)
    requires PreorderLinks(tree) != []
    requires forall n :: n in PreorderLinks(tree) ==> '\n' !in LinkUrl(n)
    ensures var urls := UrlList(PreorderLinks(tree));
      Split(Join(urls, '\n'), '\n') == urls && |urls| == |PreorderLinks(tree)|
      && forall k :: 0 <= k < |urls| ==>
           exists n :: InForest(n, tree) && HasUrl(n) && urls[k] == n.url.value
  {
    var links := PreorderLinks(tree);
    var urls := UrlList(links);
    assert forall k :: 0 <= k < |links| ==> links[k] in links;
    SplitJoin(urls, '\n');
    forall k | 0 <= k < |urls|
      ensures exists n :: InForest(n, tree) && HasUrl(n) && urls[k] == n.url.value
    {
      PreorderLinksAreTheLinks(tree, links[k]);
    }
  }
}
