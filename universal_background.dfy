/** The cross-browser background script (background-universal.js): the bar id and
    the refused schemes depend on whether the host is Firefox, the folder listing
    adds the suggestions only when the bar has no folder, and a failed listing
    answers `success: false`. */
module UniversalBackground {
  import opened Options
  import opened Strings
  import opened UrlNormalizer
  import opened Bookmarks
  import opened BookmarkStore

  /** What `BrowserAPI.isFirefox` distinguishes. */
  datatype Platform = Firefox | OtherBrowser

  /** getBookmarkBarId. */
  function BarId(p: Platform): string
  {
    if p == Firefox then "toolbar_____" else "1"
  }

  /** Firefox's toolbar and the other browsers' bookmarks bar are different nodes. */
  lemma BarIdByPlatform(p: Platform)
    ensures BarId(p) == "toolbar_____" <==> p == Firefox
    ensures BarId(p) == "1" <==> p == OtherBrowser
  {
    assert |"toolbar_____"| != |"1"|;
  }

  /** `invalidProtocols`: the scheme prefixes a page URL must not start with. */
  function InvalidProtocols(p: Platform): seq<string>
  {
    if p == Firefox then ["about:", "moz-extension:"] else ["chrome:", "moz-extension:", "edge:"]
  }

  /** A tab is bookmarkable iff its URL is non-empty and, on Firefox, starts with
      neither `about:` nor `moz-extension:`, and elsewhere with none of `chrome:`,
      `moz-extension:` and `edge:`. */
  lemma TabFilterByPlatform(p: Platform, url: string)
    ensures Bookmarkable(url, InvalidProtocols(p)) <==>
      url != "" && !StartsWith(url, "moz-extension:")
      && (if p == Firefox then !StartsWith(url, "about:")
          else !StartsWith(url, "chrome:") && !StartsWith(url, "edge:"))
  {
    var ps := InvalidProtocols(p);
    if p == Firefox {
      assert ps[0] == "about:" && ps[1] == "moz-extension:";
    } else {
      assert ps[0] == "chrome:" && ps[1] == "moz-extension:" && ps[2] == "edge:";
    }
  }

  /** The refused prefixes never catch a web page: `http://` and `https://` URLs
      pass on every platform. */
  lemma WebPagesPass(p: Platform, url: string)
    requires StartsWith(url, "http://") || StartsWith(url, "https://")
    ensures Bookmarkable(url, InvalidProtocols(p))
  {
    TabFilterByPlatform(p, url);
    assert url[0] == 'h';
  }

  method BookmarkCurrentPage(store: Store, p: Platform, tab: Tab, hostname: string -> Option<string>)
    returns (r: Outcome)
    requires store.Valid()
    modifies store
    ensures store.Valid()
    ensures r == Failed(CannotBookmarkPage) <==> !Bookmarkable(tab.url, InvalidProtocols(p))
    ensures r.Failed? ==> store.children == old(store.children)
    ensures r.Filed? ==> false
    ensures r.Bookmarked? ==>
      TabTitle(tab, hostname).Some? && r.item.title == TabTitle(tab, hostname).value
      && r.item.url == Some(tab.url) && BarId(p) in old(store.children)
      && store.children == Added(old(store.children), BarId(p), r.item, true)
  {
    r := store.BookmarkPage(tab, InvalidProtocols(p), hostname, BarId(p), true);
  }

  /** bookmarkCurrentPageWithFolder: find-or-create by exact title among the bar's
      children without a URL, a new folder at index 0, the page at index 0 of it. */
  method BookmarkCurrentPageWithFolder(store: Store, p: Platform, tab: Tab, folderName: string,
                                       hostname: string -> Option<string>)
    returns (r: Outcome, ghost folder: Option<Item>)
    requires store.Valid()
    modifies store
    ensures store.Valid()
    ensures r == Failed(CannotBookmarkPage) <==> !Bookmarkable(tab.url, InvalidProtocols(p))
    ensures r == Failed(CannotBookmarkPage) ==> store.children == old(store.children)
    ensures r.Filed? ==> false
    ensures r.Failed? ==> r.reason == CannotBookmarkPage || r.reason == HostFailure
    ensures r == Failed(HostFailure) ==> FolderLeftBehind(old(store.children), store.children, BarId(p), folderName, folder)
    ensures r.Bookmarked? ==>
      BarId(p) in old(store.children) && folder.Some? && folder.value.title == folderName
      && !ItemHasUrl(folder.value) && TabTitle(tab, hostname).Some?
      && r.item.title == TabTitle(tab, hostname).value && r.item.url == Some(tab.url)
      && match FindFolder(old(store.children)[BarId(p)], folderName)
         case Some(k) =>
           folder.value == old(store.children)[BarId(p)][k] && folder.value.id in old(store.children)
           && store.children == Added(old(store.children), folder.value.id, r.item, true)
         case None =>
           folder.value.id !in old(store.children) && folder.value.url.None?
           && store.children == Added(Added(old(store.children), BarId(p), folder.value, true), folder.value.id, r.item, true)
  {
    r, folder := store.BookmarkPageInFolder(tab, InvalidProtocols(p), hostname, BarId(p), folderName);
  }

  /** bookmarkAllTabs: with no valid tab nothing is created; otherwise the valid tabs
      go into a new folder at index 0 of the bar, each at index 0. */
  method BookmarkAllTabs(store: Store, p: Platform, tabs: seq<Tab>, date: string,
                         hostname: string -> Option<string>)
    returns (r: Outcome, ghost oks: seq<bool>, ghost made: seq<Item>)
    requires store.Valid()
    modifies store
    ensures store.Valid()
    ensures r == Failed(NoValidTabs) <==> ValidTabs(tabs, InvalidProtocols(p)) == []
    ensures r.Failed? ==> store.children == old(store.children)
    ensures r.Bookmarked? ==> false
    ensures r.Filed? ==>
      NewFolderFilled(old(store.children), store.children, BarId(p), "All Tabs - " + date,
                      TabCandidates(ValidTabs(tabs, InvalidProtocols(p)), hostname), r.folder, r.count, r.errors,
                      oks, made, true, true)
  {
    r, oks, made := store.BookmarkTabs(tabs, InvalidProtocols(p), hostname, BarId(p), "All Tabs - " + date, true, true);
  }

  /** processAndBookmark: the folder at index 0 of the bar, every entry at index 0 of
      the folder. */
  method ProcessAndBookmark(store: Store, p: Platform, text: string, folderName: string,
                            hostname: string -> Option<string>)
    returns (r: Outcome, ghost oks: seq<bool>, ghost made: seq<Item>)
    requires store.Valid()
    modifies store
    ensures store.Valid()
    ensures r == Failed(NoValidUrls) <==> NormalizeText(text, Standard, hostname) == []
    ensures r.Failed? ==> store.children == old(store.children)
    ensures r.Bookmarked? ==> false
    ensures r.Filed? ==>
      NewFolderFilled(old(store.children), store.children, BarId(p), FolderNameOr(folderName),
                      EntryCandidates(NormalizeText(text, Standard, hostname)), r.folder, r.count, r.errors,
                      oks, made, true, true)
  {
    var entries := ProcessUrls(text, Standard, hostname);
    r, oks, made := store.FileEntries(entries, BarId(p), folderName, true, true);
  }

  /** getBookmarkFolders: the bar is found by id only. */
  function UniversalFolders(p: Platform, tree: Option<seq<Node>>): FolderAnswer
  {
    AnswerOf(tree, IdIs(BarId(p)), WhenEmpty)
  }

  method GetBookmarkFolders(p: Platform, tree: Option<seq<Node>>) returns (r: FolderAnswer)
    ensures r == UniversalFolders(p, tree)
  {
    r := AnswerFolders(tree, IdIs(BarId(p)), WhenEmpty);
  }

  /** The listing fails iff the tree could not be read; otherwise it is sorted, it
      is the four suggestions when the bar has no folder child, and it holds no
      suggestion when it has one. */
  lemma UniversalFoldersShape(p: Platform, tree: Option<seq<Node>>)
    ensures UniversalFolders(p, tree).NotListed? <==> tree.None?
    ensures tree.Some? ==>
      var found := BarFolders(FindBar(tree.value, IdIs(BarId(p))), None);
      var l := UniversalFolders(p, tree).folders;
      SortedByTitle(l)
      && (found == [] ==> multiset(l) == multiset(Suggestions()))
      && (found != [] ==> |l| == |found| && forall f :: f in l ==> !f.isSuggestion)
  {
    if tree.Some? {
      WhenEmptyListing(tree.value, IdIs(BarId(p)));
    }
  }
}
