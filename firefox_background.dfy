/** The Firefox background script (firefox/background.js): every handler first reads
    the tree to find the toolbar (by title or by the id 'toolbar_____'), the refused
    pages are about: and moz-extension:// ones, and the folder listing adds the
    suggestions only when the toolbar has no folder. */
module FirefoxBackground {
  import opened Options
  import opened Strings
  import opened UrlNormalizer
  import opened Bookmarks
  import opened BookmarkStore

  const FallbackToolbarId: string := "toolbar_____"
  const Forbidden: seq<string> := ["about:", "moz-extension://"]

  /** `bookmarkBar ? bookmarkBar.id : 'toolbar_____'`. */
  function ToolbarId(tree: seq<Node>): string
  {
    match FindBar(tree, FirefoxToolbar)
    case Some(bar) => bar.id
    case None => FallbackToolbarId
  }

  /** The toolbar is the first root child, in child order, titled 'Bookmarks
      Toolbar' or with id 'toolbar_____'; without one the constant id is used. */
  lemma ToolbarIdIsFirstMatch(tree: seq<Node>)
    ensures match RootChildren(tree)
      case Some(cs) =>
        (exists i :: 0 <= i < |cs| && IsBar(FirefoxToolbar, cs[i])
           && ToolbarId(tree) == cs[i].id
           && forall j :: 0 <= j < i ==> cs[j].title != "Bookmarks Toolbar" && cs[j].id != "toolbar_____")
        || ((forall j :: 0 <= j < |cs| ==> cs[j].title != "Bookmarks Toolbar" && cs[j].id != "toolbar_____")
            && ToolbarId(tree) == "toolbar_____")
      case None => ToolbarId(tree) == "toolbar_____"
  {
    match RootChildren(tree)
    case None =>
    case Some(cs) =>
      match FindFirst(cs, FirefoxToolbar)
      case None =>
      case Some(i) =>
        assert IsBar(FirefoxToolbar, cs[i]) && ToolbarId(tree) == cs[i].id;
  }

  /** A root child with id 'toolbar_____' makes that the toolbar id unless a child
      before it is titled 'Bookmarks Toolbar'. */
  lemma ToolbarIdOfFirefoxTree(tree: seq<Node>, i: nat)
    requires RootChildren(tree).Some? && i < |RootChildren(tree).value|
    requires RootChildren(tree).value[i].id == "toolbar_____"
    requires forall j :: 0 <= j < i ==> RootChildren(tree).value[j].title != "Bookmarks Toolbar"
    ensures ToolbarId(tree) == "toolbar_____"
  {
    var cs := RootChildren(tree).value;
    var k := FindFirst(cs, FirefoxToolbar);
    assert k.Some? && k.value <= i;
  }

  /** Tabs with an empty URL or an about: or moz-extension:// URL are excluded. */
  lemma ForbiddenPages(url: string)
    ensures Bookmarkable(url, Forbidden) <==>
      url != "" && !StartsWith(url, "about:") && !StartsWith(url, "moz-extension://")
  {
    assert Forbidden[0] == "about:" && Forbidden[1] == "moz-extension://";
  }

  /** bookmarkCurrentPage: the guard, then the title, then the tree read for the
      toolbar id; the page goes to index 0 of the toolbar. */
  method BookmarkCurrentPage(store: Store, tree: Option<seq<Node>>, tab: Tab, hostname: string -> Option<string>)
    returns (r: Outcome)
    requires store.Valid()
    modifies store
    ensures store.Valid()
    ensures r == Failed(CannotBookmarkPage) <==> !Bookmarkable(tab.url, Forbidden)
    ensures r.Failed? ==> store.children == old(store.children)
    ensures r.Filed? ==> false
    ensures r.Bookmarked? ==>
      tree.Some? && TabTitle(tab, hostname).Some? && r.item.title == TabTitle(tab, hostname).value
      && r.item.url == Some(tab.url) && ToolbarId(tree.value) in old(store.children)
      && store.children == Added(old(store.children), ToolbarId(tree.value), r.item, true)
  {
    if !Bookmarkable(tab.url, Forbidden) {
      return Failed(CannotBookmarkPage);
    }
    if TabTitle(tab, hostname).None? || tree.None? {
      return Failed(HostFailure);
    }
    r := store.BookmarkPage(tab, Forbidden, hostname, ToolbarId(tree.value), true);
  }

  /** bookmarkCurrentPageWithFolder under the resolved toolbar: exact title among the
      toolbar's children without a URL, a new folder at index 0, the page at index 0. */
  method BookmarkCurrentPageWithFolder(store: Store, tree: Option<seq<Node>>, tab: Tab, folderName: string,
                                       hostname: string -> Option<string>)
    returns (r: Outcome, ghost folder: Option<Item>)
    requires store.Valid()
    modifies store
    ensures store.Valid()
    ensures r == Failed(CannotBookmarkPage) <==> !Bookmarkable(tab.url, Forbidden)
    ensures r == Failed(CannotBookmarkPage) ==> store.children == old(store.children)
    ensures r.Filed? ==> false
    ensures r.Failed? ==> r.reason == CannotBookmarkPage || r.reason == HostFailure
    ensures r == Failed(HostFailure) ==>
      store.children == old(store.children)
      || (tree.Some? && FolderLeftBehind(old(store.children), store.children, ToolbarId(tree.value), folderName, folder))
    ensures r.Bookmarked? ==>
      tree.Some? && ToolbarId(tree.value) in old(store.children)
      && folder.Some? && folder.value.title == folderName
      && !ItemHasUrl(folder.value) && TabTitle(tab, hostname).Some?
      && r.item.title == TabTitle(tab, hostname).value && r.item.url == Some(tab.url)
      && match FindFolder(old(store.children)[ToolbarId(tree.value)], folderName)
         case Some(k) =>
           folder.value == old(store.children)[ToolbarId(tree.value)][k] && folder.value.id in old(store.children)
           && store.children == Added(old(store.children), folder.value.id, r.item, true)
         case None =>
           folder.value.id !in old(store.children) && folder.value.url.None?
           && store.children
              == Added(Added(old(store.children), ToolbarId(tree.value), folder.value, true), folder.value.id, r.item, true)
  {
    folder := None;
    if !Bookmarkable(tab.url, Forbidden) {
      return Failed(CannotBookmarkPage), folder;
    }
    if TabTitle(tab, hostname).None? || tree.None? {
      return Failed(HostFailure), folder;
    }
    r, folder := store.BookmarkPageInFolder(tab, Forbidden, hostname, ToolbarId(tree.value), folderName);
  }

  /** bookmarkAllTabs: the filter runs before the tree is read. */
  method BookmarkAllTabs(store: Store, tree: Option<seq<Node>>, tabs: seq<Tab>, date: string,
                         hostname: string -> Option<string>)
    returns (r: Outcome, ghost oks: seq<bool>, ghost made: seq<Item>)
    requires store.Valid()
    modifies store
    ensures store.Valid()
    ensures r == Failed(NoValidTabs) <==> ValidTabs(tabs, Forbidden) == []
    ensures r.Failed? ==> store.children == old(store.children)
    ensures r.Bookmarked? ==> false
    ensures r.Filed? ==>
      tree.Some?
      && NewFolderFilled(old(store.children), store.children, ToolbarId(tree.value), "All Tabs - " + date,
                         TabCandidates(ValidTabs(tabs, Forbidden), hostname), r.folder, r.count, r.errors,
                         oks, made, true, true)
  {
    if ValidTabs(tabs, Forbidden) == [] {
      return Failed(NoValidTabs), [], [];
    }
    if tree.None? {
      return Failed(HostFailure), [], [];
    }
    r, oks, made := store.BookmarkTabs(tabs, Forbidden, hostname, ToolbarId(tree.value), "All Tabs - " + date, true, true);
  }

  /** processAndBookmark: "No valid URLs found" comes before the tree is read; each
      entry goes to index 0 of the new folder. */
  method ProcessAndBookmark(store: Store, tree: Option<seq<Node>>, text: string, folderName: string,
                            hostname: string -> Option<string>)
    returns (r: Outcome, ghost oks: seq<bool>, ghost made: seq<Item>)
    requires store.Valid()
    modifies store
    ensures store.Valid()
    ensures r == Failed(NoValidUrls) <==> NormalizeText(text, Standard, hostname) == []
    ensures r.Failed? ==> store.children == old(store.children)
    ensures r.Bookmarked? ==> false
    ensures r.Filed? ==>
      tree.Some?
      && NewFolderFilled(old(store.children), store.children, ToolbarId(tree.value), FolderNameOr(folderName),
                         EntryCandidates(NormalizeText(text, Standard, hostname)), r.folder, r.count, r.errors,
                         oks, made, true, true)
  {
    var entries := ProcessUrls(text, Standard, hostname);
    if entries == [] {
      return Failed(NoValidUrls), [], [];
    }
    if tree.None? {
      return Failed(HostFailure), [], [];
    }
    r, oks, made := store.FileEntries(entries, ToolbarId(tree.value), folderName, true, true);
  }

  /** Each bookmark goes to index 0 of the new folder, so the folder lists the made
      bookmarks last first: the last processed URL ends up at index 0. */
  lemma LastProcessedFirst(before: map<string, seq<Item>>, after: map<string, seq<Item>>, tree: seq<Node>,
                           text: string, folderName: string, hostname: string -> Option<string>,
                           folder: Item, count: nat, errors: seq<string>, oks: seq<bool>, made: seq<Item>)
    requires NewFolderFilled(before, after, ToolbarId(tree), FolderNameOr(folderName),
                             EntryCandidates(NormalizeText(text, Standard, hostname)), folder, count, errors,
                             oks, made, true, true)
    ensures folder.id in after && |after[folder.id]| == count
    ensures forall k :: 0 <= k < count ==> after[folder.id][k] == made[count - 1 - k]
    ensures count > 0 ==> after[folder.id][0] == made[count - 1]
  {
    NewFolderContents(before, after, ToolbarId(tree), FolderNameOr(folderName),
                      EntryCandidates(NormalizeText(text, Standard, hostname)), folder, count, errors,
                      oks, made, true, true);
  }

  /** getBookmarkFolders. */
  function FirefoxFolders(tree: Option<seq<Node>>): FolderAnswer
  {
    AnswerOf(tree, FirefoxToolbar, WhenEmpty)
  }

  method GetBookmarkFolders(tree: Option<seq<Node>>) returns (r: FolderAnswer)
    ensures r == FirefoxFolders(tree)
  {
    r := AnswerFolders(tree, FirefoxToolbar, WhenEmpty);
  }

  /** The listing fails iff the tree could not be read; otherwise it is sorted, and
      it is the four suggestions exactly when the toolbar has no folder child. */
  lemma FirefoxFoldersShape(tree: Option<seq<Node>>)
    ensures FirefoxFolders(tree).NotListed? <==> tree.None?
    ensures tree.Some? ==>
      var found := BarFolders(FindBar(tree.value, FirefoxToolbar), None);
      var l := FirefoxFolders(tree).folders;
      SortedByTitle(l)
      && (found == [] ==> multiset(l) == multiset(Suggestions()))
      && (found != [] ==> |l| == |found| && forall f :: f in l ==> !f.isSuggestion)
  {
    if tree.Some? {
      WhenEmptyListing(tree.value, FirefoxToolbar);
    }
  }
}
