/** The original background script (background.js): the page guard refuses two
    schemes and the tab filter three; folders go to index 0 of the bar "1" but the
    bookmarks of the bulk handlers are created without an index, so they are
    appended in processing order. */
module LegacyBackground {
  import opened Options
  import opened Strings
  import opened UrlNormalizer
  import opened Bookmarks
  import opened BookmarkStore

  const BarId: string := "1"
  const PageForbidden: seq<string> := ["chrome://", "moz-extension://"]
  const TabForbidden: seq<string> := ["chrome://", "moz-extension://", "edge://"]

  /** bookmarkCurrentPage rejects an empty URL and chrome:// and moz-extension://
      pages; edge:// pages pass its guard, though the tab filter drops them. */
  lemma GuardsDiffer(url: string)
    ensures Bookmarkable(url, PageForbidden) <==>
      url != "" && !StartsWith(url, "chrome://") && !StartsWith(url, "moz-extension://")
    ensures Bookmarkable(url, TabForbidden) <==>
      Bookmarkable(url, PageForbidden) && !StartsWith(url, "edge://")
  {
    assert PageForbidden[0] == "chrome://" && PageForbidden[1] == "moz-extension://";
    assert TabForbidden[0] == "chrome://" && TabForbidden[1] == "moz-extension://" && TabForbidden[2] == "edge://";
  }

  method BookmarkCurrentPage(store: Store, tab: Tab, hostname: string -> Option<string>) returns (r: Outcome)
    requires store.Valid()
    modifies store
    ensures store.Valid()
    ensures r == Failed(CannotBookmarkPage) <==> !Bookmarkable(tab.url, PageForbidden)
    ensures r.Failed? ==> store.children == old(store.children)
    ensures r.Filed? ==> false
    ensures r.Bookmarked? ==>
      TabTitle(tab, hostname).Some? && r.item.title == TabTitle(tab, hostname).value
      && r.item.url == Some(tab.url) && BarId in old(store.children)
      && store.children == Added(old(store.children), BarId, r.item, true)
  {
    r := store.BookmarkPage(tab, PageForbidden, hostname, BarId, true);
  }

  method BookmarkCurrentPageWithFolder(store: Store, tab: Tab, folderName: string,
                                       hostname: string -> Option<string>)
    returns (r: Outcome, ghost folder: Option<Item>)
    requires store.Valid()
    modifies store
    ensures store.Valid()
    ensures r == Failed(CannotBookmarkPage) <==> !Bookmarkable(tab.url, PageForbidden)
    ensures r == Failed(CannotBookmarkPage) ==> store.children == old(store.children)
    ensures r.Filed? ==> false
    ensures r.Failed? ==> r.reason == CannotBookmarkPage || r.reason == HostFailure
    ensures r == Failed(HostFailure) ==> FolderLeftBehind(old(store.children), store.children, BarId, folderName, folder)
    ensures r.Bookmarked? ==>
      BarId in old(store.children) && folder.Some? && folder.value.title == folderName
      && !ItemHasUrl(folder.value) && TabTitle(tab, hostname).Some?
      && r.item.title == TabTitle(tab, hostname).value && r.item.url == Some(tab.url)
      && match FindFolder(old(store.children)[BarId], folderName)
         case Some(k) =>
           folder.value == old(store.children)[BarId][k] && folder.value.id in old(store.children)
           && store.children == Added(old(store.children), folder.value.id, r.item, true)
         case None =>
           folder.value.id !in old(store.children) && folder.value.url.None?
           && store.children == Added(Added(old(store.children), BarId, folder.value, true), folder.value.id, r.item, true)
  {
    r, folder := store.BookmarkPageInFolder(tab, PageForbidden, hostname, BarId, folderName);
  }

  /** bookmarkAllTabs: the folder at index 0 of the bar, the tabs appended to it. */
  method BookmarkAllTabs(store: Store, tabs: seq<Tab>, date: string, hostname: string -> Option<string>)
    returns (r: Outcome, ghost oks: seq<bool>, ghost made: seq<Item>)
    requires store.Valid()
    modifies store
    ensures store.Valid()
    ensures r == Failed(NoValidTabs) <==> ValidTabs(tabs, TabForbidden) == []
    ensures r.Failed? ==> store.children == old(store.children)
    ensures r.Bookmarked? ==> false
    ensures r.Filed? ==>
      NewFolderFilled(old(store.children), store.children, BarId, "All Tabs - " + date,
                      TabCandidates(ValidTabs(tabs, TabForbidden), hostname), r.folder, r.count, r.errors,
                      oks, made, true, false)
  {
    r, oks, made := store.BookmarkTabs(tabs, TabForbidden, hostname, BarId, "All Tabs - " + date, true, false);
  }

  /** processAndBookmark: the folder at index 0 of the bar, the entries appended. */
  method ProcessAndBookmark(store: Store, text: string, folderName: string, hostname: string -> Option<string>)
    returns (r: Outcome, ghost oks: seq<bool>, ghost made: seq<Item>)
    requires store.Valid()
    modifies store
    ensures store.Valid()
    ensures r == Failed(NoValidUrls) <==> NormalizeText(text, Standard, hostname) == []
    ensures r.Failed? ==> store.children == old(store.children)
    ensures r.Bookmarked? ==> false
    ensures r.Filed? ==>
      NewFolderFilled(old(store.children), store.children, BarId, FolderNameOr(folderName),
                      EntryCandidates(NormalizeText(text, Standard, hostname)), r.folder, r.count, r.errors,
                      oks, made, true, false)
  {
    var entries := ProcessUrls(text, Standard, hostname);
    r, oks, made := store.FileEntries(entries, BarId, folderName, true, false);
  }

  /** Appended bookmarks keep the order of the text: the k-th child of the new folder
      is the bookmark made for the k-th successfully created entry. */
  lemma AppendedInOrder(before: map<string, seq<Item>>, after: map<string, seq<Item>>, text: string,
                        folderName: string, hostname: string -> Option<string>, folder: Item, count: nat,
                        errors: seq<string>, oks: seq<bool>, made: seq<Item>)
    requires NewFolderFilled(before, after, BarId, FolderNameOr(folderName),
                             EntryCandidates(NormalizeText(text, Standard, hostname)), folder, count, errors,
                             oks, made, true, false)
    ensures folder.id in after && after[folder.id] == made
    ensures count <= |NormalizeText(text, Standard, hostname)|
  {
    NewFolderContents(before, after, BarId, FolderNameOr(folderName),
                      EntryCandidates(NormalizeText(text, Standard, hostname)), folder, count, errors,
                      oks, made, true, false);
  }

  /** getBookmarkFolders: from node "1" only, suggestions only when it has no folder. */
  function LegacyFolders(tree: Option<seq<Node>>): FolderAnswer
  {
    AnswerOf(tree, IdIs(BarId), WhenEmpty)
  }

  method GetBookmarkFolders(tree: Option<seq<Node>>) returns (r: FolderAnswer)
    ensures r == LegacyFolders(tree)
  {
    r := AnswerFolders(tree, IdIs(BarId), WhenEmpty);
  }

  lemma LegacyFoldersShape(tree: Option<seq<Node>>)
    ensures LegacyFolders(tree).NotListed? <==> tree.None?
    ensures tree.Some? ==>
      var found := BarFolders(FindBar(tree.value, IdIs(BarId)), None);
      var l := LegacyFolders(tree).folders;
      SortedByTitle(l)
      && (found == [] ==> multiset(l) == multiset(Suggestions()))
      && (found != [] ==> |l| == |found| && forall f :: f in l ==> !f.isSuggestion)
  {
    if tree.Some? {
      WhenEmptyListing(tree.value, IdIs(BarId));
    }
  }
}
