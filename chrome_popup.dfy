/** The Chromium popup (chrome-based/popup.js): its folder selector reads the tree
    itself, from every root child that looks like a bookmarks bar, falls back on the
    background script, on a second reading of the tree, on the cache and on five
    default suggestions; and its HTML download runs its own copy of the normaliser,
    whose marker class was saved mis-encoded. */
module ChromePopup {
  import opened Options
  import opened Strings
  import opened Seqs
  import opened UrlNormalizer
  import opened Bookmarks
  import opened NetscapeHtml
  import opened FolderPicker

  // ---------------------------------------------------------------------------
  // getFoldersDirectAPI

  function KeepBar(n: Node): Option<Node> { if IsBar(AnyBarName, n) then Some(n) else None }

  /** `root?.children?.filter(...) || []`: every root child with id "1" or a bar title. */
  function CandidateBars(tree: seq<Node>): seq<Node>
  {
    match RootChildren(tree)
    case None => []
    case Some(cs) => FilterMap(cs, KeepBar)
  }

  /** The folders of the bars in bar order, each tagged with its bar's title. */
  function FoldersOfBars(bars: seq<Node>): seq<Folder>
  {
    if bars == [] then []
    else
      var bar := bars[|bars| - 1];
      FoldersOfBars(bars[..|bars| - 1]) + BarFolders(Some(bar), Some(bar.title))
  }

  /** What getFoldersDirectAPI answers for a tree it could read: the folders of all
      the candidate bars, then the four suggestions, unsorted. */
  function DirectFolders(tree: seq<Node>): seq<Folder>
  {
    FoldersOfBars(CandidateBars(tree)) + Suggestions()
  }

  method GetFoldersDirectApi(tree: Option<seq<Node>>) returns (r: Option<seq<Folder>>)
    ensures r == if tree.Some? then Some(DirectFolders(tree.value)) else None
  {
    if tree.None? {
      return None;
    }
    var bars := CandidateBars(tree.value);
    var folders: seq<Folder> := [];
    var i := 0;
    while i < |bars|
      invariant 0 <= i <= |bars|
      invariant folders == FoldersOfBars(bars[..i])
    {
      var bar := bars[i];
      assert bars[..i + 1][..i] == bars[..i];
      if bar.hasChildren {
        var found := CollectFolders(bar.children, Some(bar.title));
        folders := folders + found;
      }
      i := i + 1;
    }
    assert bars[..i] == bars;
    folders := folders + Suggestions();
    r := Some(folders);
  }

  /** A folder gathered from the bars is the descriptor of a folder child of one of
      them, tagged with that bar's title. */
  lemma {:induction false} FoldersOfBarsMember(bars: seq<Node>, f: Folder)
    requires f in FoldersOfBars(bars)
    ensures exists i, c ::
              0 <= i < |bars| && bars[i].hasChildren
              && c in bars[i].children && IsFolder(c) && f == FolderOf(c, Some(bars[i].title)).value
  {
    var init := bars[..|bars| - 1];
    var bar := bars[|bars| - 1];
    if f in FoldersOfBars(init) {
      FoldersOfBarsMember(init, f);
      var i, c :| 0 <= i < |init| && init[i].hasChildren
        && c in init[i].children && IsFolder(c) && f == FolderOf(c, Some(init[i].title)).value;
      assert bars[i] == init[i];
    } else {
      assert f in BarFolders(Some(bar), Some(bar.title));
      BarFoldersAreFolderChildren(bar, Some(bar.title), f);
    }
  }

  /** The direct listing ends with the four suggestions; every entry before them is a
      real folder, a child of a root child with id "1" or a bar title, tagged with
      that bar's title; and it is cached exactly when there is such a folder. */
  lemma DirectFoldersShape(tree: seq<Node>)
    ensures var d := DirectFolders(tree);
      |d| >= 4 && d[|d| - 4..] == Suggestions()
      && (forall k :: 0 <= k < |d| - 4 ==>
            !d[k].isSuggestion
            && exists bar, c :: bar in RootChildren(tree).value && IsBar(AnyBarName, bar) && bar.hasChildren
                 && c in bar.children && IsFolder(c) && d[k] == FolderOf(c, Some(bar.title)).value)
      && (ShouldCache(d) <==> |d| > 4)
  {
    var d := DirectFolders(tree);
    var bars := CandidateBars(tree);
    var found := FoldersOfBars(bars);
    forall k | 0 <= k < |d| - 4
      ensures !d[k].isSuggestion
      ensures exists bar, c :: bar in RootChildren(tree).value && IsBar(AnyBarName, bar) && bar.hasChildren
                 && c in bar.children && IsFolder(c) && d[k] == FolderOf(c, Some(bar.title)).value
    {
      assert d[k] == found[k] && found[k] in found;
      FoldersOfBarsMember(bars, found[k]);
      var i, c :| 0 <= i < |bars| && bars[i].hasChildren
        && c in bars[i].children && IsFolder(c) && found[k] == FolderOf(c, Some(bars[i].title)).value;
      assert bars[i] in bars;
      FilterMapFrom(RootChildren(tree).value, KeepBar, bars[i]);
    }
    SuggestionsShape();
    assert forall k :: 0 <= k < 4 ==> Suggestions()[k].isSuggestion;
    ShouldCacheIffRealFolder(found, Suggestions());
    if |d| > 4 {
      assert d[0] == found[0] && !d[0].isSuggestion;
    }
  }

  // ---------------------------------------------------------------------------
  // getFoldersAlternativeAPI

  /** A root child is listed by the alternative reading iff it is a folder that holds
      a bookmark directly or whose lower-cased title contains "bookmark". */
  function AltFolder(n: Node): Option<Folder>
  {
    var ls := Links(n.children);
    if IsFolder(n) && (|ls| > 0 || Contains(AsciiLower(n.title), "bookmark"))
    then Some(Folder(n.id, n.title, ls, |ls|, false, None))
    else None
  }

  function AlternativeFolders(tree: seq<Node>): seq<Folder>
  {
    (match RootChildren(tree)
     case None => []
     case Some(cs) => FilterMap(cs, AltFolder))
    + Suggestions()
  }

  method GetFoldersAlternativeApi(tree: Option<seq<Node>>) returns (r: Option<seq<Folder>>)
    ensures r == if tree.Some? then Some(AlternativeFolders(tree.value)) else None
  {
    if tree.None? {
      return None;
    }
    var folders: seq<Folder> := [];
    var root := RootChildren(tree.value);
    if root.Some? {
      var cs := root.value;
      var i := 0;
      while i < |cs|
        invariant 0 <= i <= |cs|
        invariant folders == FilterMap(cs[..i], AltFolder)
      {
        assert cs[..i + 1][..i] == cs[..i];
        var child := cs[i];
        if child.hasChildren && !HasUrl(child) {
          var links := Links(child.children);
          if |links| > 0 || Contains(AsciiLower(child.title), "bookmark") {
            folders := folders + [Folder(child.id, child.title, links, |links|, false, None)];
          }
        }
        i := i + 1;
      }
      assert cs[..i] == cs;
    }
    folders := folders + Suggestions();
    r := Some(folders);
  }

  /** A root child is in the alternative listing, before the suggestions, iff it is a
      folder with a direct bookmark or a title containing "bookmark" in any case of
      its ASCII letters. */
  lemma AlternativeFoldersKeep(tree: seq<Node>, i: nat)
    requires RootChildren(tree).Some? && i < |RootChildren(tree).value|
    ensures var c := RootChildren(tree).value[i];
      var found := AlternativeFolders(tree)[..|AlternativeFolders(tree)| - 4];
      (IsFolder(c) && (|Links(c.children)| > 0 || Contains(AsciiLower(c.title), "bookmark")))
      ==> Folder(c.id, c.title, Links(c.children), |Links(c.children)|, false, None) in found
    ensures forall f :: f in AlternativeFolders(tree)[..|AlternativeFolders(tree)| - 4] ==>
      exists c :: c in RootChildren(tree).value && AltFolder(c) == Some(f)
  {
    var cs := RootChildren(tree).value;
    var found := FilterMap(cs, AltFolder);
    assert AlternativeFolders(tree)[..|AlternativeFolders(tree)| - 4] == found;
    if AltFolder(cs[i]).Some? {
      FilterMapTo(cs, AltFolder, i);
    }
    forall f | f in found ensures exists c :: c in cs && AltFolder(c) == Some(f) {
      FilterMapFrom(cs, AltFolder, f);
    }
  }

  // ---------------------------------------------------------------------------
  // loadDefaultFolders and loadFolders

  /** The four suggestions and a fifth, "Favorites". */
  function DefaultFolders(): seq<Folder>
  {
    Suggestions() + [Suggestion("suggestion-5", "Favorites")]
  }

  /** Five suggestions ending with "Favorites", none with a bookmark, so the default
      list is never cached. */
  lemma DefaultFoldersShape()
    ensures |DefaultFolders()| == 5 && DefaultFolders()[4].title == "Favorites"
    ensures DefaultFolders()[..4] == Suggestions()
    ensures forall f :: f in DefaultFolders() ==> f.isSuggestion && f.bookmarkCount == 0
    ensures !ShouldCache(DefaultFolders())
  {
    SuggestionsShape();
    assert DefaultFolders()[..4] == Suggestions();
  }

  /** The list loadFolders settles on, first source first: the extension context
      must be valid; then the direct reading, the background's answer, the second
      reading and the cache are tried in turn, each kept when it gives a non-empty
      list (an answer from the background is kept even when empty); then the five
      defaults. */
  function LoadChoice(contextValid: bool, tree: Option<seq<Node>>, background: Option<seq<Folder>>,
                      altTree: Option<seq<Node>>, cache: Cache, now: int): seq<Folder>
  {
    if !contextValid then DefaultFolders()
    else if tree.Some? && |DirectFolders(tree.value)| > 0 then DirectFolders(tree.value)
    else if background.Some? then background.value
    else if altTree.Some? && |AlternativeFolders(altTree.value)| > 0 then AlternativeFolders(altTree.value)
    else match CachedFolders(cache, now)
      case Some(fs) => if |fs| > 0 then fs else DefaultFolders()
      case None => DefaultFolders()
  }

  /** loadFolders: the sources in turn, the chosen list shown and, by the guard,
      cached. */
  method LoadFolders(picker: Picker, contextValid: bool, tree: Option<seq<Node>>, background: Option<seq<Folder>>,
                     altTree: Option<seq<Node>>, now: int)
    modifies picker
    ensures picker.folders == LoadChoice(contextValid, tree, background, altTree, old(picker.cache), now)
    ensures picker.rendered == picker.folders
    ensures picker.cache == if ShouldCache(picker.folders) then Cache(Some(picker.folders), Some(now)) else old(picker.cache)
  {
    if !contextValid {
      picker.Show(DefaultFolders(), now);
      return;
    }
    var folders := GetFoldersDirectApi(tree);
    if folders.Some? && |folders.value| > 0 {
      picker.Show(folders.value, now);
      return;
    }
    if background.Some? {
      picker.Show(background.value, now);
      return;
    }
    var altFolders := GetFoldersAlternativeApi(altTree);
    if altFolders.Some? && |altFolders.value| > 0 {
      picker.Show(altFolders.value, now);
      return;
    }
    var cachedFolders := CachedFolders(picker.cache, now);
    if cachedFolders.Some? && |cachedFolders.value| > 0 {
      picker.Show(cachedFolders.value, now);
      return;
    }
    picker.Show(DefaultFolders(), now);
  }

  /** A tree that can be read decides the list: the background, the second reading
      and the cache are consulted only when the first reading failed, and the second
      reading, when it succeeds, always wins over the cache. */
  lemma LoadChoiceCases(contextValid: bool, tree: Option<seq<Node>>, background: Option<seq<Folder>>,
                        altTree: Option<seq<Node>>, cache: Cache, now: int)
    ensures var l := LoadChoice(contextValid, tree, background, altTree, cache, now);
      (!contextValid ==> l == DefaultFolders())
      && (contextValid && tree.Some? ==> l == DirectFolders(tree.value))
      && (contextValid && tree.None? && background.Some? ==> l == background.value)
      && (contextValid && tree.None? && background.None? && altTree.Some? ==> l == AlternativeFolders(altTree.value))
      && (contextValid && tree.None? && background.None? && altTree.None? ==>
            l == if CachedFolders(cache, now).Some? && |cache.folders.value| > 0 then cache.folders.value
                 else DefaultFolders())
  {
    if tree.Some? {
      DirectFoldersShape(tree.value);
    }
  }

  /** initializeFolderSelector: after loading, an empty list is replaced by the five
      defaults, so the selector never offers nothing. */
  method InitializeFolderSelector(picker: Picker, contextValid: bool, tree: Option<seq<Node>>,
                                  background: Option<seq<Folder>>, altTree: Option<seq<Node>>, now: int)
    modifies picker
    ensures var l := LoadChoice(contextValid, tree, background, altTree, old(picker.cache), now);
      picker.folders == if l == [] then DefaultFolders() else l
    ensures picker.folders != [] && picker.rendered == picker.folders
  {
    LoadFolders(picker, contextValid, tree, background, altTree, now);
    if |picker.folders| == 0 {
      picker.Show(DefaultFolders(), now);
    }
    DefaultFoldersShape();
  }

  // ---------------------------------------------------------------------------
  // generateHTMLContent

  /** generateHTMLContent: the popup's own processing of the text, one line per
      entry each followed by '\n', inside a folder dated with the download's second. */
  method GenerateHtmlContent(urls: string, folderName: string, hostname: string -> Option<string>, nowMs: nat)
    returns (html: string)
    ensures html == FolderDocument(DatedHeading(folderName, Seconds(nowMs)),
                                   EntryItems(NormalizeText(urls, Misencoded, hostname)))
  {
    var processedUrls := ProcessUrls(urls, Misencoded, hostname);
    var bookmarkItems := "";
    var i := 0;
    assert EntryItems(processedUrls[..0]) == [];
    while i < |processedUrls|
      invariant 0 <= i <= |processedUrls|
      invariant bookmarkItems == Terminated(EntryItems(processedUrls[..i]))
    {
      TerminatedItemsStep(processedUrls, i);
      bookmarkItems := bookmarkItems + (EntryItem(processedUrls[i]) + "\n");
      i := i + 1;
    }
    assert processedUrls[..i] == processedUrls;
    var heading := DatedHeading(folderName, Seconds(nowMs));
    var opening := Join(FolderPreamble + [heading, FolderListOpen], '\n');
    html := opening + "\n" + bookmarkItems + FolderListClose + "\n" + ListClose;
    FolderDocumentOfTerminated(heading, EntryItems(processedUrls));
  }

  /** One more entry adds its line and a '\n' to the items text. */
  lemma TerminatedItemsStep(es: seq<Entry>, i: nat)
    requires i < |es|
    ensures Terminated(EntryItems(es[..i + 1])) == Terminated(EntryItems(es[..i])) + (EntryItem(es[i]) + "\n")
  {
    assert es[..i + 1] == es[..i] + [es[i]];
    EntryItemsAppend(es[..i], [es[i]]);
    assert EntryItems([es[i]]) == [EntryItem(es[i])];
    TerminatedAppend(EntryItems(es[..i]), [EntryItem(es[i])]);
    assert Terminated([EntryItem(es[i])]) == EntryItem(es[i]) + "\n";
  }
}
