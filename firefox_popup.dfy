/** The Firefox popup (firefox/popup.js): its folder selector reads the toolbar
    itself, falls back on the background script, on the cache and on the four
    suggestions, and its export serialises the whole tree. */
module FirefoxPopup {
  import opened Options
  import opened Bookmarks
  import opened FolderPicker

  /** What getFoldersDirectAPI answers for a tree it could read: the folders among
      the toolbar's children, in child order, then the four suggestions. */
  function FirefoxDirect(tree: seq<Node>): seq<Folder>
  {
    BarFolders(FindBar(tree, FirefoxToolbar), None) + Suggestions()
  }

  method GetFoldersDirectApi(tree: Option<seq<Node>>) returns (r: Option<seq<Folder>>)
    ensures r == if tree.Some? then Some(FirefoxDirect(tree.value)) else None
  {
    if tree.None? {
      return None;
    }
    var folders: seq<Folder> := [];
    var toolbar := FindBar(tree.value, FirefoxToolbar);
    if toolbar.Some? && toolbar.value.hasChildren {
      folders := CollectFolders(toolbar.value.children, None);
    }
    folders := folders + Suggestions();
    r := Some(folders);
  }

  /** The direct listing ends with the four suggestions; every entry before them is
      the descriptor of a folder child of the toolbar; and it is cached exactly when
      the toolbar has a folder child. */
  lemma FirefoxDirectShape(tree: seq<Node>)
    ensures var d := FirefoxDirect(tree);
      var toolbar := FindBar(tree, FirefoxToolbar);
      |d| >= 4 && d[|d| - 4..] == Suggestions()
      && (forall k :: 0 <= k < |d| - 4 ==>
            !d[k].isSuggestion && toolbar.Some? && toolbar.value.hasChildren
            && exists c :: c in toolbar.value.children && IsFolder(c) && d[k] == FolderOf(c, None).value)
      && (ShouldCache(d) <==> |d| > 4)
  {
    var d := FirefoxDirect(tree);
    var toolbar := FindBar(tree, FirefoxToolbar);
    var found := BarFolders(toolbar, None);
    forall k | 0 <= k < |d| - 4
      ensures !d[k].isSuggestion && toolbar.Some? && toolbar.value.hasChildren
      ensures exists c :: c in toolbar.value.children && IsFolder(c) && d[k] == FolderOf(c, None).value
    {
      assert d[k] == found[k] && found[k] in found;
      BarFoldersAreReal(toolbar, None, found[k]);
      BarFoldersAreFolderChildren(toolbar.value, None, found[k]);
    }
    SuggestionsShape();
    assert forall k :: 0 <= k < 4 ==> Suggestions()[k].isSuggestion;
    ShouldCacheIffRealFolder(found, Suggestions());
    if |d| > 4 {
      assert d[0] == found[0] && !d[0].isSuggestion;
    }
  }

  /** The list loadFolders settles on: the four suggestions when the extension
      context is gone; otherwise the direct reading when it gives a list, then a
      successful answer of the background (even an empty one), then a non-empty
      cached list, then the four suggestions. */
  function LoadChoice(contextValid: bool, tree: Option<seq<Node>>, background: Option<seq<Folder>>,
                      cache: Cache, now: int): seq<Folder>
  {
    if !contextValid then Suggestions()
    else if tree.Some? && |FirefoxDirect(tree.value)| > 0 then FirefoxDirect(tree.value)
    else if background.Some? then background.value
    else match CachedFolders(cache, now)
      case Some(fs) => if |fs| > 0 then fs else Suggestions()
      case None => Suggestions()
  }

  /** loadFolders: the sources in turn, the chosen list shown and, by the guard,
      cached. */
  method LoadFolders(picker: Picker, contextValid: bool, tree: Option<seq<Node>>, background: Option<seq<Folder>>,
                     now: int)
    modifies picker
    ensures picker.folders == LoadChoice(contextValid, tree, background, old(picker.cache), now)
    ensures picker.rendered == picker.folders
    ensures picker.cache == if ShouldCache(picker.folders) then Cache(Some(picker.folders), Some(now)) else old(picker.cache)
  {
    if !contextValid {
      picker.Show(Suggestions(), now);
      return;
    }
    var directFolders := GetFoldersDirectApi(tree);
    if directFolders.Some? && |directFolders.value| > 0 {
      picker.Show(directFolders.value, now);
      return;
    }
    if background.Some? {
      picker.Show(background.value, now);
      return;
    }
    var cachedFolders := CachedFolders(picker.cache, now);
    if cachedFolders.Some? && |cachedFolders.value| > 0 {
      picker.Show(cachedFolders.value, now);
      return;
    }
    picker.Show(Suggestions(), now);
  }

  /** Since the direct reading always adds the suggestions, a readable tree decides
      the list and the background and the cache are consulted only when the tree
      could not be read; the list is empty only when the background answers an
      empty one; and a fallback to the suggestions leaves the cache as it was. */
  lemma LoadChoiceCases(contextValid: bool, tree: Option<seq<Node>>, background: Option<seq<Folder>>,
                        cache: Cache, now: int)
    ensures var l := LoadChoice(contextValid, tree, background, cache, now);
      (!contextValid ==> l == Suggestions())
      && (contextValid && tree.Some? ==> l == FirefoxDirect(tree.value))
      && (contextValid && tree.None? && background.Some? ==> l == background.value)
      && (contextValid && tree.None? && background.None? ==>
            l == if CachedFolders(cache, now).Some? && |cache.folders.value| > 0 then cache.folders.value
                 else Suggestions())
      && (l == [] ==> contextValid && tree.None? && background == Some([]))
    ensures !ShouldCache(Suggestions())
  {
    if tree.Some? {
      FirefoxDirectShape(tree.value);
    }
    SuggestionsShape();
    assert Suggestions()[0].isSuggestion;
  }

  /** initializeFolderSelector: after loading, an empty list is replaced by the four
      suggestions, so the selector never offers nothing. */
  method InitializeFolderSelector(picker: Picker, contextValid: bool, tree: Option<seq<Node>>,
                                  background: Option<seq<Folder>>, now: int)
    modifies picker
    ensures var l := LoadChoice(contextValid, tree, background, old(picker.cache), now);
      picker.folders == if l == [] then Suggestions() else l
    ensures picker.folders != [] && picker.rendered == picker.folders
  {
    LoadFolders(picker, contextValid, tree, background, now);
    if |picker.folders| == 0 {
      picker.Show(Suggestions(), now);
    }
    SuggestionsShape();
  }
}
