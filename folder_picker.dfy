/** The folder selector of the Chromium and Firefox popups: the list of folders it
    holds, the folder items it last rendered, which of them the search shows, whether
    the "create new" button is shown, and the folder cache in the extension's local
    storage, which a render writes and a load may read back. */
module FolderPicker {
  import opened Options
  import opened Strings
  import opened Bookmarks

  /** The storage entries `cachedFolders` and `cacheTimestamp`, each possibly absent. */
  datatype Cache = Cache(folders: Option<seq<Folder>>, timestamp: Option<int>)

  /** How long a cached list is used: one hour, in milliseconds. */
  const CacheLifetimeMs: int := 3600000

  /** `now - (result.cacheTimestamp || 0)`. */
  function CacheAge(c: Cache, now: int): int
  {
    now - (if c.timestamp.Some? then c.timestamp.value else 0)
  }

  /** getCachedFolders: the cached list when there is one and it is younger than an
      hour. */
  function CachedFolders(c: Cache, now: int): Option<seq<Folder>>
  {
    if c.folders.Some? && CacheAge(c, now) < CacheLifetimeMs then c.folders else None
  }

  /** A list cached at time `t` is read back, unchanged, exactly until an hour has
      passed; a list cached without a timestamp counts as written at time 0. */
  lemma CacheFreshness(fs: seq<Folder>, t: int, now: int)
    ensures CachedFolders(Cache(Some(fs), Some(t)), now) == Some(fs) <==> now < t + CacheLifetimeMs
    ensures CachedFolders(Cache(Some(fs), Some(t)), now).None? <==> now >= t + CacheLifetimeMs
    ensures CachedFolders(Cache(Some(fs), None), now) == Some(fs) <==> now < CacheLifetimeMs
    ensures CachedFolders(Cache(None, Some(t)), now).None?
  {
  }

  /** The guard of the cache write in renderFolders: the list is non-empty and not
      every entry is a suggestion. */
  predicate ShouldCache(fs: seq<Folder>)
  {
    |fs| > 0 && !(forall k :: 0 <= k < |fs| ==> fs[k].isSuggestion)
  }

  /** The cache is written iff at least one listed folder is a real folder; a list of
      suggestions alone, such as the fallback lists, is never cached. */
  lemma ShouldCacheIffRealFolder(fs: seq<Folder>, extra: seq<Folder>)
    requires forall k :: 0 <= k < |extra| ==> extra[k].isSuggestion
    ensures ShouldCache(fs) <==> exists k :: 0 <= k < |fs| && !fs[k].isSuggestion
    ensures ShouldCache(fs + extra) <==> ShouldCache(fs)
  {
    if ShouldCache(fs + extra) {
      var k :| 0 <= k < |fs + extra| && !(fs + extra)[k].isSuggestion;
      assert k < |fs|;
    }
    if ShouldCache(fs) {
      var k :| 0 <= k < |fs| && !fs[k].isSuggestion;
      assert (fs + extra)[k] == fs[k];
    }
  }

  /** The test behind the "create new" button: some folder's lower-cased title is the
      search term. */
  predicate ExactMatch(fs: seq<Folder>, term: string)
  {
    exists k :: 0 <= k < |fs| && AsciiLower(fs[k].title) == term
  }

  class Picker {
    /** `folders`: the list the selector offers. */
    var folders: seq<Folder>
    /** The folder items of the last render, in list order. */
    var rendered: seq<Folder>
    /** Whether each rendered item is displayed. */
    var shown: seq<bool>
    /** Whether the "create new" button is displayed. */
    var createNewShown: bool
    /** The extension's cache entries. */
    var cache: Cache

    constructor(stored: Cache)
      ensures folders == [] && rendered == [] && shown == [] && createNewShown && cache == stored
    {
      folders, rendered, shown, createNewShown, cache := [], [], [], true, stored;
    }

    /** renderFolders: one displayed item per folder (none, and the "no folders"
        message, for an empty list), and the list is cached with the time of the
        render when the guard holds. */
    method RenderFolders(now: int)
      modifies this`rendered, this`shown, this`cache
      ensures rendered == folders && |shown| == |folders|
      ensures forall k :: 0 <= k < |shown| ==> shown[k]
      ensures cache == if ShouldCache(folders) then Cache(Some(folders), Some(now)) else old(cache)
    {
      rendered := folders;
      shown := seq(|folders|, _ => true);
      if |folders| > 0 && !(forall k :: 0 <= k < |folders| ==> folders[k].isSuggestion) {
        cache := Cache(Some(folders), Some(now));
      }
    }

    /** `folders = fs; renderFolders()`. */
    method Show(fs: seq<Folder>, now: int)
      modifies this`folders, this`rendered, this`shown, this`cache
      ensures folders == fs && rendered == fs && |shown| == |fs|
      ensures forall k :: 0 <= k < |shown| ==> shown[k]
      ensures cache == if ShouldCache(fs) then Cache(Some(fs), Some(now)) else old(cache)
    {
      folders := fs;
      RenderFolders(now);
    }

    /** filterFolders: a rendered item is displayed iff its lower-cased name contains
        the term, and "create new" is displayed iff no folder's lower-cased title is
        the term; so when it is hidden after a render, some item is displayed. */
    method FilterFolders(term: string)
      modifies this`shown, this`createNewShown
      ensures |shown| == |rendered|
      ensures forall k :: 0 <= k < |rendered| ==> (shown[k] <==> Contains(AsciiLower(rendered[k].title), term))
      ensures createNewShown <==> !ExactMatch(folders, term)
      ensures rendered == folders && !createNewShown ==> exists k :: 0 <= k < |shown| && shown[k]
    {
      shown := Visibility(term);
      var exact := HasExactTitle(term);
      createNewShown := !exact;
      if rendered == folders && exact {
        var k :| 0 <= k < |folders| && AsciiLower(folders[k].title) == term;
        assert StartsWith(AsciiLower(folders[k].title), term);
        assert shown[k];
      }
    }

    /** The loop over the rendered items: each is displayed iff its lower-cased title
        contains the term. */
    method Visibility(term: string) returns (vis: seq<bool>)
      ensures |vis| == |rendered|
      ensures forall k :: 0 <= k < |rendered| ==> (vis[k] <==> Contains(AsciiLower(rendered[k].title), term))
    {
      vis := [];
      var i := 0;
      while i < |rendered|
        invariant 0 <= i <= |rendered| && |vis| == i
        invariant forall k :: 0 <= k < i ==> (vis[k] <==> Contains(AsciiLower(rendered[k].title), term))
      {
        vis := vis + [Contains(AsciiLower(rendered[i].title), term)];
        i := i + 1;
      }
    }

    /** The exact-match test over all folders. */
    method HasExactTitle(term: string) returns (exact: bool)
      ensures exact <==> ExactMatch(folders, term)
    {
      exact := false;
      var j := 0;
      while j < |folders|
        invariant 0 <= j <= |folders|
        invariant exact <==> exists k :: 0 <= k < j && AsciiLower(folders[k].title) == term
      {
        exact := exact || AsciiLower(folders[j].title) == term;
        j := j + 1;
      }
    }

    /** The search box's input listener: the typed value is lower-cased and filtered
        on, so the search ignores the case of ASCII letters, and typing the title of
        a listed folder hides "create new". */
    method SearchInput(value: string)
      modifies this`shown, this`createNewShown
      ensures |shown| == |rendered|
      ensures forall k :: 0 <= k < |rendered| ==>
        (shown[k] <==> Contains(AsciiLower(rendered[k].title), AsciiLower(value)))
      ensures createNewShown <==> !ExactMatch(folders, AsciiLower(value))
      ensures (exists k :: 0 <= k < |folders| && folders[k].title == value) ==> !createNewShown
    {
      FilterFolders(AsciiLower(value));
    }
  }
}
