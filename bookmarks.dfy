/** The bookmark tree as the extension's host API returns it, and the folder listing
    that the background scripts and the popups build from it: which node is the
    toolbar, which of its children are folders, how many bookmarks each folder holds
    directly, the suggested folders, and the order by title. */
module Bookmarks {
  import opened Options
  import opened Strings
  import opened Seqs

  /** A node of the tree that getTree returns: `url` is absent for folders;
      `hasChildren` says whether the `children` array is present at all (it is
      absent for bookmarks), and `children` is empty when it is not. */
  datatype Node = Node(id: string, title: string, url: Option<string>, hasChildren: bool, children: seq<Node>)

  /** `node.url` is truthy: present and not the empty string. */
  predicate HasUrl(n: Node) { n.url.Some? && n.url.value != "" }

  /** `node.children && !node.url`: a children array, even an empty one, is truthy. */
  predicate IsFolder(n: Node) { n.hasChildren && !HasUrl(n) }

  function KeepLink(n: Node): Option<Node> { if HasUrl(n) then Some(n) else None }

  /** `children.filter(child => child.url)`. */
  function Links(cs: seq<Node>): seq<Node> { FilterMap(cs, LinkKeeper()) }

  function LinkKeeper(): Node -> Option<Node> { n => KeepLink(n) }

  /** A folder descriptor of the listing. `links` are the folder's direct bookmarks,
      `location` the title of the bar it was found under where a listing records it. */
  datatype Folder = Folder(id: string, title: string, links: seq<Node>, bookmarkCount: nat,
                           isSuggestion: bool, location: Option<string>)

  /** The descriptor a listing builds for a child that is a folder. */
  function FolderOf(n: Node, location: Option<string>): Option<Folder>
  {
    if IsFolder(n) then
      var ls := Links(n.children);
      Some(Folder(n.id, n.title, ls, |ls|, false, location))
    else None
  }

  function FolderViewer(location: Option<string>): Node -> Option<Folder>
  {
    n => FolderOf(n, location)
  }

  function Suggestion(id: string, title: string): Folder
  {
    Folder(id, title, [], 0, true, None)
  }

  /** The four suggested folders every listing falls back on. */
  function Suggestions(): seq<Folder>
  {
    [Suggestion("suggestion-1", "My Bookmarks"), Suggestion("suggestion-2", "Work"),
     Suggestion("suggestion-3", "Personal"), Suggestion("suggestion-4", "Learning")]
  }

  /** The suggestions are suggestions with no bookmarks, their titles are distinct,
      and the default folder name "My Bookmarks" is among them. */
  lemma SuggestionsShape()
    ensures forall f :: f in Suggestions() ==> f.isSuggestion && f.bookmarkCount == 0 && f.links == []
    ensures forall i, j :: 0 <= i < j < |Suggestions()| ==> Suggestions()[i].title != Suggestions()[j].title
    ensures Suggestions()[0].title == "My Bookmarks"
  {
  }

  /** The rules by which the variants recognise the bookmarks bar among the root's
      children. */
  datatype BarRule =
    | IdIs(id: string)      // `child.id === id`
    | FirefoxToolbar        // title 'Bookmarks Toolbar' or id 'toolbar_____'
    | AnyBarName            // id "1" or one of the three bar titles (the Chromium popup)

  predicate IsBar(rule: BarRule, n: Node)
  {
    match rule
    case IdIs(id) => n.id == id
    case FirefoxToolbar => n.title == "Bookmarks Toolbar" || n.id == "toolbar_____"
    case AnyBarName =>
      n.id == "1" || n.title == "Bookmarks bar" || n.title == "Bookmarks Toolbar" || n.title == "Bookmark Bar"
  }

  /** Array.prototype.find by a bar rule, as an index. */
  function FindFirst(xs: seq<Node>, rule: BarRule): (r: Option<nat>)
    ensures r.Some? ==>
      r.value < |xs| && IsBar(rule, xs[r.value]) && forall j :: 0 <= j < r.value ==> !IsBar(rule, xs[j])
    ensures r.None? ==> forall j :: 0 <= j < |xs| ==> !IsBar(rule, xs[j])
  {
    if xs == [] then None
    else if IsBar(rule, xs[0]) then Some(0)
    else match FindFirst(xs[1..], rule)
      case None => None
      case Some(k) => Some(k + 1)
  }

  /** `tree[0]?.children`: the top-level nodes under the root, if any. */
  function RootChildren(tree: seq<Node>): Option<seq<Node>>
  {
    if |tree| > 0 && tree[0].hasChildren then Some(tree[0].children) else None
  }

  /** `tree[0]?.children?.find(rule)`. */
  function FindBar(tree: seq<Node>, rule: BarRule): (r: Option<Node>)
    ensures r.Some? ==> RootChildren(tree).Some? && r.value in RootChildren(tree).value && IsBar(rule, r.value)
    ensures r.None? ==>
      RootChildren(tree).None? || forall n :: n in RootChildren(tree).value ==> !IsBar(rule, n)
  {
    match RootChildren(tree)
    case None => None
    case Some(cs) =>
      match FindFirst(cs, rule)
      case None => None
      case Some(i) => Some(cs[i])
  }

  /** The folders a listing gathers from one bar: its children that are folders. */
  function BarFolders(bar: Option<Node>, location: Option<string>): seq<Folder>
  {
    if bar.Some? && bar.value.hasChildren then FilterMap(bar.value.children, FolderViewer(location))
    else []
  }

  /** The loop of the listings that visits a bar's children and pushes a descriptor
      for each folder. */
  method CollectFolders(children: seq<Node>, location: Option<string>) returns (folders: seq<Folder>)
    ensures folders == FilterMap(children, FolderViewer(location))
  {
    folders := [];
    var i := 0;
    while i < |children|
      invariant 0 <= i <= |children|
      invariant folders == FilterMap(children[..i], FolderViewer(location))
    {
      assert children[..i + 1][..i] == children[..i];
      var child := children[i];
      if child.hasChildren && !HasUrl(child) {
        var links := Links(child.children);
        folders := folders + [Folder(child.id, child.title, links, |links|, false, location)];
      }
      i := i + 1;
    }
    assert children[..i] == children;
  }

  /** A bar's listing holds one descriptor per folder child, in child order; each
      descriptor carries that child's id and title, its count is the number of its
      direct children with a URL, and no other child is listed. */
  lemma BarFoldersAreFolderChildren(bar: Node, location: Option<string>, f: Folder)
    requires bar.hasChildren
    ensures f in BarFolders(Some(bar), location) <==>
      exists c :: c in bar.children && IsFolder(c) && f == FolderOf(c, location).value
  {
    var cs := bar.children;
    if f in BarFolders(Some(bar), location) {
      FilterMapFrom(cs, FolderViewer(location), f);
    }
    if exists c :: c in cs && IsFolder(c) && f == FolderOf(c, location).value {
      var c :| c in cs && IsFolder(c) && f == FolderOf(c, location).value;
      var i :| 0 <= i < |cs| && cs[i] == c;
      FilterMapTo(cs, FolderViewer(location), i);
    }
  }

  /** A descriptor's count is the number of the folder's direct children that have a
      URL, and those are its links. */
  lemma FolderCountIsDirectLinks(n: Node, location: Option<string>)
    requires IsFolder(n)
    ensures var f := FolderOf(n, location).value;
      f.bookmarkCount == |f.links|
      && (forall c :: c in f.links ==> c in n.children && HasUrl(c))
      && (forall c :: c in n.children && HasUrl(c) ==> c in f.links)
  {
    var cs := n.children;
    forall c | c in Links(cs) ensures c in cs && HasUrl(c) {
      FilterMapFrom(cs, LinkKeeper(), c);
    }
    forall c | c in cs && HasUrl(c) ensures c in Links(cs) {
      var i :| 0 <= i < |cs| && cs[i] == c;
      FilterMapTo(cs, LinkKeeper(), i);
    }
  }

  // ---------------------------------------------------------------------------
  // Order by title. The source sorts with localeCompare; the model orders titles
  // by code point, a total order of the same kind.

  /** Code-point lexicographic order on strings. */
  predicate LexLe(a: string, b: string)
  {
    a == [] || (b != [] && (a[0] < b[0] || (a[0] == b[0] && LexLe(a[1..], b[1..]))))
  }

  lemma {:induction false} LexLeTotal(a: string, b: string)
    ensures LexLe(a, b) || LexLe(b, a)
  {
    if a != [] && b != [] && a[0] == b[0] {
      LexLeTotal(a[1..], b[1..]);
    }
  }

  lemma {:induction false} LexLeTrans(a: string, b: string, c: string)
    requires LexLe(a, b) && LexLe(b, c)
    ensures LexLe(a, c)
  {
    if a != [] && b != [] && c != [] && a[0] == b[0] && b[0] == c[0] {
      LexLeTrans(a[1..], b[1..], c[1..]);
    }
  }

  predicate TitleLe(f: Folder, g: Folder) { LexLe(f.title, g.title) }

  ghost predicate SortedByTitle(fs: seq<Folder>)
  {
    forall i, j :: 0 <= i < j < |fs| ==> TitleLe(fs[i], fs[j])
  }

  function InsertByTitle(x: Folder, s: seq<Folder>): seq<Folder>
  {
    if s == [] then [x]
    else if TitleLe(x, s[0]) then [x] + s
    else [s[0]] + InsertByTitle(x, s[1..])
  }

  /** `folders.sort((a, b) => a.title.localeCompare(b.title))`, as an insertion sort. */
  function SortByTitle(fs: seq<Folder>): seq<Folder>
  {
    if fs == [] then [] else InsertByTitle(fs[0], SortByTitle(fs[1..]))
  }

  lemma {:induction false} InsertByTitleSorted(x: Folder, s: seq<Folder>)
    requires SortedByTitle(s)
    ensures SortedByTitle(InsertByTitle(x, s))
    ensures multiset(InsertByTitle(x, s)) == multiset(s) + multiset{x}
  {
    if s == [] {
    } else if TitleLe(x, s[0]) {
      forall j | 0 <= j < |s| ensures TitleLe(x, s[j]) {
        if j > 0 { LexLeTrans(x.title, s[0].title, s[j].title); }
      }
    } else {
      LexLeTotal(x.title, s[0].title);
      InsertByTitleSorted(x, s[1..]);
      var t := InsertByTitle(x, s[1..]);
      assert multiset(s) == multiset{s[0]} + multiset(s[1..]) by { assert s == [s[0]] + s[1..]; }
      forall k | 0 <= k < |t| ensures TitleLe(s[0], t[k]) {
        assert t[k] in multiset(s[1..]) + multiset{x};
        if t[k] != x {
          var j :| 0 <= j < |s[1..]| && s[1..][j] == t[k];
          assert TitleLe(s[0], s[j + 1]);
        }
      }
    }
  }

  /** Sorting yields an ordered permutation of the listing. */
  lemma {:induction false} SortByTitleCorrect(fs: seq<Folder>)
    ensures SortedByTitle(SortByTitle(fs))
    ensures multiset(SortByTitle(fs)) == multiset(fs)
  {
    if fs != [] {
      SortByTitleCorrect(fs[1..]);
      InsertByTitleSorted(fs[0], SortByTitle(fs[1..]));
      assert fs == [fs[0]] + fs[1..];
    }
  }

  // ---------------------------------------------------------------------------
  // The listing of the background scripts (getBookmarkFolders)

  /** Whether a listing appends the suggestions always or only to an empty list. */
  datatype SuggestWhen = Always | WhenEmpty

  function WithSuggestions(fs: seq<Folder>, when: SuggestWhen): seq<Folder>
  {
    if when == Always || fs == [] then fs + Suggestions() else fs
  }

  /** The folders of the bar the rule finds, the suggestions as `when` says, sorted
      by title. */
  function FolderListing(tree: seq<Node>, rule: BarRule, when: SuggestWhen): seq<Folder>
  {
    SortByTitle(WithSuggestions(BarFolders(FindBar(tree, rule), None), when))
  }

  /** The try block of getBookmarkFolders: find the bar, push a descriptor per folder
      child, add the suggestions and sort. */
  method ListBarFolders(tree: seq<Node>, rule: BarRule, when: SuggestWhen) returns (folders: seq<Folder>)
    ensures folders == FolderListing(tree, rule, when)
  {
    folders := [];
    var bar := FindBar(tree, rule);
    if bar.Some? && bar.value.hasChildren {
      folders := CollectFolders(bar.value.children, None);
    }
    if when == Always || |folders| == 0 {
      folders := folders + Suggestions();
    }
    folders := SortByTitle(folders);
  }

  /** A listing is sorted by title and lists exactly the bar's folder children (each
      once per occurrence) and, always or when there is none, the four suggestions. */
  lemma FolderListingContents(tree: seq<Node>, rule: BarRule, when: SuggestWhen)
    ensures SortedByTitle(FolderListing(tree, rule, when))
    ensures var found := BarFolders(FindBar(tree, rule), None);
      multiset(FolderListing(tree, rule, when))
      == multiset(found) + (if when == Always || found == [] then multiset(Suggestions()) else multiset{})
  {
    var found := BarFolders(FindBar(tree, rule), None);
    SortByTitleCorrect(WithSuggestions(found, when));
  }

  /** A listing entry is either a suggestion or the descriptor of a folder child of
      the bar, and every folder child of the bar is listed. */
  lemma FolderListingMembers(tree: seq<Node>, rule: BarRule, when: SuggestWhen, f: Folder)
    ensures var bar := FindBar(tree, rule);
      f in FolderListing(tree, rule, when) <==>
        (bar.Some? && bar.value.hasChildren
         && exists c :: c in bar.value.children && IsFolder(c) && f == FolderOf(c, None).value)
        || (f in Suggestions() && (when == Always || BarFolders(bar, None) == []))
  {
    var bar := FindBar(tree, rule);
    FolderListingContents(tree, rule, when);
    assert f in FolderListing(tree, rule, when) <==> f in multiset(FolderListing(tree, rule, when));
    if bar.Some? && bar.value.hasChildren {
      BarFoldersAreFolderChildren(bar.value, None, f);
    }
  }

  /** The folders of a listing that are not suggestions are made from the bar's
      children. */
  lemma BarFoldersAreReal(bar: Option<Node>, location: Option<string>, f: Folder)
    requires f in BarFolders(bar, location)
    ensures !f.isSuggestion && f !in Suggestions()
  {
    FilterMapFrom(bar.value.children, FolderViewer(location), f);
  }

  /** A listing that adds the suggestions every time holds the bar's folders and the
      four suggestions, sorted. */
  lemma AlwaysListing(tree: seq<Node>, rule: BarRule)
    ensures var found := BarFolders(FindBar(tree, rule), None);
      var l := FolderListing(tree, rule, Always);
      SortedByTitle(l) && |l| == |found| + 4
      && forall s :: s in Suggestions() ==> s in l
  {
    var found := BarFolders(FindBar(tree, rule), None);
    var l := FolderListing(tree, rule, Always);
    FolderListingContents(tree, rule, Always);
    assert |multiset(l)| == |multiset(found)| + |multiset(Suggestions())|;
    forall s | s in Suggestions() ensures s in l {
      assert s in multiset(Suggestions());
      assert s in multiset(l);
    }
  }

  /** A listing that adds the suggestions only to an empty list is the four
      suggestions when the bar has no folder child, and holds no suggestion at all
      otherwise. */
  lemma WhenEmptyListing(tree: seq<Node>, rule: BarRule)
    ensures var found := BarFolders(FindBar(tree, rule), None);
      var l := FolderListing(tree, rule, WhenEmpty);
      SortedByTitle(l)
      && (found == [] ==> multiset(l) == multiset(Suggestions()))
      && (found != [] ==> |l| == |found| && forall f :: f in l ==> !f.isSuggestion)
  {
    var found := BarFolders(FindBar(tree, rule), None);
    var l := FolderListing(tree, rule, WhenEmpty);
    FolderListingContents(tree, rule, WhenEmpty);
    if found != [] {
      assert |multiset(l)| == |multiset(found)|;
      forall f | f in l ensures !f.isSuggestion {
        assert f in multiset(l);
        assert f in multiset(found);
        BarFoldersAreReal(FindBar(tree, rule), None, f);
      }
    }
  }

  /** What a getBookmarkFolders handler answers: the folders, or `success: false`. */
  datatype FolderAnswer = Listed(folders: seq<Folder>) | NotListed

  /** The answer of the handlers that report a failed getTree as `success: false`. */
  function AnswerOf(tree: Option<seq<Node>>, rule: BarRule, when: SuggestWhen): FolderAnswer
  {
    match tree
    case None => NotListed
    case Some(t) => Listed(FolderListing(t, rule, when))
  }

  /** getBookmarkFolders with the try/catch: a tree that could not be read gives
      `success: false`. */
  method AnswerFolders(tree: Option<seq<Node>>, rule: BarRule, when: SuggestWhen) returns (r: FolderAnswer)
    ensures r == AnswerOf(tree, rule, when)
  {
    if tree.None? {
      return NotListed;
    }
    var folders := ListBarFolders(tree.value, rule, when);
    r := Listed(folders);
  }

  // ---------------------------------------------------------------------------
  // Pre-order walks over the whole tree

  /** The nodes with a URL, in the order a recursive walk that visits a node before
      its children meets them. */
  function PreorderLinks(nodes: seq<Node>): seq<Node>
    decreases nodes
  {
    if nodes == [] then []
    else
      var n := nodes[0];
      assert n in nodes;
      (if HasUrl(n) then [n] else [])
      + (if n.hasChildren then PreorderLinks(n.children) else [])
      + PreorderLinks(nodes[1..])
  }

  /** `n` is one of `nodes` or lies below one of them. */
  ghost predicate InForest(n: Node, nodes: seq<Node>)
    decreases nodes
  {
    exists i :: 0 <= i < |nodes| && (nodes[i] == n
      || (nodes[i].hasChildren && InForest(n, nodes[i].children)))
  }

  /** The walk meets exactly the nodes of the tree that have a URL. */
  lemma {:induction false} PreorderLinksAreTheLinks(nodes: seq<Node>, n: Node)
    ensures n in PreorderLinks(nodes) <==> InForest(n, nodes) && HasUrl(n)
    decreases nodes
  {
    if nodes != [] {
      var m := nodes[0];
      assert m in nodes;
      if m.hasChildren {
        PreorderLinksAreTheLinks(m.children, n);
      }
      PreorderLinksAreTheLinks(nodes[1..], n);
      if InForest(n, nodes) {
        var i :| 0 <= i < |nodes| && (nodes[i] == n
          || (nodes[i].hasChildren && InForest(n, nodes[i].children)));
        if i > 0 {
          assert nodes[1..][i - 1] == nodes[i];
        }
      }
      if InForest(n, nodes[1..]) {
        var i :| 0 <= i < |nodes[1..]| && (nodes[1..][i] == n
          || (nodes[1..][i].hasChildren && InForest(n, nodes[1..][i].children)));
        assert nodes[i + 1] == nodes[1..][i];
      }
    }
  }

  /** The walk over two forests side by side is the walk over the first, then the second. */
  lemma {:induction false} PreorderLinksAppend(xs: seq<Node>, ys: seq<Node>)
    ensures PreorderLinks(xs + ys) == PreorderLinks(xs) + PreorderLinks(ys)
    decreases xs
  {
    if xs == [] {
      assert xs + ys == ys;
    } else {
      assert (xs + ys)[0] == xs[0];
      assert (xs + ys)[1..] == xs[1..] + ys;
      PreorderLinksAppend(xs[1..], ys);
    }
  }

  /** The walk over one node: the node if it has a URL, then the walk below it. */
  lemma PreorderLinksSingle(node: Node)
    ensures PreorderLinks([node])
      == (if HasUrl(node) then [node] else []) + (if node.hasChildren then PreorderLinks(node.children) else [])
  {
    assert [node][0] == node && [node][1..] == [];
  }

  /** On nodes without children the walk keeps the links of the list, as Links does. */
  lemma {:induction false} PreorderLinksFlat(nodes: seq<Node>)
    requires forall i :: 0 <= i < |nodes| ==> !nodes[i].hasChildren
    ensures PreorderLinks(nodes) == Links(nodes)
    decreases |nodes|
  {
    if nodes != [] {
      var init := nodes[..|nodes| - 1];
      var last := nodes[|nodes| - 1];
      assert nodes == init + [last];
      PreorderLinksAppend(init, [last]);
      PreorderLinksFlat(init);
      assert PreorderLinks([last]) == if HasUrl(last) then [last] else [];
    }
  }
}
