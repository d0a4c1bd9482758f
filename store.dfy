/** The host's bookmark store as the background scripts and the popups drive it: one
    sequence of children per parent id, a `create` call that puts the new node at
    index 0 when an index is passed and at the end otherwise, and the orchestrations
    built on it (find-or-create a folder, bookmark a page, bookmark all tabs, bulk
    insert processed URLs). A host call can fail for reasons the extension does not
    see; a nondeterministic success flag stands for that. */
module BookmarkStore {
  import opened Options
  import opened Strings
  import opened Seqs
  import opened UrlNormalizer

  /** A node as the host's `create` and `getChildren` report it. */
  datatype Item = Item(id: string, title: string, url: Option<string>)

  /** `b.url` is truthy. */
  predicate ItemHasUrl(it: Item) { it.url.Some? && it.url.value != "" }

  /** A node put into a list at index 0 or at its end. */
  function Placed(xs: seq<Item>, it: Item, atTop: bool): seq<Item>
  {
    if atTop then [it] + xs else xs + [it]
  }

  /** A list after a run of nodes `made` has been put into it one by one: at index 0
      each time, so that the last one ends up first, or at the end each time. */
  function Filled(xs: seq<Item>, made: seq<Item>, atTop: bool): seq<Item>
  {
    if atTop then Reverse(made) + xs else xs + made
  }

  lemma FilledStep(xs: seq<Item>, made: seq<Item>, it: Item, atTop: bool)
    ensures Placed(Filled(xs, made, atTop), it, atTop) == Filled(xs, made + [it], atTop)
  {
    if atTop {
      assert (made + [it])[..|made + [it]| - 1] == made;
    }
  }

  /** One more create in the loop: the folder's list, already filled with `made`, gets
      `it` put in the same way. */
  lemma FilledMapStep(m: map<string, seq<Item>>, f: string, made: seq<Item>, it: Item, atTop: bool,
                      before: map<string, seq<Item>>, after: map<string, seq<Item>>)
    requires f in m
    requires before == m[f := Filled(m[f], made, atTop)]
    requires after == before[f := Placed(before[f], it, atTop)]
    ensures after == m[f := Filled(m[f], made + [it], atTop)]
  {
    FilledStep(m[f], made, it, atTop);
  }

  /** The store after `it` has been created under `parentId`; a folder (a node without
      a URL) also gets an empty children list of its own. */
  function Added(m: map<string, seq<Item>>, parentId: string, it: Item, atTop: bool): map<string, seq<Item>>
    requires parentId in m
  {
    var m' := m[parentId := Placed(m[parentId], it, atTop)];
    if it.url.None? then m'[it.id := []] else m'
  }

  /** `items.find(b => b.title === name && !b.url)`, as an index. */
  function FindFolder(items: seq<Item>, name: string): (r: Option<nat>)
    ensures r.Some? ==>
      r.value < |items| && items[r.value].title == name && !ItemHasUrl(items[r.value])
      && forall j :: 0 <= j < r.value ==> !(items[j].title == name && !ItemHasUrl(items[j]))
    ensures r.None? ==> forall j :: 0 <= j < |items| ==> !(items[j].title == name && !ItemHasUrl(items[j]))
  {
    if items == [] then None
    else if items[0].title == name && !ItemHasUrl(items[0]) then Some(0)
    else match FindFolder(items[1..], name)
      case None => None
      case Some(k) => Some(k + 1)
  }

  /** A bookmark to create in a loop: `key` is what an error record names, `title`
      is None when deriving the title threw, and `url` is the address. */
  datatype Candidate = Candidate(key: string, title: Option<string>, url: string)

  /** The keys of the candidates, in order: the error records of a loop. */
  function Keys(cs: seq<Candidate>): (r: seq<string>)
    ensures |r| == |cs|
    ensures forall j :: 0 <= j < |cs| ==> r[j] == cs[j].key
  {
    if cs == [] then [] else Keys(cs[..|cs| - 1]) + [cs[|cs| - 1].key]
  }

  /** The node a create call made for a candidate. */
  predicate MadeFor(it: Item, c: Candidate)
  {
    c.title.Some? && it.title == c.title.value && it.url == Some(c.url)
  }

  /** The books of a create loop after it has handled `cs`: `oks` says which creates
      succeeded, `made` holds the nodes they made, `count` counts them and `errors`
      names the rest. */
  ghost predicate Tally(cs: seq<Candidate>, oks: seq<bool>, made: seq<Item>, count: nat, errors: seq<string>)
  {
    |oks| == |cs|
    && count == |made| == |Select(cs, oks, true)|
    && errors == Keys(Select(cs, oks, false))
    && forall j :: 0 <= j < |made| ==> MadeFor(made[j], Select(cs, oks, true)[j])
  }

  lemma TallyStep(all: seq<Candidate>, i: nat, oks: seq<bool>, made: seq<Item>, count: nat,
                  errors: seq<string>, created: Option<Item>)
    requires i < |all| && Tally(all[..i], oks, made, count, errors)
    requires created.Some? ==> MadeFor(created.value, all[i])
    ensures created.Some? ==> Tally(all[..i + 1], oks + [true], made + [created.value], count + 1, errors)
    ensures created.None? ==> Tally(all[..i + 1], oks + [false], made, count, errors + [all[i].key])
  {
    var cs, c := all[..i], all[i];
    TakeNext(all, i);
    var b := created.Some?;
    assert (cs + [c])[..|cs|] == cs;
    assert (oks + [b])[..|oks|] == oks;
    assert Select(cs + [c], oks + [b], true) == Select(cs, oks, true) + (if b then [c] else []);
    assert Select(cs + [c], oks + [b], false) == Select(cs, oks, false) + (if b then [] else [c]);
  }

  /** The loop's books balance: every success made a node for a candidate whose title
      could be derived, and every candidate is either counted or named in `errors`. */
  lemma TallyAccounts(cs: seq<Candidate>, oks: seq<bool>, made: seq<Item>, count: nat, errors: seq<string>)
    requires Tally(cs, oks, made, count, errors)
    ensures count + |errors| == |cs|
    ensures forall j :: 0 <= j < count ==> exists i :: 0 <= i < |cs| && oks[i] && MadeFor(made[j], cs[i])
    ensures forall j :: 0 <= j < |errors| ==> exists i :: 0 <= i < |cs| && !oks[i] && errors[j] == cs[i].key
    ensures forall i :: 0 <= i < |cs| && oks[i] ==> cs[i].title.Some?
  {
    SelectPartition(cs, oks);
    forall j | 0 <= j < count
      ensures exists i :: 0 <= i < |cs| && oks[i] && MadeFor(made[j], cs[i])
    {
      SelectFrom(cs, oks, true, j);
    }
    forall j | 0 <= j < |errors|
      ensures exists i :: 0 <= i < |cs| && !oks[i] && errors[j] == cs[i].key
    {
      SelectFrom(cs, oks, false, j);
    }
    forall i | 0 <= i < |cs| && oks[i] ensures cs[i].title.Some? {
      SelectTo(cs, oks, true, i);
    }
  }

  /** A browser tab: its title and its URL (undefined is the empty string here). */
  datatype Tab = Tab(title: string, url: string)

  /** The tab filters: a URL is accepted iff it is non-empty and starts with none of
      the forbidden prefixes. */
  predicate Bookmarkable(url: string, forbidden: seq<string>)
  {
    url != "" && forall k :: 0 <= k < |forbidden| ==> !StartsWith(url, forbidden[k])
  }

  /** `tab.title || new URL(tab.url).hostname`; None when the URL does not parse. */
  function TabTitle(tab: Tab, hostname: string -> Option<string>): Option<string>
  {
    if tab.title != "" then Some(tab.title) else hostname(tab.url)
  }

  function TabCandidate(tab: Tab, hostname: string -> Option<string>): Candidate
  {
    Candidate(tab.title, TabTitle(tab, hostname), tab.url)
  }

  /** The candidates for the valid tabs, in tab order. */
  function TabCandidates(tabs: seq<Tab>, hostname: string -> Option<string>): (r: seq<Candidate>)
    ensures |r| == |tabs|
    ensures forall j :: 0 <= j < |tabs| ==> r[j] == TabCandidate(tabs[j], hostname)
  {
    if tabs == [] then [] else TabCandidates(tabs[..|tabs| - 1], hostname) + [TabCandidate(tabs[|tabs| - 1], hostname)]
  }

  function TabFilter(forbidden: seq<string>): Tab -> Option<Tab>
  {
    (t: Tab) => if Bookmarkable(t.url, forbidden) then Some(t) else None
  }

  /** `tabs.filter(tab => tab.url && !forbidden.some(p => tab.url.startsWith(p)))`. */
  function ValidTabs(tabs: seq<Tab>, forbidden: seq<string>): seq<Tab>
  {
    FilterMap(tabs, TabFilter(forbidden))
  }

  /** The filter keeps exactly the bookmarkable tabs, in tab order. */
  lemma ValidTabsAreBookmarkable(tabs: seq<Tab>, forbidden: seq<string>)
    ensures forall t :: t in ValidTabs(tabs, forbidden) <==> t in tabs && Bookmarkable(t.url, forbidden)
    ensures ValidTabs(tabs, forbidden) == [] <==> forall i :: 0 <= i < |tabs| ==> !Bookmarkable(tabs[i].url, forbidden)
  {
    var f := TabFilter(forbidden);
    forall t | t in ValidTabs(tabs, forbidden) ensures t in tabs && Bookmarkable(t.url, forbidden) {
      FilterMapFrom(tabs, f, t);
    }
    forall t | t in tabs && Bookmarkable(t.url, forbidden) ensures t in ValidTabs(tabs, forbidden) {
      var i :| 0 <= i < |tabs| && tabs[i] == t;
      FilterMapTo(tabs, f, i);
    }
    if exists i :: 0 <= i < |tabs| && Bookmarkable(tabs[i].url, forbidden) {
      var i :| 0 <= i < |tabs| && Bookmarkable(tabs[i].url, forbidden);
      FilterMapTo(tabs, f, i);
    }
    if ValidTabs(tabs, forbidden) != [] {
      var t := ValidTabs(tabs, forbidden)[0];
      FilterMapFrom(tabs, f, t);
    }
  }

  function EntryCandidate(e: Entry): Candidate
  {
    Candidate(e.url, Some(e.title), e.url)
  }

  /** The candidates for the processed URLs: each error record names the URL. */
  function EntryCandidates(es: seq<Entry>): (r: seq<Candidate>)
    ensures |r| == |es|
    ensures forall j :: 0 <= j < |es| ==> r[j] == EntryCandidate(es[j])
  {
    if es == [] then [] else EntryCandidates(es[..|es| - 1]) + [EntryCandidate(es[|es| - 1])]
  }

  /** Why an orchestration reports `success: false`. */
  datatype Failure =
    | NoInput              // the text box is empty
    | CannotBookmarkPage   // the page's URL is empty or forbidden
    | NoValidTabs          // no tab passes the filter
    | NoValidUrls          // processUrls produced no entry
    | HostFailure          // a host call threw

  /** What an orchestration reports: the page or the folder it filled and, for the
      loops, the number of successful creates and the error records. */
  datatype Outcome =
    | Bookmarked(item: Item)
    | Filed(folder: Item, count: nat, errors: seq<string>)
    | Failed(reason: Failure)

  const DefaultFolderName := "My Bookmarks"

  /** `folderName || 'My Bookmarks'`. */
  function FolderNameOr(name: string): (r: string)
    ensures r != ""
    ensures name != "" ==> r == name
  {
    if name == "" then DefaultFolderName else name
  }

  /** The store `after` is `before` with a new folder named `name` under `parentId`
      whose children are the nodes the create loop made for `cands`. */
  ghost predicate NewFolderFilled(before: map<string, seq<Item>>, after: map<string, seq<Item>>,
                                  parentId: string, name: string, cands: seq<Candidate>,
                                  folder: Item, count: nat, errors: seq<string>,
                                  oks: seq<bool>, made: seq<Item>, folderAtTop: bool, itemsAtTop: bool)
  {
    parentId in before && folder.title == name && folder.url.None? && folder.id !in before
    && Tally(cands, oks, made, count, errors)
    && count + |errors| == |cands|
    && after == Added(before, parentId, folder, folderAtTop)[folder.id := Filled([], made, itemsAtTop)]
  }

  /** After a bulk handler the new folder holds exactly the nodes the loop made, one
      per success: in reverse processing order when each went to index 0 (the last
      processed comes first), in processing order otherwise. The bar gained the
      folder, no other list changed, and the only new key is the folder's. */
  lemma NewFolderContents(before: map<string, seq<Item>>, after: map<string, seq<Item>>,
                          parentId: string, name: string, cands: seq<Candidate>,
                          folder: Item, count: nat, errors: seq<string>,
                          oks: seq<bool>, made: seq<Item>, folderAtTop: bool, itemsAtTop: bool)
    requires NewFolderFilled(before, after, parentId, name, cands, folder, count, errors,
                             oks, made, folderAtTop, itemsAtTop)
    ensures folder.id in after && |after[folder.id]| == count
    ensures forall k :: 0 <= k < count ==>
      after[folder.id][k] == if itemsAtTop then made[count - 1 - k] else made[k]
    ensures after.Keys == before.Keys + {folder.id}
    ensures after[parentId] == Placed(before[parentId], folder, folderAtTop)
    ensures forall p :: p in before && p != parentId ==> after[p] == before[p]
  {
    assert folder.id != parentId;
    forall k | 0 <= k < count
      ensures after[folder.id][k] == if itemsAtTop then made[count - 1 - k] else made[k]
    {
      if itemsAtTop {
        ReverseAt(made, k);
      }
    }
  }

  /** What a failed host call of bookmarkCurrentPageWithFolder leaves: nothing, or
      the folder it had already created at index 0 of the bar, which stays. */
  predicate FolderLeftBehind(before: map<string, seq<Item>>, after: map<string, seq<Item>>,
                             barId: string, folderName: string, folder: Option<Item>)
  {
    after == before
    || (barId in before && FindFolder(before[barId], folderName).None?
        && folder.Some? && folder.value.title == folderName && folder.value.url.None?
        && folder.value.id !in before && after == Added(before, barId, folder.value, true))
  }

  class Store {
    /** The children of each parent id, in index order. */
    var children: map<string, seq<Item>>
    /** Longer than every id in the store; new ids are made this long. */
    var idBound: nat

    ghost predicate Valid()
      reads this
    {
      (forall p :: p in children ==> |p| < idBound)
      && (forall p, k :: p in children && 0 <= k < |children[p]| ==> |children[p][k].id| < idBound)
    }

    /** A store holding the given children lists. */
    constructor(initial: map<string, seq<Item>>)
      ensures Valid() && children == initial
    {
      var bound: nat := 0;
      var rest := initial.Keys;
      while rest != {}
        invariant rest <= initial.Keys
        invariant forall p :: p in initial && p !in rest ==> |p| < bound
        invariant forall p, k :: p in initial && p !in rest && 0 <= k < |initial[p]| ==> |initial[p][k].id| < bound
        decreases rest
      {
        var p :| p in rest;
        ghost var before := bound;
        if bound <= |p| {
          bound := |p| + 1;
        }
        var k := 0;
        while k < |initial[p]|
          invariant 0 <= k <= |initial[p]|
          invariant before <= bound && |p| < bound
          invariant forall j :: 0 <= j < k ==> |initial[p][j].id| < bound
        {
          if bound <= |initial[p][k].id| {
            bound := |initial[p][k].id| + 1;
          }
          k := k + 1;
        }
        rest := rest - {p};
      }
      children := initial;
      idBound := bound;
    }

    /** An id no node of the store has. */
    function FreshId(): (id: string)
      reads this
      ensures |id| == idBound
    {
      seq(idBound, _ => '#')
    }

    /** `getChildren(parentId)`; None when the host has no such node. */
    function ChildrenOf(parentId: string): Option<seq<Item>>
      reads this
    {
      if parentId in children then Some(children[parentId]) else None
    }

    /** `bookmarks.create({parentId, title, url, index: 0})` when `atTop`, the same
        call without an index otherwise. It fails when the parent does not exist, or
        when the host fails. */
    method Create(parentId: string, title: string, url: Option<string>, atTop: bool)
      returns (created: Option<Item>)
      requires Valid()
      modifies this
      ensures Valid()
      ensures parentId !in old(children) ==> created.None?
      ensures created.None? ==> children == old(children)
      ensures created.Some? ==>
        parentId in old(children)
        && created.value.title == title && created.value.url == url
        && created.value.id !in old(children)
        && (forall p, k :: p in old(children) && 0 <= k < |old(children)[p]| ==> old(children)[p][k].id != created.value.id)
        && children == Added(old(children), parentId, created.value, atTop)
    {
      var hostOk: bool := *;
      if !hostOk || parentId !in children {
        return None;
      }
      var item := Item(FreshId(), title, url);
      children := Added(children, parentId, item, atTop);
      idBound := idBound + 1;
      created := Some(item);
    }

    /** The find-or-create of the "bookmark into a folder" handlers: the first child of
        the bar without a URL whose title is exactly `name` is reused; otherwise a
        folder of that name is created at index 0 of the bar. */
    method FindOrCreateFolder(barId: string, name: string) returns (folder: Option<Item>)
      requires Valid()
      modifies this
      ensures Valid()
      ensures barId !in old(children) ==> folder.None? && children == old(children)
      ensures barId in old(children) && FindFolder(old(children)[barId], name).Some? ==>
        folder == Some(old(children)[barId][FindFolder(old(children)[barId], name).value])
        && children == old(children)
      ensures barId in old(children) && FindFolder(old(children)[barId], name).None? ==>
        (folder.None? && children == old(children))
        || (folder.Some? && folder.value.title == name && folder.value.url.None?
            && folder.value.id !in old(children)
            && children == Added(old(children), barId, folder.value, true))
    {
      if barId !in children {
        return None;
      }
      var found := FindFolder(children[barId], name);
      if found.Some? {
        return Some(children[barId][found.value]);
      }
      folder := Create(barId, name, None, true);
    }

    /** The try block of one iteration of the create loops: the candidate is created in
        the folder unless deriving its title threw. */
    method CreateFor(folderId: string, c: Candidate, atTop: bool) returns (created: Option<Item>)
      requires Valid()
      modifies this
      ensures Valid()
      ensures c.title.None? || folderId !in old(children) ==> created.None?
      ensures created.None? ==> children == old(children)
      ensures created.Some? ==>
        folderId in old(children) && MadeFor(created.value, c)
        && children == old(children)[folderId := Placed(old(children)[folderId], created.value, atTop)]
    {
      created := None;
      if c.title.Some? {
        created := Create(folderId, c.title.value, Some(c.url), atTop);
      }
    }

    /** `bookmarkCurrentPage`: a page whose URL is empty or forbidden is refused;
        otherwise the page is created under `parentId`. */
    method BookmarkPage(tab: Tab, forbidden: seq<string>, hostname: string -> Option<string>,
                        parentId: string, atTop: bool) returns (r: Outcome)
      requires Valid()
      modifies this
      ensures Valid()
      ensures r == Failed(CannotBookmarkPage) <==> !Bookmarkable(tab.url, forbidden)
      ensures r.Failed? ==> children == old(children)
      ensures r.Filed? ==> false
      ensures r.Bookmarked? ==>
        Bookmarkable(tab.url, forbidden) && TabTitle(tab, hostname).Some? && parentId in old(children)
        && r.item.title == TabTitle(tab, hostname).value && r.item.url == Some(tab.url)
        && children == Added(old(children), parentId, r.item, atTop)
    {
      if !Bookmarkable(tab.url, forbidden) {
        return Failed(CannotBookmarkPage);
      }
      var title := TabTitle(tab, hostname);
      if title.None? {
        return Failed(HostFailure);
      }
      var created := Create(parentId, title.value, Some(tab.url), atTop);
      if created.None? {
        return Failed(HostFailure);
      }
      r := Bookmarked(created.value);
    }

    /** `bookmarkCurrentPageWithFolder`: after the page guard, the folder named
        `folderName` is found among the bar's children or created at index 0, and
        the page is created at index 0 of that folder. */
    method BookmarkPageInFolder(tab: Tab, forbidden: seq<string>, hostname: string -> Option<string>,
                                barId: string, folderName: string)
      returns (r: Outcome, ghost folder: Option<Item>)
      requires Valid()
      modifies this
      ensures Valid()
      ensures r == Failed(CannotBookmarkPage) <==> !Bookmarkable(tab.url, forbidden)
      ensures r == Failed(CannotBookmarkPage) ==> children == old(children)
      ensures r.Filed? ==> false
      ensures r.Failed? ==> r.reason == CannotBookmarkPage || r.reason == HostFailure
      ensures r == Failed(HostFailure) ==> FolderLeftBehind(old(children), children, barId, folderName, folder)
      ensures r.Bookmarked? ==>
        Bookmarkable(tab.url, forbidden) && TabTitle(tab, hostname).Some? && barId in old(children)
        && folder.Some? && folder.value.title == folderName && !ItemHasUrl(folder.value)
        && r.item.title == TabTitle(tab, hostname).value && r.item.url == Some(tab.url)
        && match FindFolder(old(children)[barId], folderName)
           case Some(k) =>
             folder.value == old(children)[barId][k] && folder.value.id in old(children)
             && children == Added(old(children), folder.value.id, r.item, true)
           case None =>
             folder.value.id !in old(children) && folder.value.url.None?
             && children == Added(Added(old(children), barId, folder.value, true), folder.value.id, r.item, true)
    {
      folder := None;
      if !Bookmarkable(tab.url, forbidden) {
        return Failed(CannotBookmarkPage), folder;
      }
      var title := TabTitle(tab, hostname);
      if title.None? {
        return Failed(HostFailure), folder;
      }
      var found := FindOrCreateFolder(barId, folderName);
      folder := found;
      if found.None? {
        return Failed(HostFailure), folder;
      }
      var created := Create(found.value.id, title.value, Some(tab.url), true);
      if created.None? {
        return Failed(HostFailure), folder;
      }
      r := Bookmarked(created.value);
    }

    /** Creates a folder named `name` under `parentId` and runs the create loop over
        `cands` in it; a failure to create the folder fails the whole operation. */
    method FillNewFolder(parentId: string, name: string, cands: seq<Candidate>,
                         folderAtTop: bool, itemsAtTop: bool)
      returns (r: Outcome, ghost oks: seq<bool>, ghost made: seq<Item>)
      requires Valid()
      modifies this
      ensures Valid()
      ensures r.Bookmarked? ==> false
      ensures r.Failed? ==> r.reason == HostFailure && children == old(children)
      ensures r.Filed? ==>
        NewFolderFilled(old(children), children, parentId, name, cands, r.folder, r.count, r.errors,
                        oks, made, folderAtTop, itemsAtTop)
    {
      oks, made := [], [];
      var folder := Create(parentId, name, None, folderAtTop);
      if folder.None? {
        return Failed(HostFailure), oks, made;
      }
      var count, errors;
      count, errors, oks, made := InsertAll(folder.value.id, cands, itemsAtTop);
      r := Filed(folder.value, count, errors);
    }

    /** `bookmarkAllTabs`: the tabs that pass the filter are bookmarked into a new
        folder named `folderName`; when none passes, nothing is created. */
    method BookmarkTabs(tabs: seq<Tab>, forbidden: seq<string>, hostname: string -> Option<string>,
                        barId: string, folderName: string, folderAtTop: bool, itemsAtTop: bool)
      returns (r: Outcome, ghost oks: seq<bool>, ghost made: seq<Item>)
      requires Valid()
      modifies this
      ensures Valid()
      ensures r == Failed(NoValidTabs) <==> ValidTabs(tabs, forbidden) == []
      ensures r.Failed? ==> (r.reason == NoValidTabs || r.reason == HostFailure) && children == old(children)
      ensures r.Bookmarked? ==> false
      ensures r.Filed? ==>
        NewFolderFilled(old(children), children, barId, folderName,
                        TabCandidates(ValidTabs(tabs, forbidden), hostname), r.folder, r.count, r.errors,
                        oks, made, folderAtTop, itemsAtTop)
    {
      var valid := ValidTabs(tabs, forbidden);
      if valid == [] {
        return Failed(NoValidTabs), [], [];
      }
      r, oks, made := FillNewFolder(barId, folderName, TabCandidates(valid, hostname), folderAtTop, itemsAtTop);
    }

    /** `processAndBookmark` once processUrls has run: no entry fails with "No valid
        URLs found"; otherwise a folder named `folderName || 'My Bookmarks'` is
        created and every entry is bookmarked into it. */
    method FileEntries(entries: seq<Entry>, barId: string, folderName: string,
                       folderAtTop: bool, itemsAtTop: bool)
      returns (r: Outcome, ghost oks: seq<bool>, ghost made: seq<Item>)
      requires Valid()
      modifies this
      ensures Valid()
      ensures r == Failed(NoValidUrls) <==> entries == []
      ensures r.Failed? ==> (r.reason == NoValidUrls || r.reason == HostFailure) && children == old(children)
      ensures r.Bookmarked? ==> false
      ensures r.Filed? ==>
        NewFolderFilled(old(children), children, barId, FolderNameOr(folderName),
                        EntryCandidates(entries), r.folder, r.count, r.errors,
                        oks, made, folderAtTop, itemsAtTop)
    {
      if entries == [] {
        return Failed(NoValidUrls), [], [];
      }
      r, oks, made := FillNewFolder(barId, FolderNameOr(folderName), EntryCandidates(entries), folderAtTop, itemsAtTop);
    }

    /** The create loop of the bulk handlers: each candidate is created in the folder,
        a success adds one to `count`, a failure adds the candidate's key to `errors`,
        and the loop goes on either way; the folder ends up with the made nodes in
        front of (at index 0, last first) or after its old children. */
    method InsertAll(folderId: string, cands: seq<Candidate>, atTop: bool)
      returns (count: nat, errors: seq<string>, ghost oks: seq<bool>, ghost made: seq<Item>)
      requires Valid()
      modifies this
      ensures Valid()
      ensures Tally(cands, oks, made, count, errors)
      ensures count + |errors| == |cands|
      ensures folderId !in old(children) ==> count == 0 && children == old(children)
      ensures folderId in old(children) ==>
        children == old(children)[folderId := Filled(old(children)[folderId], made, atTop)]
    {
      count, errors, oks, made := 0, [], [], [];
      if folderId in children {
        assert Filled(children[folderId], [], atTop) == children[folderId];
        assert children[folderId := children[folderId]] == children;
      }
      var i := 0;
      while i < |cands|
        invariant 0 <= i <= |cands|
        invariant Valid()
        invariant Tally(cands[..i], oks, made, count, errors)
        invariant folderId !in old(children) ==> count == 0 && children == old(children)
        invariant folderId in old(children) ==>
          children == old(children)[folderId := Filled(old(children)[folderId], made, atTop)]
      {
        var c := cands[i];
        ghost var before := children;
        var created := CreateFor(folderId, c, atTop);
        TallyStep(cands, i, oks, made, count, errors, created);
        if created.Some? {
          FilledMapStep(old(children), folderId, made, created.value, atTop, before, children);
          count := count + 1;
          made := made + [created.value];
        } else {
          errors := errors + [c.key];
        }
        oks := oks + [created.Some?];
        i := i + 1;
      }
      assert cands[..i] == cands;
      SelectPartition(cands, oks);
    }
  }
}
