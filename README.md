# Bookmark converter, modelled in Dafny

The bookmark converter turns a messy list of URLs into bookmarks. It has three parts.

- **A browser extension.** Its background scripts bookmark the current page, all open tabs, or a pasted list of URLs into a folder on the bookmarks bar. Four variants exist: the original, Chromium, Firefox and a universal script. Its popups hold a folder selector with a cached folder list and a search box. They also write Netscape bookmark files: a folder document of the pasted URLs, or an export of the whole tree. The Safari popup has its own URL cleaner and a text area that it imports into and exports from.
- **A Flask web app** (`app.py`). Its `/convert` endpoint cleans the pasted text, writes a folder document and logs usage to a bounded activity log.
- **A command-line converter** (`bookmark-converter.py`). It turns a text file of URLs into the same document.

## What the model contains

**Shared modules**
- `Strings` and `Seqs` model the string and list operations the code relies on:
  - JavaScript `trim` and Python `strip`, each with its own set of white-space characters;
  - `split`, `join` and `includes`;
  - `replace` with a string pattern: JavaScript replaces the first occurrence, Python every occurrence;
  - the `filter`/`map`/`push` loops.
- `UrlNormalizer` is `processUrls` of the JavaScript files. It uses four regular expressions: the list-marker strip, the label strip, the closing-parenthesis strip and the domain test. Each is a function. For the marker strip, the label strip and the domain test, a lemma proves the function equals the regular expression's meaning. The parenthesis strip `\)$` is itself the definition, a one-character test at the end.
- `Bookmarks` is the tree `getTree` returns and the folder listing of `getBookmarkFolders`.
- `BookmarkStore` is the host's bookmark store. It is a `Store` class whose `children` map is changed by `create`. It also holds the create loops the handlers share.
- `NetscapeHtml` is the Netscape file the generators write, with lemmas that split a document back into its lines.

**One module per script**
- `ChromeBackground`, `UniversalBackground`, `FirefoxBackground` and `LegacyBackground`: the background scripts. They differ in the bar they use, the schemes they refuse, and whether bookmarks go to index 0 or to the end.
- `LegacyPopup`, `ChromePopup`, `FirefoxPopup`, `FolderPicker` and `SafariPopup`: the popups. `FolderPicker.Picker` is a class holding the selector's state.
- `WebApp`: the web app's cleaner, document, `/convert` endpoint and usage-log class.
- `Converter`: the command-line converter.

**Parameters in place of the host**
- The host's URL parser is a parameter: `hostname: string -> Option<string>` for the JavaScript `new URL(...).hostname`, and `netloc: string -> Option<string>` for Python's `urlparse(...).netloc`.
- The clocks are parameters: `nowMs`, `now` and `timestamp`.
- So is each host call that can fail: the tree read, the extension context, the answer from the background script, the readability of the log file, and whether the output file could be written.

## Model

| member | source | states |
|---|---|---|
| Strings.TrimPadded | browser-extension/chrome-based/background.js:374 | the trim is a slice of the input, every character outside it is white space, and its first and last characters are not white space |
| Strings.TrimUnchanged | app.py:26 | a text whose ends are not white space is its own strip |
| Strings.ReplaceFirst | browser-extension/chrome-based/background.js:393 | for a leftmost occurrence at offset i, the result is the text before i, then the replacement, then the text after the occurrence; a text with no occurrence is unchanged |
| Strings.ReplaceAll | app.py:85 | the result is no longer than the text when the replacement is no longer than the pattern |
| Strings.ReplaceAllLeftmost | app.py:85 | for a leftmost occurrence at offset i, the result is the text before i, then the replacement, then the replacement of every occurrence in the text after the occurrence |
| Strings.ReplaceAllUnchanged | bookmark-converter.py:44 | a text with no occurrence is unchanged |
| Strings.AsciiLower | browser-extension/chrome-based/popup.js:450 | the same length, each ASCII capital is lowered and every other character is kept |
| Strings.ContainsIsOccurrence | browser-extension/chrome-based/popup.js:451 | `includes` holds iff the term occurs at some offset |
| Strings.Split | app.py:22 | there is always at least one piece |
| Strings.SplitPiecesFree | app.py:22 | no piece of a split holds the separator |
| Strings.JoinSplit | browser-extension/safari/popup.js:491-500 | joining the pieces of a split gives back the text |
| Strings.SplitJoin | app.py:95 | splitting a joined list gives back the list when it is non-empty and no piece holds the separator |
| Seqs.FilterMapOrigins | browser-extension/chrome-based/background.js:373-406 | the filter-and-map loop keeps, in order, exactly the elements the step maps to a value, and nothing else |
| UrlNormalizer.StripLabelIsRegex | browser-extension/chrome-based/background.js:379 | when `^[A-Za-z\s]+\(` matches a prefix ending at offset m, the strip leaves the text after m; when it matches no prefix, the text is kept |
| UrlNormalizer.LabelMatchUnique | browser-extension/chrome-based/background.js:379 | the pattern `^[A-Za-z\s]+\(` matches at most one prefix |
| UrlNormalizer.StripListMarkerIsRegex | browser-extension/chrome-based/background.js:378 | `^[marker]\s*` matches iff the text starts with a marker; the strip leaves the text after the match, which is the marker and the whole run of white space after it; with no match, the text is kept |
| NormalizerExamples.MarkerThenSpace | browser-extension/chrome-based/background.js:378 | a marker, one white-space character and a rest that does not start with white space: the strip leaves that rest |
| NormalizerExamples.NotMarker | browser-extension/chrome-based/background.js:378 | a text that does not start with a marker is kept by the marker strip |
| NormalizerExamples.NoParen | browser-extension/chrome-based/background.js:380 | a text that does not end with ')' is kept by the parenthesis strip |
| UrlNormalizer.LooksLikeDomainIsRegex | browser-extension/chrome-based/background.js:384 | the domain test holds iff `^[a-zA-Z0-9][a-zA-Z0-9\-\.]*\.[a-zA-Z]{2,}` matches at the start |
| UrlNormalizer.InferScheme | browser-extension/chrome-based/background.js:383-387 | the text is kept or gains "https://"; the result has an http(s) scheme iff the text had one or is a non-empty domain-like text; a text with a scheme is kept |
| UrlNormalizer.ProcessLine | browser-extension/chrome-based/background.js:374-406 | the steps of the loop body give exactly the entry the line normalises to: none for a blank line or one left without a scheme, otherwise the stripped line with its title |
| UrlNormalizer.ProcessUrls | browser-extension/chrome-based/background.js:369-409 | the loop returns the normalised text: each line normalised, the lines that give an entry kept, in line order |
| UrlNormalizer.NormalizedUrlsAreHttp | browser-extension/chrome-based/background.js:389 | every entry's URL starts with http:// or https:// and holds no line break |
| UrlNormalizer.EntryUrlFromLine | browser-extension/chrome-based/background.js:374-406 | an entry's URL is a piece of its line, or that piece with "https://" in front |
| UrlNormalizer.NormalizedLineHasNoBreak | browser-extension/chrome-based/background.js:370 | a line without a line break gives a URL without one |
| UrlNormalizer.NormalizedInLineOrder | browser-extension/chrome-based/background.js:373-406 | each entry comes from its own line, in strictly increasing line order, and a line's index is kept iff that line gives an entry |
| UrlNormalizer.SchemeLineKept | browser-extension/chrome-based/background.js:383-389 | a trimmed line with a scheme and no trailing ')' gives itself as the URL, titled by its host |
| UrlNormalizer.NormalizeIdempotentUnlessParen | browser-extension/chrome-based/background.js:374-389 | a produced URL that does not end in ')' or white space normalises to itself |
| UrlNormalizer.SchemeUrlStable | browser-extension/chrome-based/background.js:383-389 | a URL with a scheme and no trailing ')' is its own normal form |
| NormalizerExamples.ArrowedDomainKeepsLabel | browser-extension/chrome-based/background.js:378-387 | "→ example.com (My Site)" becomes "https://example.com (My Site": the arrow goes, the label strip finds no label before the '(', and only the ')' goes |
| NormalizerExamples.NumberedLineDropped | browser-extension/chrome-based/background.js:378 | "1. google.com" is dropped: the marker strip removes only "1", and ". google.com" is no domain |
| NormalizerExamples.MisencodedMarkerDropsArrow | browser-extension/chrome-based/background.js:378 | "→ example.com" gives "https://example.com" when the arrow is in the marker class, and is dropped when the class holds the arrow's misencoded characters instead |
| NormalizerExamples.NormalizeNotIdempotent | browser-extension/chrome-based/background.js:380 | "http://x.io/a))" normalises to "http://x.io/a)", which normalises to "http://x.io/a", so normalising twice differs from once |
| NormalizerExamples.ParenUrl | browser-extension/chrome-based/background.js:380 | an http:// URL followed by ')' loses that ')', as a URL that ends in a parenthesis does |
| Bookmarks.SuggestionsShape | browser-extension/chrome-based/background.js:334-339 | the suggestions are flagged as suggestions and have no bookmarks, their titles are distinct, and the first is "My Bookmarks" |
| Bookmarks.FindFirst | browser-extension/chrome-based/background.js:310 | the first index matching the bar rule; no earlier child matches; None iff no child matches |
| Bookmarks.FindBar | browser-extension/chrome-based/background.js:310 | a found bar is a root child matching the rule; none is found only when the root has no children or none matches |
| Bookmarks.CollectFolders | browser-extension/chrome-based/background.js:313-328 | the loop returns one descriptor per folder child, in child order |
| Bookmarks.BarFoldersAreFolderChildren | browser-extension/chrome-based/background.js:316-324 | every descriptor is made from a child that has children and no URL; it carries that child's id, title and direct links |
| Bookmarks.FolderCountIsDirectLinks | browser-extension/chrome-based/background.js:319 | a descriptor's count is the number of its direct children with a URL, not deeper ones |
| Bookmarks.LexLeTotal | browser-extension/chrome-based/background.js:351 | the title order is total |
| Bookmarks.LexLeTrans | browser-extension/chrome-based/background.js:351 | the title order is transitive |
| Bookmarks.InsertByTitleSorted | browser-extension/chrome-based/background.js:351 | inserting into a sorted list keeps it sorted and adds exactly that element |
| Bookmarks.SortByTitleCorrect | browser-extension/chrome-based/background.js:351 | the sorted listing is ordered by title and is a permutation of the input |
| Bookmarks.ListBarFolders | browser-extension/chrome-based/background.js:305-352 | the try block computes the folder listing of the tree |
| Bookmarks.FolderListingContents | browser-extension/chrome-based/background.js:305-352 | a listing is sorted, and is a permutation of the bar's folders plus the suggestions the rule adds |
| Bookmarks.FolderListingMembers | browser-extension/chrome-based/background.js:341-348 | an entry is listed iff it is the descriptor of a folder child of the bar, or a suggestion the listing adds |
| Bookmarks.BarFoldersAreReal | browser-extension/chrome-based/background.js:316-324 | no descriptor gathered from the bar is a suggestion |
| Bookmarks.AlwaysListing | browser-extension/chrome-based/background.js:341-348 | a listing that always appends the suggestions is sorted, has four more entries than the bar has folders, and holds every suggestion |
| Bookmarks.WhenEmptyListing | browser-extension/firefox/background.js:287-297 | a listing that adds the suggestions only to an empty list is the four suggestions iff the bar has no folder, and otherwise holds no suggestion |
| Bookmarks.AnswerFolders | browser-extension/firefox/background.js:260-303 | the handler answers `success: false` when the tree could not be read, and the listing otherwise |
| Bookmarks.PreorderLinksAreTheLinks | browser-extension/chrome-based/popup.js:909-918 | the recursive walk meets exactly the nodes of the tree that have a URL |
| Bookmarks.PreorderLinksAppend | browser-extension/chrome-based/popup.js:909-918 | walking two forests side by side is walking one and then the other |
| Bookmarks.PreorderLinksFlat | browser-extension/safari/popup.js:418-422 | on nodes without children the walk keeps the links of the list |
| BookmarkStore.FindFolder | browser-extension/chrome-based/background.js:177-178 | the first child with that exact title and no URL; None iff no child qualifies |
| BookmarkStore.TallyAccounts | browser-extension/chrome-based/background.js:225-241 | after the create loop, successes plus errors are the candidates; each made node was made for a successful candidate; each error names a failed candidate; a successful candidate had a title |
| BookmarkStore.ValidTabsAreBookmarkable | browser-extension/chrome-based/background.js:207-212 | the tab filter keeps exactly the tabs with a non-empty URL that starts with no forbidden prefix, in tab order |
| BookmarkStore.FolderNameOr | browser-extension/chrome-based/background.js:266 | an empty folder name becomes "My Bookmarks"; any other name is kept |
| BookmarkStore.NewFolderContents | browser-extension/chrome-based/background.js:219-241 | after a bulk handler the new folder holds exactly the nodes the loop made, in order when appended and reversed when each goes to index 0; the folder is placed in the parent's list and no other list changes |
| BookmarkStore.Store.constructor | browser-extension/chrome-based/background.js:145-164 | a store holding the given children lists |
| BookmarkStore.Store.Create | browser-extension/chrome-based/background.js:153-158 | an unknown parent gives no node; a failure changes nothing; a new node has a fresh id and the given title and URL, and goes to index 0 or to the end of its parent's list |
| BookmarkStore.Store.FindOrCreateFolder | browser-extension/chrome-based/background.js:177-187 | an unknown bar gives nothing; an existing folder of that name is reused with no change; otherwise a new folder goes to index 0 of the bar, or nothing changes when the create fails |
| BookmarkStore.Store.CreateFor | browser-extension/chrome-based/background.js:229-240 | a candidate without a title, or an unknown folder, gives no node; a made node is the candidate's and is placed in the folder; nothing else changes |
| BookmarkStore.Store.BookmarkPage | browser-extension/chrome-based/background.js:145-164 | an empty or forbidden URL is refused with the store unchanged; otherwise the page is created under the bar with its title or host |
| BookmarkStore.Store.BookmarkPageInFolder | browser-extension/chrome-based/background.js:167-201 | after the page guard, the page goes into the folder found or created under the bar; a failure is a refused page or a host failure, and after a host failure the store is unchanged or holds just the new empty folder at index 0 of the bar |
| BookmarkStore.Store.FillNewFolder | browser-extension/chrome-based/background.js:219-241 | a new folder under the parent, filled by the create loop; a failure is a host failure and changes nothing |
| BookmarkStore.Store.BookmarkTabs | browser-extension/chrome-based/background.js:204-252 | no valid tab means failure and no change; otherwise the valid tabs fill a new folder |
| BookmarkStore.Store.FileEntries | browser-extension/chrome-based/background.js:255-298 | no entry means failure and no change; otherwise the entries fill a new folder named `folderName \|\| 'My Bookmarks'` |
| BookmarkStore.Store.InsertAll | browser-extension/chrome-based/background.js:272-287 | the loop creates every candidate in turn and keeps the tally of successes and errors |
| NetscapeHtml.Anchor | app.py:89 | the link line holds no line break when the indentation, URL and title hold none |
| NetscapeHtml.FolderDocumentLines | app.py:60-72 | a folder document splits into the header, the heading, the list's opening line, the items one per line, and the two closing lines |
| NetscapeHtml.DatedHeading | browser-extension/popup.js:187 | the dated heading holds no line break when the name holds none |
| NetscapeHtml.EntryItem | browser-extension/chrome-based/popup.js:594 | an entry's line holds no line break when its URL and title hold none |
| NetscapeHtml.EntryDocumentLines | browser-extension/chrome-based/popup.js:598-608 | a document of entry lines has the header's lines plus one per entry plus four; the heading follows the header and the k-th entry's line is at its place |
| NetscapeHtml.PlainHeading | app.py:68 | the undated heading names the folder and holds no line break when the name holds none |
| NetscapeHtml.Decimal | browser-extension/popup.js:187 | the numeral is made of digits only, and starts with '0' only for the number 0 |
| NetscapeHtml.DecimalRoundTrip | browser-extension/popup.js:187 | the numeral printed for the ADD_DATE second reads back as that number |
| NetscapeHtml.FolderDocumentOfTerminated | browser-extension/chrome-based/popup.js:592-608 | items each followed by '\n' give the same document as items joined with '\n' |
| NetscapeHtml.ExportDocumentLines | browser-extension/chrome-based/popup.js:901-923 | an export splits into the export header, one anchor line per link in order, and the closing line |
| NetscapeHtml.AppendLinks | browser-extension/chrome-based/popup.js:909-918 | the recursive extraction appends the export line of each node with a URL, in walk order |
| NetscapeHtml.AppendNode | browser-extension/chrome-based/popup.js:911-916 | one node adds its own export line when it has a URL, then the lines of everything below it |
| NetscapeHtml.ExportTree | browser-extension/chrome-based/popup.js:901-923 | the export of every link of the tree in walk order, under the export header; the Firefox popup's generator (browser-extension/firefox/popup.js:605-627) is the same code and is modelled by this member |
| NetscapeHtml.ExportTreeLines | browser-extension/chrome-based/popup.js:901-923 | the export has the header's lines plus one per link plus one, and each link line is the export line of a node of the tree that has a URL |
| ChromeBackground.ForbiddenSchemes | browser-extension/chrome-based/background.js:147 | a page is bookmarkable iff its URL is non-empty and starts with none of chrome://, moz-extension:// and edge:// |
| ChromeBackground.BookmarkCurrentPage | browser-extension/chrome-based/background.js:145-164 | refused iff the page guard fails; the page goes to index 0 of bar "1" |
| ChromeBackground.BookmarkCurrentPageWithFolder | browser-extension/chrome-based/background.js:167-201 | the folder is found by exact title or created at index 0 of bar "1"; the page goes to its index 0; a host failure leaves the store unchanged or with just the new empty folder |
| ChromeBackground.BookmarkAllTabs | browser-extension/chrome-based/background.js:204-252 | "No valid tabs" iff the filter keeps nothing; otherwise a new folder under bar "1" holds the tabs |
| ChromeBackground.ProcessAndBookmark | browser-extension/chrome-based/background.js:255-298 | "No valid URLs" iff the text normalises to nothing; otherwise a new folder holds the entries |
| ChromeBackground.GetBookmarkFolders | browser-extension/chrome-based/background.js:301-366 | the folders of bar "1" plus the four suggestions, sorted; a tree that cannot be read gives the suggestions alone |
| ChromeBackground.ChromeFoldersShape | browser-extension/chrome-based/background.js:301-366 | every suggestion is always listed; a readable tree gives a sorted listing with four more entries than bar "1" has folders; the fallback for an unreadable tree is not sorted |
| ChromeBackground.ExtractUrls | browser-extension/chrome-based/background.js:529-538 | the walk appends the URLs of exactly the tree's links, in walk order |
| ChromeBackground.ExportBookmarksToWebApp | browser-extension/chrome-based/background.js:523-557 | a tree that cannot be read fails; otherwise the walk's URLs joined with '\n', and the number of links |
| ChromeBackground.ExportedUrlsRoundTrip | browser-extension/chrome-based/background.js:547 | splitting the exported text gives back the URL list, one per link, each the URL of a link of the tree, when no URL holds a line break |
| UniversalBackground.BarIdByPlatform | browser-extension/background-universal.js:99-105 | the bar id is 'toolbar_____' iff the platform is Firefox, and "1" iff it is not |
| UniversalBackground.TabFilterByPlatform | browser-extension/background-universal.js:180-186 | a URL passes iff it is non-empty and not moz-extension:, nor about: on Firefox, nor chrome: or edge: elsewhere |
| UniversalBackground.WebPagesPass | browser-extension/background-universal.js:110-114 | an http:// or https:// page passes on both platforms |
| UniversalBackground.BookmarkCurrentPage | browser-extension/background-universal.js:108-132 | refused iff the platform's guard fails; the page goes to the platform's bar |
| UniversalBackground.BookmarkCurrentPageWithFolder | browser-extension/background-universal.js:135-174 | the folder is found or created under the platform's bar, and the page goes into it; a host failure leaves the store unchanged or with just the new empty folder |
| UniversalBackground.BookmarkAllTabs | browser-extension/background-universal.js:177-228 | "No valid tabs" iff the platform's filter keeps nothing; otherwise the tabs fill a new folder |
| UniversalBackground.ProcessAndBookmark | browser-extension/background-universal.js:231-276 | "No valid URLs" iff nothing normalises; otherwise the entries fill a new folder |
| UniversalBackground.GetBookmarkFolders | browser-extension/background-universal.js:279-321 | the listing of the platform's bar |
| UniversalBackground.UniversalFoldersShape | browser-extension/background-universal.js:279-321 | `success: false` iff the tree cannot be read; otherwise sorted, and the suggestions exactly when the bar has no folder |
| FirefoxBackground.ToolbarIdIsFirstMatch | browser-extension/firefox/background.js:87-90 | the toolbar is the first root child titled 'Bookmarks Toolbar' or with id 'toolbar_____'; without one the constant id is used |
| FirefoxBackground.ToolbarIdOfFirefoxTree | browser-extension/firefox/background.js:87-90 | a child with id 'toolbar_____' gives that id unless an earlier child has the toolbar's title |
| FirefoxBackground.ForbiddenPages | browser-extension/firefox/background.js:79 | a page is bookmarkable iff its URL is non-empty and not about: or moz-extension:// |
| FirefoxBackground.BookmarkCurrentPage | browser-extension/firefox/background.js:77-103 | refused iff the guard fails; the page goes to index 0 of the resolved toolbar |
| FirefoxBackground.BookmarkCurrentPageWithFolder | browser-extension/firefox/background.js:106-147 | the folder is found or created under the resolved toolbar, and the page goes into it; any other outcome leaves the store unchanged or with just the new empty folder |
| FirefoxBackground.BookmarkAllTabs | browser-extension/firefox/background.js:150-204 | the filter runs before the tree is read; no valid tab means failure and no change |
| FirefoxBackground.ProcessAndBookmark | browser-extension/firefox/background.js:207-257 | "No valid URLs" before the tree is read; the entries go to index 0 of a new folder |
| FirefoxBackground.LastProcessedFirst | browser-extension/firefox/background.js:234-241 | the new folder lists the bookmarks last first, so the last processed URL is at index 0 |
| FirefoxBackground.GetBookmarkFolders | browser-extension/firefox/background.js:260-303 | the listing of the toolbar |
| FirefoxBackground.FirefoxFoldersShape | browser-extension/firefox/background.js:260-303 | `success: false` iff the tree cannot be read; otherwise sorted, and the suggestions exactly when the toolbar has no folder |
| LegacyBackground.GuardsDiffer | browser-extension/background.js:78 | the page guard refuses chrome:// and moz-extension://; the tab filter refuses edge:// as well |
| LegacyBackground.BookmarkCurrentPage | browser-extension/background.js:76-95 | refused iff the page guard fails; the page goes to index 0 of bar "1" |
| LegacyBackground.BookmarkCurrentPageWithFolder | browser-extension/background.js:98-132 | the folder is found or created under bar "1", and the page goes into it; a host failure leaves the store unchanged or with just the new empty folder |
| LegacyBackground.BookmarkAllTabs | browser-extension/background.js:135-182 | "No valid tabs" iff the filter keeps nothing; the tabs are appended to a new folder at index 0 of the bar |
| LegacyBackground.ProcessAndBookmark | browser-extension/background.js:185-227 | "No valid URLs" iff nothing normalises; the entries are appended to a new folder |
| LegacyBackground.AppendedInOrder | browser-extension/background.js:195-211 | the new folder lists the made bookmarks in text order |
| LegacyBackground.GetBookmarkFolders | browser-extension/background.js:230-271 | the listing of node "1" |
| LegacyBackground.LegacyFoldersShape | browser-extension/background.js:230-271 | `success: false` iff the tree cannot be read; otherwise sorted, and the suggestions exactly when the bar has no folder |
| LegacyPopup.AddBookmarksToBrowser | browser-extension/popup.js:36-91 | an empty box is refused, as is a text with no valid URL, with the store unchanged; otherwise a folder appended to bar "1" holds the entries |
| LegacyPopup.DatedItem | browser-extension/popup.js:191 | the dated link line holds no line break when the entry holds none |
| LegacyPopup.GenerateBookmarksHtml | browser-extension/popup.js:178-198 | the template and the loop write the dated folder document of the entries |
| LegacyPopup.AppendDatedItems | browser-extension/popup.js:190-192 | the loop adds one '\n' and one dated link line per entry, so the text stays the join of all its lines |
| LegacyPopup.DatedDocumentLines | browser-extension/popup.js:178-198 | the download splits into the header, the dated heading and one dated line per entry, in order |
| LegacyPopup.DownloadBookmarksHtml | browser-extension/popup.js:93-135 | the same two refusals; otherwise the document of the processed URLs under `folderName \|\| 'My Bookmarks'` and their number |
| LegacyPopup.DownloadedUrlsAreHttp | browser-extension/popup.js:93-135 | every downloaded URL starts with http:// or https:// |
| LegacyPopup.BookmarkCurrentPageAction | browser-extension/popup.js:200-223 | refused iff the two-scheme guard fails; the page is appended to bar "1" |
| LegacyPopup.BookmarkAllTabsAction | browser-extension/popup.js:225-267 | "No valid tabs" iff the three-scheme filter keeps nothing; otherwise a folder appended to the bar holds the tabs |
| LegacyPopup.TabsAppendedInOrder | browser-extension/popup.js:225-267 | the tabs' folder is the bar's last child and lists the bookmarks in tab order |
| FolderPicker.CacheFreshness | browser-extension/chrome-based/popup.js:331-346 | a cached list is read back unchanged exactly until an hour after its timestamp; a missing timestamp counts as 0 |
| FolderPicker.ShouldCacheIffRealFolder | browser-extension/chrome-based/popup.js:384-386 | the list is cached iff some entry is not a suggestion, and adding suggestions does not change that |
| FolderPicker.Picker.constructor | browser-extension/chrome-based/popup.js:91-109 | an empty selector over the stored cache |
| FolderPicker.Picker.RenderFolders | browser-extension/chrome-based/popup.js:370-387 | one displayed item per folder; the list is cached with the render time exactly when the guard holds |
| FolderPicker.Picker.Show | browser-extension/chrome-based/popup.js:370-387 | setting the folders and rendering them |
| FolderPicker.Picker.FilterFolders | browser-extension/chrome-based/popup.js:445-462 | an item is shown iff its lower-cased name contains the term; "create new" is shown iff no lower-cased title equals the term |
| FolderPicker.Picker.Visibility | browser-extension/chrome-based/popup.js:449-456 | one flag per rendered item, set iff the item's lower-cased title contains the term |
| FolderPicker.Picker.HasExactTitle | browser-extension/chrome-based/popup.js:459-460 | true iff some folder's lower-cased title equals the term |
| FolderPicker.Picker.SearchInput | browser-extension/chrome-based/popup.js:138-140 | the typed value is lower-cased before filtering, so typing a listed title hides "create new" |
| ChromePopup.GetFoldersDirectApi | browser-extension/chrome-based/popup.js:236-288 | None when the tree cannot be read; otherwise the direct listing |
| ChromePopup.FoldersOfBarsMember | browser-extension/chrome-based/popup.js:251-265 | every gathered folder is the descriptor of a folder child of one of the bars, tagged with that bar's title |
| ChromePopup.DirectFoldersShape | browser-extension/chrome-based/popup.js:236-288 | the direct listing ends with the four suggestions; each entry before them is a real folder of a root child that is a bar; it is cached iff it holds more than the suggestions |
| ChromePopup.GetFoldersAlternativeApi | browser-extension/chrome-based/popup.js:290-329 | None when the tree cannot be read; otherwise the alternative listing |
| ChromePopup.AlternativeFoldersKeep | browser-extension/chrome-based/popup.js:290-329 | a root child that is a folder holding a link, or whose lower-cased title contains "bookmark", is listed before the suggestions, and every entry there comes from such a root child |
| ChromePopup.DefaultFoldersShape | browser-extension/chrome-based/popup.js:359-368 | five suggestions ending with "Favorites", none with a bookmark, so the defaults are never cached |
| ChromePopup.LoadFolders | browser-extension/chrome-based/popup.js:166-234 | the list chosen from the sources in turn is shown, and cached with the time exactly when the guard holds |
| ChromePopup.LoadChoiceCases | browser-extension/chrome-based/popup.js:166-234 | without a valid context the defaults; a readable tree gives the direct listing; then the background's answer, then the alternative reading, then a fresh non-empty cache, else the defaults |
| ChromePopup.InitializeFolderSelector | browser-extension/chrome-based/popup.js:91-109 | an empty chosen list is replaced by the defaults, so the selector never ends up empty |
| ChromePopup.GenerateHtmlContent | browser-extension/chrome-based/popup.js:588-609 | the dated folder document of the popup's own processing of the text, whose marker class holds the arrow's misencoded characters |
| FirefoxPopup.GetFoldersDirectApi | browser-extension/firefox/popup.js:237-275 | None when the tree cannot be read; otherwise the direct listing |
| FirefoxPopup.FirefoxDirectShape | browser-extension/firefox/popup.js:237-275 | the direct listing ends with the four suggestions; each entry before them is a real folder of the toolbar; it is cached iff it holds more than the suggestions |
| FirefoxPopup.LoadFolders | browser-extension/firefox/popup.js:162-235 | the list chosen from the sources in turn is shown, and cached with the time exactly when the guard holds |
| FirefoxPopup.LoadChoiceCases | browser-extension/firefox/popup.js:162-235 | without a valid context the suggestions; a readable tree gives the direct listing; then the background's answer; then a fresh non-empty cache, else the suggestions; the list is empty only when the background answered an empty list |
| FirefoxPopup.InitializeFolderSelector | browser-extension/firefox/popup.js:97-122 | an empty chosen list is replaced by the four suggestions, so the selector never ends up empty |
| SafariPopup.DescriptionRemoval | browser-extension/safari/popup.js:98 | the description strip keeps the text before the leftmost offset where `\s*\([^)]*\)$` matches, or the whole text |
| SafariPopup.MatchesAtIsDescription | browser-extension/safari/popup.js:98 | the executable test at one offset is the regular expression's meaning |
| SafariPopup.CleanUrlHasScheme | browser-extension/safari/popup.js:93-108 | cleanUrl maps the empty text to itself and any other text to one starting with http:// or https:// |
| SafariPopup.StripsInOrder | browser-extension/safari/popup.js:97 | the arrow, hyphen and asterisk strips each run once, in that order |
| SafariPopup.HyphenAfterAsteriskStays | browser-extension/safari/popup.js:97 | a hyphen after an asterisk stays, because the hyphen strip runs first |
| SafariPopup.OneHyphenStripped | browser-extension/safari/popup.js:97 | of two leading hyphens one stays |
| SafariPopup.CleanUrlOfBareAddress | browser-extension/safari/popup.js:101-105 | a bare "www." address becomes its https:// form without the "www." |
| SafariPopup.CleanUrlKeepsSchemed | browser-extension/safari/popup.js:93-108 | a URL with a scheme and nothing to strip is kept |
| SafariPopup.StaticFolders | browser-extension/safari/popup.js:156-162 | five distinct names, the first "Bookmarks Bar", each with a count of 0 |
| SafariPopup.AppendAllIsJoin | browser-extension/safari/popup.js:465 | appending non-empty lines one by one joins them with '\n' after the existing text |
| SafariPopup.Textarea.constructor | browser-extension/safari/popup.js:465 | a text area holding the initial text |
| SafariPopup.Textarea.AppendLine | browser-extension/safari/popup.js:465 | `current + (current ? '\n' : '') + line` |
| SafariPopup.Textarea.AppendUrls | browser-extension/safari/popup.js:401-408 | every non-empty URL is appended in order |
| SafariPopup.Textarea.ImportFromWebApp | browser-extension/safari/popup.js:447-483 | absent or empty text is refused with the text area unchanged; otherwise the trimmed non-blank lines are appended, and the count is the number of lines the filter kept |
| SafariPopup.Textarea.AppendTrimmed | browser-extension/safari/popup.js:461-468 | each trimmed, non-empty line is appended and counted |
| SafariPopup.Textarea.ExportToWebApp | browser-extension/safari/popup.js:485-508 | the non-blank lines of the text area joined with '\n', and their number |
| SafariPopup.NonBlankTwice | browser-extension/safari/popup.js:454 | filtering non-blank lines and then trimming them is trimming the non-blank lines, with the same count |
| SafariPopup.ImportExportRoundTrip | browser-extension/safari/popup.js:447-508 | importing into an empty text area stores the trimmed non-blank lines joined with '\n', and exporting gives back exactly those lines |
| SafariPopup.ImportedLinesClean | browser-extension/safari/popup.js:454-463 | every imported line is non-empty, holds no line break and is its own trim |
| SafariPopup.ExportGivesBack | browser-extension/safari/popup.js:489 | splitting the join of such lines at '\n' and keeping the non-blank pieces gives the lines back |
| SafariPopup.ExportFlat | browser-extension/safari/popup.js:410-426 | the export of the bookmarks that have a URL, in order |
| SafariPopup.FlatIsTreeExport | browser-extension/safari/popup.js:410-426 | on a list without folders the flat export equals the tree export of the other popups |
| SafariPopup.SampleExport | browser-extension/safari/popup.js:227-252 | the export action writes both sample bookmarks, in order, under the export header |
| WebApp.CleanOne | app.py:26-52 | the steps of the loop body give exactly what the line cleans to: none for a blank line or one no pattern accepts, otherwise the stripped line, with "https://" where a pattern adds it |
| WebApp.CleanAndProcessUrls | app.py:15-54 | the loop returns the cleaned URLs: each line stripped and undecorated, kept by the patterns, in line order |
| WebApp.ThirdPatternUnreachable | app.py:49-52 | every text the third pattern matches is already matched by the second, so the third branch never runs |
| WebApp.CleanStrippedFollowsNormaliser | app.py:37-46 | the cleaner agrees with the JavaScript scheme inference except for a domain-like text starting with "http" and no scheme, which is kept without one |
| WebApp.CleanedUrlShape | app.py:37-46 | every cleaned URL has an http(s) scheme, or starts with "http" and looks like a domain |
| WebApp.SchemedLineKept | app.py:37-39 | a stripped line with a scheme and no trailing ')' is kept verbatim |
| WebApp.CleanedUrlsInOrder | app.py:25-28 | each cleaned URL comes from its own line, in strictly increasing line order, and a blank line is never kept |
| WebApp.HttpbinKeptWithoutScheme | app.py:42-46 | "httpbin.org" is kept without a scheme, because it starts with "http" |
| WebApp.TemplateIsFolderDocument | app.py:60-72 | the template is a folder document; with no item it has one empty line where the items go |
| WebApp.TxtToBookmarksHtml | app.py:56-98 | the document of the cleaned URLs that have a scheme, and the number of their link lines |
| WebApp.TemplateDocumentLines | app.py:93-96 | the document splits into the header, the heading, the list's opening line, one line per item (one empty line when there is none), and the closing lines |
| WebApp.HttpbinNotCounted | app.py:80 | "httpbin.org" is cleaned but dropped by the scheme filter, so it is not counted |
| WebApp.TitleCases | app.py:82-87 | no netloc, or a netloc that is empty without "www.", gives the URL; a non-empty netloc without "www." is the title; "www.www.x" loses both occurrences, where JavaScript's replace loses only the first |
| WebApp.LastN | app.py:214 | `[-50:]`: the last min(n, length) elements, in order |
| WebApp.UsageLog.constructor | app.py:202 | the empty log: zero conversions, zero URLs, no activity |
| WebApp.UsageLog.LogUsage | app.py:194-221 | one more conversion and `url_count` more URLs, the activity appended and cut to the last 50; an unreadable log starts from zero |
| WebApp.RecentActivityBounded | app.py:207-214 | the activity list has at most 50 entries, ends with the new one, and has dropped only the oldest |
| WebApp.Convert | app.py:104-131 | no JSON gives a server error; a blank `urls` gives 400 with the log unchanged; otherwise the count and document of the conversion, with the log updated |
| Converter.TxtToBookmarksHtml | bookmark-converter.py:33-64 | succeeds iff the file could be read and written; the document of the stripped lines with a scheme under "Imported Bookmarks", and their number |
| Converter.FileItemsAreSchemedLines | bookmark-converter.py:37-49 | a line gives a link line iff its stripped form has a scheme, in line order |
| Converter.SameLinkAsWebApp | bookmark-converter.py:37-49 | for a schemed line without a trailing ')', the converter writes the same link line as the web app |
| Converter.BareDomainDropped | bookmark-converter.py:39 | a bare domain is dropped by the converter but gains "https://" in the web app |
| Converter.BareDomainExample | bookmark-converter.py:39 | "example.com" is such a bare domain |

## Left out

- Unicode case folding: `toLowerCase` is modelled as lowering ASCII letters only.
- Python's `\d` and `\s`: modelled as the ASCII digits and `str.isspace`. JavaScript's `\s` is modelled with its own set of white-space characters.
- `localeCompare`: the folder sort uses code-point order, because locale collation depends on the host.
- The DOM: rendering, status messages and the dropdown are not modelled. A render is reduced to the list of items shown and whether each is displayed.
- Messaging: `chrome.runtime.sendMessage`, its timeouts and the responders to web-app messages are left out. The background script's answer is a parameter.
- Files: `FileReader`, `Blob` downloads, `DOMParser`, and the HTML import (`importHTMLBookmarks`) are I/O.
- The web app's other routes and Flask's routing: left out. So are the temporary file of `/convert` and a failing write of `usage_log.json`, which the endpoint swallows.
- Universal-newline translation: `readlines` turning '\r' into '\n' is not modelled; lines are split at '\n' only.
- Clocks: `Date.now()` and `datetime.now()` are one parameter per call. So the two readings in one template literal read the same second. In browser-extension/popup.js:187-191, the heading's two readings and the per-item reading inside the loop all become that one parameter, so every ADD_DATE of a download is the same second.
- Safari `bookmarkUrls` (safari/popup.js:48-90): left out. It reaches a `const` before its declaration, so it throws, and the rest of it is messaging.
- `importBookmarkTree` (chrome-based/popup.js:873-888, firefox/popup.js:577-592, safari/popup.js:386-399): left out. It walks a parsed JSON object's entries and is reached only from the file import, which is I/O.
- The Chromium background's `importBookmarksFromWebApp` (chrome-based/background.js:464-521): left out, as a handler of messages from the web app. It does not call `processUrls`. It keeps the lines whose trim is non-empty, and bookmarks each trimmed line at index 0 with that line as both title and URL, so it applies no marker, label or parenthesis strip, no scheme inference and no host title. It finds the folder under '1' by title alone, with no test for a URL. The default folder name is 'Imported Bookmarks'. If the lookup or the folder create throws, it falls back to bar '1' itself.
- `content.js` and the test scripts are not part of this model.
- WebApp.UsageLog.LogUsage: a log file that lacks a key raises KeyError, which the source swallows and logs. That case is not modelled: the log is either readable with all three keys, or unreadable and reset.
- WebApp.Convert: a JSON `null` for `urls` would raise and give 500. The model takes `urls` as present or absent, not null.
- Converter.TxtToBookmarksHtml: a write that fails part way leaves a partial file, which is not modelled. Neither is the printed message.
- The host's URL parser: `new URL(...).hostname` and `urlparse(...).netloc` are parameters, not models of the parsers.
