/** The Netscape bookmark file that every generator of the project writes: its fixed
    header and footer lines, its anchor lines, and the export of a whole bookmark tree
    that the Chromium and Firefox popups share. A document is a list of lines joined
    with '\n'; the lemmas here recover those lines from the text. */
module NetscapeHtml {
  import opened Options
  import opened Strings
  import opened Bookmarks
  import opened UrlNormalizer

  const Doctype: string := "<!DOCTYPE NETSCAPE-Bookmark-file-1>"
  // The two longest lines are written as two literals each: the verifier shows that a
  // literal holds no line break character by character, which costs far less for
  // two halves than for one long literal.
  const Notice: seq<string> := [
    "<!-- This is an " + "automatically generated file.",
    "     It will be read and overwritten.",
    "     DO NOT EDIT! -->"]
  const Meta: string := "<META HTTP-EQUIV=\"Content-Type\"" + " CONTENT=\"text/html; charset=UTF-8\">"
  const TitleLine: string := "<TITLE>Bookmarks</TITLE>"
  const Heading: string := "<H1>Bookmarks</H1>"
  const ListOpen: string := "<DL><p>"
  const ListClose: string := "</DL><p>"
  const FolderListOpen: string := "    <DL><p>"
  const FolderListClose: string := "    </DL><p>"

  /** The lines before the folder heading of a document that files its links under
      one folder. */
  const FolderPreamble: seq<string> := [Doctype] + Notice + [Meta, TitleLine, Heading, ListOpen]

  /** The lines before the links of an export, which has no notice and no folder. */
  const ExportPreamble: seq<string> := [Doctype, Meta, TitleLine, Heading, ListOpen]

  predicate BreakFree(lines: seq<string>) {
    forall i :: 0 <= i < |lines| ==> '\n' !in lines[i]
  }

  lemma HeaderLinesBreakFree()
    ensures '\n' !in Doctype && '\n' !in Meta && '\n' !in TitleLine
  {
    DoctypeBreakFree();
    MetaBreakFree();
  }

  lemma DoctypeBreakFree()
    ensures '\n' !in Doctype
  {
  }

  lemma MetaBreakFree()
    ensures '\n' !in Meta
  {
  }

  lemma NoticeBreakFree()
    ensures '\n' !in Notice[0] && '\n' !in Notice[1] && '\n' !in Notice[2]
  {
    FirstNoticeBreakFree();
    SecondNoticeBreakFree();
  }

  lemma FirstNoticeBreakFree()
    ensures '\n' !in Notice[0]
  {
  }

  lemma SecondNoticeBreakFree()
    ensures '\n' !in Notice[1]
  {
  }

  lemma ListLinesBreakFree()
    ensures '\n' !in Heading && '\n' !in ListOpen && '\n' !in ListClose
    ensures '\n' !in FolderListOpen && '\n' !in FolderListClose
  {
  }

  lemma PreamblesBreakFree()
    ensures BreakFree(FolderPreamble) && BreakFree(ExportPreamble)
    ensures '\n' !in FolderListOpen && '\n' !in FolderListClose && '\n' !in ListClose
  {
    HeaderLinesBreakFree();
    NoticeBreakFree();
    ListLinesBreakFree();
    assert FolderPreamble == [Doctype, Notice[0], Notice[1], Notice[2], Meta, TitleLine, Heading, ListOpen];
  }

  /** The export header as one text. */
  lemma ExportPreambleText()
    ensures Join(ExportPreamble, '\n') == Doctype + "\n" + Meta + "\n" + TitleLine + "\n" + Heading + "\n" + ListOpen
  {
    JoinFive(Doctype, Meta, TitleLine, Heading, ListOpen);
  }

  /** Five lines joined with '\n'. */
  lemma JoinFive(a: string, b: string, c: string, d: string, e: string)
    ensures Join([a, b, c, d, e], '\n') == a + "\n" + b + "\n" + c + "\n" + d + "\n" + e
  {
    JoinAppend([a], [b], '\n');
    assert [a] + [b] == [a, b];
    JoinAppend([a, b], [c], '\n');
    assert [a, b] + [c] == [a, b, c];
    JoinAppend([a, b, c], [d], '\n');
    assert [a, b, c] + [d] == [a, b, c, d];
    JoinAppend([a, b, c, d], [e], '\n');
    assert [a, b, c, d] + [e] == [a, b, c, d, e];
  }

  /** `<DT><A HREF="url">title</A>` after the given indentation. */
  function Anchor(indent: string, url: string, title: string): (r: string)
    ensures '\n' !in indent && '\n' !in url && '\n' !in title ==> '\n' !in r
  {
    indent + "<DT><A HREF=\"" + url + "\">" + title + "</A>"
  }

  /** A document that files `items` under one folder whose heading line is `heading`. */
  function FolderDocument(heading: string, items: seq<string>): string {
    Join(FolderPreamble + [heading, FolderListOpen] + items + [FolderListClose, ListClose], '\n')
  }

  /** A folder document holds the header, the heading, the folder's list lines
      around the items, and the closing line, when no line holds a line break. */
  lemma FolderDocumentLines(heading: string, items: seq<string>)
    requires '\n' !in heading && BreakFree(items)
    ensures Split(FolderDocument(heading, items), '\n')
      == FolderPreamble + [heading, FolderListOpen] + items + [FolderListClose, ListClose]
  {
    var lines := FolderPreamble + [heading, FolderListOpen] + items + [FolderListClose, ListClose];
    PreamblesBreakFree();
    assert BreakFree(lines);
    SplitJoin(lines, '\n');
  }

  /** The heading of a folder the browser treats as a toolbar folder, dated with the
      same second twice. */
  function DatedHeading(name: string, secs: nat): (r: string)
    ensures '\n' !in name ==> '\n' !in r
  {
    "    <DT><H3 ADD_DATE=\"" + Decimal(secs) + "\" LAST_MODIFIED=\"" + Decimal(secs)
    + "\" PERSONAL_TOOLBAR_FOLDER=\"true\">" + name + "</H3>"
  }

  /** `Math.floor(Date.now() / 1000)`: the whole seconds of a millisecond clock. */
  function Seconds(nowMs: nat): nat { nowMs / 1000 }

  /** An entry's link line inside a folder: `<DT><A HREF="url">title</A>` indented by
      eight. */
  function EntryItem(e: Entry): (r: string)
    ensures '\n' !in e.url && '\n' !in e.title ==> '\n' !in r
  {
    Anchor("        ", e.url, e.title)
  }

  function EntryItems(es: seq<Entry>): seq<string>
  {
    seq(|es|, k requires 0 <= k < |es| => EntryItem(es[k]))
  }

  lemma EntryItemsAppend(a: seq<Entry>, b: seq<Entry>)
    ensures EntryItems(a + b) == EntryItems(a) + EntryItems(b)
  {
    assert forall k :: 0 <= k < |a + b| ==> EntryItems(a + b)[k] == (EntryItems(a) + EntryItems(b))[k];
  }

  /** A folder document of entry lines splits back into the header, the heading and
      exactly one line per entry, the k-th carrying the k-th entry's URL and title,
      when no heading, URL or title holds a line break. */
  lemma EntryDocumentLines(heading: string, es: seq<Entry>)
    requires '\n' !in heading
    requires forall k :: 0 <= k < |es| ==> '\n' !in es[k].url && '\n' !in es[k].title
    ensures var lines := Split(FolderDocument(heading, EntryItems(es)), '\n');
      |lines| == |FolderPreamble| + |es| + 4
      && lines[|FolderPreamble|] == heading
      && forall k :: 0 <= k < |es| ==> lines[|FolderPreamble| + 2 + k] == EntryItem(es[k])
  {
    FolderDocumentLines(heading, EntryItems(es));
  }

  /** The heading of an undated folder. */
  function PlainHeading(name: string): (r: string)
    ensures '\n' !in name ==> '\n' !in r
  {
    "    <DT><H3>" + name + "</H3>"
  }

  // ---------------------------------------------------------------------------
  // Decimal numerals, for the ADD_DATE and LAST_MODIFIED attributes

  function DigitChar(d: nat): char
    requires d < 10
  {
    ('0' as int + d) as char
  }

  /** The decimal numeral of `n`, as a template literal prints an integral number:
      digits only, and no leading zero. */
  function Decimal(n: nat): (r: string)
    ensures |r| >= 1 && (r[0] == '0' ==> n == 0)
    ensures forall i :: 0 <= i < |r| ==> IsAsciiDigit(r[i])
  {
    if n < 10 then [DigitChar(n)] else Decimal(n / 10) + [DigitChar(n % 10)]
  }

  /** The number a string of digits denotes. */
  function DecimalValue(s: string): nat
    requires forall i :: 0 <= i < |s| ==> IsAsciiDigit(s[i])
  {
    if s == [] then 0
    else
      var init := s[..|s| - 1];
      assert forall i :: 0 <= i < |init| ==> init[i] == s[i];
      assert IsAsciiDigit(s[|s| - 1]);
      10 * DecimalValue(init) + (s[|s| - 1] as int - '0' as int)
  }

  /** Reading the numeral back gives the number. */
  lemma {:induction false} DecimalRoundTrip(n: nat)
    ensures DecimalValue(Decimal(n)) == n
  {
    if n >= 10 {
      DecimalRoundTrip(n / 10);
      var r := Decimal(n);
      assert r[..|r| - 1] == Decimal(n / 10);
    }
  }

  // ---------------------------------------------------------------------------
  // Lines ended by '\n', as the generators append them

  /** Each line followed by '\n'. */
  function Terminated(lines: seq<string>): string
  {
    if lines == [] then "" else lines[0] + "\n" + Terminated(lines[1..])
  }

  lemma {:induction false} TerminatedAppend(a: seq<string>, b: seq<string>)
    ensures Terminated(a + b) == Terminated(a) + Terminated(b)
  {
    if a == [] {
      assert a + b == b;
    } else {
      assert (a + b)[1..] == a[1..] + b;
      TerminatedAppend(a[1..], b);
    }
  }

  /** A joined header, a '\n', the terminated lines and a last line make the join of
      all the lines. */
  lemma {:induction false} JoinTerminated(head: seq<string>, lines: seq<string>, last: string)
    requires |head| >= 1
    ensures Join(head, '\n') + "\n" + Terminated(lines) + last == Join(head + lines + [last], '\n')
    decreases |lines|
  {
    if lines == [] {
      JoinAppend(head, [last], '\n');
      assert head + lines + [last] == head + [last];
    } else {
      var h := head + [lines[0]];
      JoinAppend(head, [lines[0]], '\n');
      JoinTerminated(h, lines[1..], last);
      assert [lines[0]] + lines[1..] == lines;
      SeqAssoc(head, [lines[0]], lines[1..]);
      RegroupLine(Join(head, '\n'), lines[0], Terminated(lines[1..]), last);
    }
  }

  lemma RegroupLine(j: string, x: string, t: string, last: string)
    ensures j + "\n" + x + "\n" + t + last == j + "\n" + (x + "\n" + t) + last
  {
  }

  /** A folder document written as its opening lines, the items each followed by
      '\n', and the two closing lines. */
  lemma FolderDocumentOfTerminated(heading: string, items: seq<string>)
    ensures Join(FolderPreamble + [heading, FolderListOpen], '\n') + "\n" + Terminated(items)
            + FolderListClose + "\n" + ListClose
      == FolderDocument(heading, items)
  {
    var head := FolderPreamble + [heading, FolderListOpen];
    JoinTerminated(head, items, FolderListClose);
    JoinAppend(head + items + [FolderListClose], [ListClose], '\n');
    assert head + items + [FolderListClose] + [ListClose] == head + items + [FolderListClose, ListClose];
  }

  // ---------------------------------------------------------------------------
  // The export of a bookmark tree (generateHTMLBookmarks)

  function UrlText(n: Node): string {
    if n.url.Some? then n.url.value else ""
  }

  /** An exported link: its title, or its URL when the title is empty. */
  function ExportLine(n: Node): string {
    Anchor("    ", UrlText(n), if n.title != "" then n.title else UrlText(n))
  }

  function ExportLines(ns: seq<Node>): seq<string> {
    seq(|ns|, k requires 0 <= k < |ns| => ExportLine(ns[k]))
  }

  lemma ExportLinesAppend(a: seq<Node>, b: seq<Node>)
    ensures ExportLines(a + b) == ExportLines(a) + ExportLines(b)
  {
    assert forall k :: 0 <= k < |a + b| ==> ExportLines(a + b)[k] == (ExportLines(a) + ExportLines(b))[k];
  }

  /** The export of the given links, one anchor line each. */
  function ExportDocument(links: seq<Node>): string {
    Join(ExportPreamble + ExportLines(links) + [ListClose], '\n')
  }

  predicate LinkBreakFree(n: Node) {
    '\n' !in UrlText(n) && '\n' !in n.title
  }

  /** An export holds the export header, one anchor line per link in order, and the
      closing line, when no URL or title holds a line break. */
  lemma ExportDocumentLines(links: seq<Node>)
    requires forall k :: 0 <= k < |links| ==> LinkBreakFree(links[k])
    ensures Split(ExportDocument(links), '\n') == ExportPreamble + ExportLines(links) + [ListClose]
  {
    var lines := ExportPreamble + ExportLines(links) + [ListClose];
    PreamblesBreakFree();
    assert forall k :: 0 <= k < |links| ==> '\n' !in ExportLine(links[k]);
    assert BreakFree(lines);
    SplitJoin(lines, '\n');
  }

  /** The text the walk appends for a forest. */
  function LinksText(nodes: seq<Node>): string {
    Terminated(ExportLines(PreorderLinks(nodes)))
  }

  /** The text the walk appends for a node itself. */
  function OwnText(node: Node): string {
    if HasUrl(node) then ExportLine(node) + "\n" else ""
  }

  /** The text the walk appends for what lies below a node. */
  function BelowText(node: Node): string {
    if node.hasChildren then LinksText(node.children) else ""
  }

  lemma OwnLines(node: Node)
    ensures Terminated(ExportLines(if HasUrl(node) then [node] else [])) == OwnText(node)
  {
    if HasUrl(node) {
      assert ExportLines([node]) == [ExportLine(node)];
      assert [ExportLine(node)][1..] == [];
    } else {
      assert ExportLines([]) == [];
    }
  }

  lemma BelowLines(node: Node)
    ensures Terminated(ExportLines(if node.hasChildren then PreorderLinks(node.children) else [])) == BelowText(node)
  {
    if !node.hasChildren {
      assert ExportLines([]) == [];
    }
  }

  /** The terminated export lines of three runs of links, one after the other. */
  lemma TextOfThree(before: seq<Node>, own: seq<Node>, below: seq<Node>)
    ensures Terminated(ExportLines(before + (own + below)))
      == Terminated(ExportLines(before)) + Terminated(ExportLines(own)) + Terminated(ExportLines(below))
  {
    assert before + (own + below) == (before + own) + below;
    ExportLinesAppend(before + own, below);
    ExportLinesAppend(before, own);
    TerminatedAppend(ExportLines(before) + ExportLines(own), ExportLines(below));
    TerminatedAppend(ExportLines(before), ExportLines(own));
  }

  /** What one more node of a forest adds to the walk's text. */
  lemma LinkStep(prefix: seq<Node>, node: Node)
    ensures LinksText(prefix + [node]) == LinksText(prefix) + OwnText(node) + BelowText(node)
  {
    PreorderLinksAppend(prefix, [node]);
    PreorderLinksSingle(node);
    TextOfThree(PreorderLinks(prefix), if HasUrl(node) then [node] else [],
      if node.hasChildren then PreorderLinks(node.children) else []);
    OwnLines(node);
    BelowLines(node);
  }

  lemma Associative(a: string, b: string, c: string, d: string)
    ensures a + b + c + d == a + (b + c + d)
  {
  }

  lemma LinksTextEmpty(nodes: seq<Node>)
    ensures LinksText(nodes[..0]) == ""
  {
    assert nodes[..0] == [] && ExportLines([]) == [];
  }

  /** The loop of extractBookmarks keeps its text equal to the walk of the nodes it
      has visited. */
  lemma AppendLinksStep(html: string, nodes: seq<Node>, i: nat, start: string, out: string)
    requires i < |nodes|
    requires start == html + LinksText(nodes[..i])
    requires out == start + OwnText(nodes[i]) + BelowText(nodes[i])
    ensures out == html + LinksText(nodes[..i + 1])
  {
    LinkStep(nodes[..i], nodes[i]);
    assert nodes[..i + 1] == nodes[..i] + [nodes[i]];
    Associative(html, LinksText(nodes[..i]), OwnText(nodes[i]), BelowText(nodes[i]));
  }

  /** extractBookmarks: appends the line of every node with a URL, visiting a node
      before its children. */
  method AppendLinks(nodes: seq<Node>, html: string) returns (out: string)
    ensures out == html + LinksText(nodes)
    decreases nodes
  {
    out := html;
    var i := 0;
    LinksTextEmpty(nodes);
    while i < |nodes|
      invariant 0 <= i <= |nodes|
      invariant out == html + LinksText(nodes[..i])
    {
      ghost var start := out;
      out := AppendNode(nodes[i], out);
      AppendLinksStep(html, nodes, i, start, out);
      i := i + 1;
    }
    assert nodes[..i] == nodes;
  }

  /** One node of extractBookmarks' loop: its own line when it has a URL, then the
      lines below it when it has children. */
  method AppendNode(node: Node, html: string) returns (out: string)
    ensures out == html + OwnText(node) + BelowText(node)
    decreases node
  {
    out := AppendOwn(node, html);
    if node.hasChildren {
      out := AppendLinks(node.children, out);
    }
  }

  /** The export line of a node with a URL, followed by '\n'; nothing for any other
      node. */
  method AppendOwn(node: Node, html: string) returns (out: string)
    ensures out == html + OwnText(node)
  {
    out := html;
    if HasUrl(node) {
      out := out + (ExportLine(node) + "\n");
    }
  }

  /** generateHTMLBookmarks of the Chromium and Firefox popups: the export of every
      link of the tree, in pre-order. */
  method ExportTree(bookmarks: seq<Node>) returns (html: string)
    ensures html == ExportDocument(PreorderLinks(bookmarks))
  {
    html := Doctype + "\n" + Meta + "\n" + TitleLine + "\n" + Heading + "\n" + ListOpen + "\n";
    ExportPreambleText();
    html := AppendLinks(bookmarks, html);
    html := html + ListClose;
    JoinTerminated(ExportPreamble, ExportLines(PreorderLinks(bookmarks)), ListClose);
  }

  /** The k-th link of an export is on the k-th line after the header. */
  lemma ExportLineAt(links: seq<Node>, k: nat)
    requires forall j :: 0 <= j < |links| ==> LinkBreakFree(links[j])
    requires k < |links|
    ensures |Split(ExportDocument(links), '\n')| == |ExportPreamble| + |links| + 1
    ensures Split(ExportDocument(links), '\n')[|ExportPreamble| + k] == ExportLine(links[k])
  {
    PreamblesBreakFree();
    assert BreakFree([ListClose]);
    JoinedLineAt(ExportPreamble, links, [ListClose], k);
  }

  /** The lines of anchor lines framed by break-free lines, joined and split again. */
  lemma JoinedLineAt(pre: seq<string>, links: seq<Node>, post: seq<string>, k: nat)
    requires BreakFree(pre) && BreakFree(post) && k < |links|
    requires forall j :: 0 <= j < |links| ==> LinkBreakFree(links[j])
    ensures |Split(Join(pre + ExportLines(links) + post, '\n'), '\n')| == |pre| + |links| + |post|
    ensures Split(Join(pre + ExportLines(links) + post, '\n'), '\n')[|pre| + k] == ExportLine(links[k])
  {
    var lines := pre + ExportLines(links) + post;
    assert forall j :: 0 <= j < |links| ==> '\n' !in ExportLine(links[j]);
    assert BreakFree(lines);
    SplitJoin(lines, '\n');
    assert lines[|pre| + k] == ExportLines(links)[k];
  }

  /** The k-th link of the walk is a link of the tree. */
  lemma WalkedLinkInTree(bookmarks: seq<Node>, k: nat)
    requires k < |PreorderLinks(bookmarks)|
    ensures InForest(PreorderLinks(bookmarks)[k], bookmarks) && HasUrl(PreorderLinks(bookmarks)[k])
  {
    PreorderLinksAreTheLinks(bookmarks, PreorderLinks(bookmarks)[k]);
  }

  /** The lines of a tree export are the export lines of exactly the tree's links. */
  lemma ExportTreeLines(bookmarks: seq<Node>, k: nat)
    requires forall n :: n in PreorderLinks(bookmarks) ==> LinkBreakFree(n)
    requires k < |PreorderLinks(bookmarks)|
    ensures var lines := Split(ExportDocument(PreorderLinks(bookmarks)), '\n');
      |lines| == |ExportPreamble| + |PreorderLinks(bookmarks)| + 1
      && exists n :: InForest(n, bookmarks) && HasUrl(n) && lines[|ExportPreamble| + k] == ExportLine(n)
  {
    var links := PreorderLinks(bookmarks);
    assert forall j :: 0 <= j < |links| ==> LinkBreakFree(links[j]) by {
      forall j | 0 <= j < |links| ensures LinkBreakFree(links[j]) {
        assert links[j] in links;
      }
    }
    ExportLineAt(links, k);
    WalkedLinkInTree(bookmarks, k);
  }
}
