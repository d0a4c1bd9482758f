/** The command-line converter (bookmark-converter.py): every line of the input file
    that, stripped, starts with http:// or https:// becomes a link line, titled by
    its host name, of a folder "Imported Bookmarks"; nothing else is cleaned. */
module Converter {
  import opened Options
  import opened Strings
  import opened Seqs
  import opened UrlNormalizer
  import opened NetscapeHtml
  import opened WebApp

  const DefaultHeading: string := "Imported Bookmarks"

  /** The loop body for one line of the file: the stripped line gives a link line
      when it starts with a scheme. */
  function FileLine(line: string, netloc: string -> Option<string>): Option<string>
  {
    var url := PyStrip(line);
    if HasHttpScheme(url) then Some(Item(url, netloc)) else None
  }

  function LineItem(netloc: string -> Option<string>): string -> Option<string>
  {
    line => FileLine(line, netloc)
  }

  /** The link lines of a file's content, in line order. */
  function FileItems(content: string, netloc: string -> Option<string>): seq<string>
  {
    FilterMap(Split(content, '\n'), LineItem(netloc))
  }

  /** One more line adds its link line when, stripped, it starts with a scheme. */
  lemma LineStep(lines: seq<string>, i: nat, netloc: string -> Option<string>)
    requires i < |lines|
    ensures FilterMap(lines[..i + 1], LineItem(netloc))
      == FilterMap(lines[..i], LineItem(netloc))
         + (if HasHttpScheme(PyStrip(lines[i])) then [Item(PyStrip(lines[i]), netloc)] else [])
  {
    assert lines[..i + 1][..i] == lines[..i];
  }

  /** txt_to_bookmarks_html: a file that cannot be read, or an output that cannot be
      written, gives False and no document; otherwise the document of the file's
      link lines under the fixed heading is written and True returned. */
  method TxtToBookmarksHtml(content: Option<string>, netloc: string -> Option<string>, writeOk: bool)
    returns (ok: bool, written: Option<string>, count: nat)
    ensures ok <==> content.Some? && writeOk
    ensures ok ==>
      written == Some(TemplateDocument(PlainHeading(DefaultHeading), FileItems(content.value, netloc)))
      && count == |FileItems(content.value, netloc)|
    ensures !ok ==> written.None? && count == 0
  {
    if content.None? {
      return false, None, 0;
    }
    var lines := Split(content.value, '\n');
    var bookmarkItems: seq<string> := [];
    var i := 0;
    while i < |lines|
      invariant 0 <= i <= |lines|
      invariant bookmarkItems == FilterMap(lines[..i], LineItem(netloc))
    {
      LineStep(lines, i, netloc);
      var url := PyStrip(lines[i]);
      if url != "" && (StartsWith(url, "http://") || StartsWith(url, "https://")) {
        var title := Title(url, netloc);
        var bookmarkItem := Anchor("        ", url, title);
        bookmarkItems := bookmarkItems + [bookmarkItem];
      }
      i := i + 1;
    }
    assert lines[..i] == lines;
    var finalHtml := TemplateDocument(PlainHeading(DefaultHeading), bookmarkItems);
    if !writeOk {
      return false, None, 0;
    }
    ok, written, count := true, Some(finalHtml), |bookmarkItems|;
  }

  /** Exactly the lines that, stripped, start with a scheme give link lines, each for
      that stripped line and in line order: no list marker, label or bare domain is
      recognised. */
  lemma FileItemsAreSchemedLines(content: string, netloc: string -> Option<string>)
    ensures var lines := Split(content, '\n');
      var kept := Kept(lines, LineItem(netloc));
      var items := FileItems(content, netloc);
      |kept| == |items|
      && (forall j :: 0 <= j < |kept| ==>
            kept[j] < |lines| && HasHttpScheme(PyStrip(lines[kept[j]]))
            && items[j] == Item(PyStrip(lines[kept[j]]), netloc))
      && (forall j, k :: 0 <= j < k < |kept| ==> kept[j] < kept[k])
      && (forall i :: 0 <= i < |lines| ==> (i in kept <==> HasHttpScheme(PyStrip(lines[i]))))
  {
    FilterMapOrigins(Split(content, '\n'), LineItem(netloc));
  }

  /** A line the converter keeps and that does not end in ')' gives the same link
      line as in the web application. */
  lemma SameLinkAsWebApp(line: string, netloc: string -> Option<string>)
    requires HasHttpScheme(PyStrip(line)) && !EndsWith(PyStrip(line), ")")
    ensures CleanLine(line).Some? && ItemOf(netloc)(CleanLine(line).value) == LineItem(netloc)(line)
  {
    SchemedLineKept(line);
  }

  /** A bare domain, which the web application gives "https://", is dropped here;
      "example.com" is one. */
  lemma BareDomainDropped(line: string, netloc: string -> Option<string>)
    requires var t := PyStrip(line);
      t != "" && StripDecorations(t, Standard, PySpace) == t && LooksLikeDomain(t) && !StartsWith(t, "http")
    ensures LineItem(netloc)(line) == None
    ensures CleanLine(line) == Some("https://" + PyStrip(line))
  {
    var t := PyStrip(line);
    SchemeStartsHttp(t);
    CleanLineStages(line, t, t);
  }

  lemma SchemeStartsHttp(s: string)
    ensures HasHttpScheme(s) ==> StartsWith(s, "http")
  {
    if HasHttpScheme(s) {
      assert s[..4] == "http";
    }
  }

  /** "example.com" is a bare domain the strips leave alone. */
  lemma BareDomainExample()
    ensures var t := PyStrip("example.com");
      t == "example.com" && StripDecorations(t, Standard, PySpace) == t && LooksLikeDomain(t) && !StartsWith(t, "http")
  {
    BareDomainUnstripped();
    BareDomainIsDomain();
  }

  lemma BareDomainTrim()
    ensures PyStrip("example.com") == "example.com"
  {
    var s := "example.com";
    assert s[0] == 'e' && s[|s| - 1] == 'm';
    TrimUnchanged(s, PySpace);
  }

  lemma BareDomainUnstripped()
    ensures PyStrip("example.com") == "example.com"
    ensures StripDecorations("example.com", Standard, PySpace) == "example.com"
  {
    BareDomainTrim();
    BareDomainNoLabel();
    Undecorated("example.com");
  }

  lemma BareDomainNoLabel()
    ensures StripLabel("example.com", PySpace) == "example.com"
  {
    var s := "example.com";
    assert forall i :: 0 <= i < 7 ==> IsLabelChar(s[i], PySpace);
    LabelRunStops(s, 7, PySpace);
  }

  lemma BareDomainIsDomain()
    ensures LooksLikeDomain("example.com") && !StartsWith("example.com", "http")
  {
    var s := "example.com";
    assert DomainMatchAt(s, 7);
    LooksLikeDomainIsRegex(s);
    assert s[0] == 'e';
  }
}
