/** Worked lines for the URL normaliser, each traced through the strips one step at a
    time. They record what the code does with the kinds of lines a user pastes. */
module NormalizerExamples {
  import opened Options
  import opened Strings
  import opened UrlNormalizer

  /** An arrowed domain followed by a parenthesised label keeps the label: the label
      pattern needs the parenthesis right after leading letters, and only the final
      ')' is removed. */
  lemma ArrowedDomainKeepsLabel(hostname: string -> Option<string>)
    ensures NormalizeLine("→ example.com (My Site)", Standard, hostname)
      == Some(Entry(TitleOf("https://example.com (My Site", hostname), "https://example.com (My Site"))
  {
    ArrowedTrim();
    ArrowedDecorations();
    ArrowedScheme();
  }

  /** A line that starts and ends with characters other than white space is its own
      trim. */
  lemma TrimmedEnds(s: string, first: char, last: char)
    requires |s| > 0 && s[0] == first && s[|s| - 1] == last && !IsJsSpace(first) && !IsJsSpace(last)
    ensures JsTrim(s) == s
  {
    TrimUnchanged(s, JsSpace);
  }

  lemma ArrowedTrim()
    ensures JsTrim("→ example.com (My Site)") == "→ example.com (My Site)"
  {
    TrimmedEnds("→ example.com (My Site)", '→', ')');
  }

  lemma ArrowedDecorations()
    ensures StripDecorations("→ example.com (My Site)", Standard, JsSpace) == "example.com (My Site"
  {
    ArrowedMarker();
    LabelBeforeDot();
    ParenDropped();
    DecorationsCompose("→ example.com (My Site)", Standard, JsSpace, "example.com (My Site)", "example.com (My Site)");
  }

  lemma ParenDropped()
    ensures StripClosingParen("example.com (My Site)") == "example.com (My Site"
  {
  }

  lemma ArrowedMarker()
    ensures StripListMarker("→ example.com (My Site)", Standard, JsSpace) == "example.com (My Site)"
  {
    MarkerThenSpace("→ example.com (My Site)", Standard, "example.com (My Site)");
  }

  /** A marker, one space, and a rest that does not start with white space. */
  lemma MarkerThenSpace(s: string, m: MarkerClass, rest: string)
    requires |s| > 1 && IsMarker(m, s[0]) && IsJsSpace(s[1]) && s[2..] == rest
    requires rest == [] || !IsJsSpace(rest[0])
    ensures StripListMarker(s, m, JsSpace) == rest
  {
    assert s[1..][1..] == rest;
    assert TrimStart(rest, JsSpace) == rest;
  }

  lemma NotMarker(s: string, m: MarkerClass)
    requires s != [] && !IsMarker(m, s[0])
    ensures StripListMarker(s, m, JsSpace) == s
  {
  }

  /** A string that starts with neither a letter nor a digit has no scheme and is no
      domain. */
  lemma NotADomain(s: string)
    requires s != [] && !IsAsciiAlnum(s[0])
    ensures !HasHttpScheme(s) && InferScheme(s) == s
  {
    assert "http://"[0] == 'h' && "https://"[0] == 'h';
  }

  lemma LabelBeforeDot()
    ensures StripLabel("example.com (My Site)", JsSpace) == "example.com (My Site)"
  {
    LetterRunStops("example.com (My Site)", 7, JsSpace);
  }


  lemma ArrowedScheme()
    ensures InferScheme("example.com (My Site") == "https://example.com (My Site"
    ensures HasHttpScheme("https://example.com (My Site")
  {
    var s := "example.com (My Site";
    assert DotFrom(s, 7);
    assert DotFrom(s, 6);
    assert DotFrom(s, 5);
    assert DotFrom(s, 4);
    assert DotFrom(s, 3);
    assert DotFrom(s, 2);
    assert !HasHttpScheme(s);
  }

  /** A numbered line loses only its digit: the full stop after it is not white
      space, so the rest fails the domain pattern and the line is dropped. */
  lemma NumberedLineDropped(hostname: string -> Option<string>)
    ensures NormalizeLine("1. google.com", Standard, hostname) == None
  {
    NumberedTrim();
    NumberedDecorations();
    NumberedNoScheme();
  }

  lemma NumberedTrim()
    ensures JsTrim("1. google.com") == "1. google.com"
  {
    TrimmedEnds("1. google.com", '1', 'm');
  }

  lemma NumberedDecorations()
    ensures StripDecorations("1. google.com", Standard, JsSpace) == ". google.com"
  {
    NumberedMarker();
    NoLabel(". google.com");
    NoParen(". google.com");
    DecorationsCompose("1. google.com", Standard, JsSpace, ". google.com", ". google.com");
  }

  lemma NumberedMarker()
    ensures StripListMarker("1. google.com", Standard, JsSpace) == ". google.com"
  {
  }

  lemma NumberedNoScheme()
    ensures InferScheme(". google.com") == ". google.com"
    ensures !HasHttpScheme(". google.com")
  {
    NotADomain(". google.com");
  }

  /** A string that does not start with a letter or white space has no label. */
  lemma NoLabel(s: string)
    requires s != [] && !IsLabelChar(s[0], JsSpace)
    ensures StripLabel(s, JsSpace) == s
  {
    LabelRunStops(s, 0, JsSpace);
  }

  lemma NoParen(s: string)
    requires !EndsWith(s, ")")
    ensures StripClosingParen(s) == s
  {
  }

  /** The Chromium popup's mis-encoded marker class does not hold the arrow, so an
      arrowed line that the background scripts turn into a bookmark is dropped there. */
  lemma MisencodedMarkerDropsArrow(hostname: string -> Option<string>)
    ensures NormalizeLine("→ example.com", Standard, hostname)
      == Some(Entry(TitleOf("https://example.com", hostname), "https://example.com"))
    ensures NormalizeLine("→ example.com", Misencoded, hostname) == None
  {
    ArrowKept(hostname);
    ArrowDropped(hostname);
  }

  lemma ArrowKept(hostname: string -> Option<string>)
    ensures NormalizeLine("→ example.com", Standard, hostname)
      == Some(Entry(TitleOf("https://example.com", hostname), "https://example.com"))
  {
    ArrowedBareTrim();
    ArrowedBareDecorations();
    BareDomain();
  }

  lemma ArrowedBareTrim()
    ensures JsTrim("→ example.com") == "→ example.com"
  {
    TrimmedEnds("→ example.com", '→', 'm');
  }

  lemma ArrowedBareDecorations()
    ensures StripDecorations("→ example.com", Standard, JsSpace) == "example.com"
  {
    ArrowedBareMarker();
    LabelBeforeBareDot();
    NoParen("example.com");
    DecorationsCompose("→ example.com", Standard, JsSpace, "example.com", "example.com");
  }

  lemma ArrowedBareMarker()
    ensures StripListMarker("→ example.com", Standard, JsSpace) == "example.com"
  {
    MarkerThenSpace("→ example.com", Standard, "example.com");
  }

  lemma LabelBeforeBareDot()
    ensures StripLabel("example.com", JsSpace) == "example.com"
  {
    LetterRunStops("example.com", 7, JsSpace);
  }

  lemma BareDomain()
    ensures InferScheme("example.com") == "https://example.com"
    ensures HasHttpScheme("https://example.com")
  {
    var s := "example.com";
    assert DotFrom(s, 7);
    assert DotFrom(s, 6);
    assert DotFrom(s, 5);
    assert DotFrom(s, 4);
    assert DotFrom(s, 3);
    assert DotFrom(s, 2);
    assert !HasHttpScheme(s);
  }

  lemma ArrowDropped(hostname: string -> Option<string>)
    ensures NormalizeLine("→ example.com", Misencoded, hostname) == None
  {
    ArrowedBareTrim();
    MisencodedDecorations();
    ArrowNoScheme();
  }

  lemma MisencodedDecorations()
    ensures StripDecorations("→ example.com", Misencoded, JsSpace) == "→ example.com"
  {
    NotMarker("→ example.com", Misencoded);
    NoLabel("→ example.com");
    NoParen("→ example.com");
    DecorationsCompose("→ example.com", Misencoded, JsSpace, "→ example.com", "→ example.com");
  }

  lemma ArrowNoScheme()
    ensures InferScheme("→ example.com") == "→ example.com"
    ensures !HasHttpScheme("→ example.com")
  {
    NotADomain("→ example.com");
  }

  /** Normalising is not idempotent: each pass removes one more closing parenthesis. */
  lemma NormalizeNotIdempotent(hostname: string -> Option<string>)
    ensures NormalizeLine("http://x.io/a))", Standard, hostname)
      == Some(Entry(TitleOf("http://x.io/a)", hostname), "http://x.io/a)"))
    ensures NormalizeLine("http://x.io/a)", Standard, hostname)
      == Some(Entry(TitleOf("http://x.io/a", hostname), "http://x.io/a"))
  {
    DoubleParen(hostname);
    SingleParen(hostname);
  }

  lemma DoubleParen(hostname: string -> Option<string>)
    ensures NormalizeLine("http://x.io/a))", Standard, hostname)
      == Some(Entry(TitleOf("http://x.io/a)", hostname), "http://x.io/a)"))
  {
    ParenUrl("http://x.io/a))", "http://x.io/a)", hostname);
  }

  lemma SingleParen(hostname: string -> Option<string>)
    ensures NormalizeLine("http://x.io/a)", Standard, hostname)
      == Some(Entry(TitleOf("http://x.io/a", hostname), "http://x.io/a"))
  {
    ParenUrl("http://x.io/a)", "http://x.io/a", hostname);
  }

  /** A URL with a scheme that ends in ')' loses exactly that parenthesis. */
  lemma ParenUrl(line: string, u: string, hostname: string -> Option<string>)
    requires StartsWith(u, "http://") && line == u + ")"
    ensures NormalizeLine(line, Standard, hostname) == Some(Entry(TitleOf(u, hostname), u))
  {
    ParenUrlTrim(line, u);
    ParenUrlDecorations(line, u);
    NormalizeLineStages(line, Standard, hostname, line, u, u);
  }

  lemma ParenUrlTrim(line: string, u: string)
    requires StartsWith(u, "http://") && line == u + ")"
    ensures JsTrim(line) == line
  {
    assert line[0] == 'h' && line[|line| - 1] == ')';
    TrimUnchanged(line, JsSpace);
  }

  lemma ParenUrlDecorations(line: string, u: string)
    requires StartsWith(u, "http://") && line == u + ")"
    ensures StripDecorations(line, Standard, JsSpace) == u && InferScheme(u) == u
  {
    assert line[..7] == u[..7];
    NotMarker(line, Standard);
    SchemeHasNoLabel(line, JsSpace);
    assert StripClosingParen(line) == u;
    DecorationsCompose(line, Standard, JsSpace, line, line);
  }
}
