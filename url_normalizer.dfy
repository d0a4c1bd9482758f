/** The URL normaliser that every JavaScript variant carries as `processUrls`: the text
    is split into lines, each line is trimmed and stripped of a list marker, of a
    leading "label(" and of one closing parenthesis, a bare domain gets "https://",
    and only lines that then start with http:// or https:// become entries. */
module UrlNormalizer {
  import opened Options
  import opened Strings
  import opened Seqs

  /** A processed line: the title shown for it and the URL to bookmark. */
  datatype Entry = Entry(title: string, url: string)

  /** Which list-marker class a copy of processUrls carries. */
  datatype MarkerClass = Standard | Misencoded

  predicate IsMarker(cls: MarkerClass, c: char) {
    match cls
    case Standard => IsListMarker(c)
    case Misencoded => IsMisencodedListMarker(c)
  }

  /** The marker class of the background scripts and the other popups: an arrow, a
      hyphen, an asterisk, a bullet, a digit, a plus sign, a full stop or a closing
      parenthesis. */
  predicate IsListMarker(c: char) {
    c == '\U{2192}' || c == '-' || c == '*' || c == '\U{2022}' || IsAsciiDigit(c)
    || c == '+' || c == '.' || c == ')'
  }

  /** The marker class of the Chromium popup as its file stores it: the arrow and the
      bullet were saved as mis-decoded UTF-8, so the class holds the characters
      U+201A, U+00DC, U+00ED, U+00C4 and U+00A2 in their place and no longer matches
      the arrow or the bullet. */
  predicate IsMisencodedListMarker(c: char) {
    c == '\U{201A}' || c == '\U{00DC}' || c == '\U{00ED}' || c == '-' || c == '*'
    || c == '\U{00C4}' || c == '\U{00A2}' || IsAsciiDigit(c) || c == '+' || c == '.' || c == ')'
  }

  /** The class [A-Za-z\s] of the label pattern. */
  predicate IsLabelChar(c: char, ws: Whitespace) { IsAsciiLetter(c) || IsSpace(ws, c) }

  /** The class [a-zA-Z0-9\-\.] of the domain pattern. */
  predicate IsHostChar(c: char) { IsAsciiAlnum(c) || c == '-' || c == '.' }

  predicate HasHttpScheme(s: string) {
    StartsWith(s, "http://") || StartsWith(s, "https://")
  }

  /** The length of the longest prefix of `s` in [A-Za-z\s]. */
  function LabelRun(s: string, ws: Whitespace): (n: nat)
    ensures n <= |s|
    ensures forall i :: 0 <= i < n ==> IsLabelChar(s[i], ws)
    ensures n == |s| || !IsLabelChar(s[n], ws)
  {
    if |s| > 0 && IsLabelChar(s[0], ws) then 1 + LabelRun(s[1..], ws) else 0
  }

  /** A run that stops at offset `k` has length `k`. */
  lemma LabelRunStops(s: string, k: nat, ws: Whitespace)
    requires k <= |s| && (k == |s| || !IsLabelChar(s[k], ws)) && forall i :: 0 <= i < k ==> IsLabelChar(s[i], ws)
    ensures LabelRun(s, ws) == k
  {
  }

  /** A run of ASCII letters ended by a full stop is no label. */
  lemma LetterRunStops(s: string, k: nat, ws: Whitespace)
    requires k < |s| && s[k] == '.' && forall i :: 0 <= i < k ==> IsAsciiLetter(s[i])
    ensures StripLabel(s, ws) == s
  {
    LabelRunStops(s, k, ws);
  }

  /** ^[marker]\s* : one marker character and the white space after it. */
  function StripListMarker(s: string, marker: MarkerClass, ws: Whitespace): (r: string)
    ensures |r| <= |s| && r == s[|s| - |r|..]
  {
    if |s| > 0 && IsMarker(marker, s[0]) then
      TrimStartTrims(s[1..], ws);
      TrimStart(s[1..], ws)
    else s
  }

  /** The pattern ^[marker]\s* matches the first `m` characters of `s`: the marker, then
      the white space after it, which the greedy `*` takes up to the first character
      that is not white space. */
  ghost predicate MarkerMatch(s: string, m: int, marker: MarkerClass, ws: Whitespace) {
    1 <= m <= |s| && IsMarker(marker, s[0]) && (forall i :: 1 <= i < m ==> IsSpace(ws, s[i]))
    && (m == |s| || !IsSpace(ws, s[m]))
  }

  /** StripListMarker removes exactly the match of ^[marker]\s*, which exists iff the
      text starts with a marker, and nothing when there is none. */
  lemma StripListMarkerIsRegex(s: string, marker: MarkerClass, ws: Whitespace)
    ensures (exists m :: MarkerMatch(s, m, marker, ws)) <==> s != [] && IsMarker(marker, s[0])
    ensures forall m :: MarkerMatch(s, m, marker, ws) ==> StripListMarker(s, marker, ws) == s[m..]
    ensures (forall m :: !MarkerMatch(s, m, marker, ws)) ==> StripListMarker(s, marker, ws) == s
  {
    if s != [] && IsMarker(marker, s[0]) {
      var t := s[1..];
      TrimStartTrims(t, ws);
      var m := |s| - |TrimStart(t, ws)|;
      forall i | 1 <= i < m ensures IsSpace(ws, s[i]) {
        assert s[i] == t[i - 1];
      }
      assert m < |s| ==> s[m] == TrimStart(t, ws)[0];
      assert MarkerMatch(s, m, marker, ws);
      forall m' | MarkerMatch(s, m', marker, ws) ensures StripListMarker(s, marker, ws) == s[m'..] {
        assert m' == m;
      }
    }
  }

  /** The pattern ^[A-Za-z\s]+\( matches the first `m + 1` characters of `s`. */
  ghost predicate LabelMatch(s: string, m: int, ws: Whitespace) {
    1 <= m < |s| && (forall i :: 0 <= i < m ==> IsLabelChar(s[i], ws)) && s[m] == '('
  }

  /** Removes what ^[A-Za-z\s]+\( matches: since '(' is not in the class, the
      parenthesis can only be the character right after the longest run of letters
      and white space. */
  function StripLabel(s: string, ws: Whitespace): (r: string)
    ensures |r| <= |s| && r == s[|s| - |r|..]
  {
    var n := LabelRun(s, ws);
    if 1 <= n < |s| && s[n] == '(' then s[n + 1..] else s
  }

  /** StripLabel removes exactly the match of ^[A-Za-z\s]+\(, and nothing when there
      is none. */
  lemma StripLabelIsRegex(s: string, ws: Whitespace)
    ensures forall m :: LabelMatch(s, m, ws) ==> StripLabel(s, ws) == s[m + 1..]
    ensures (forall m :: !LabelMatch(s, m, ws)) ==> StripLabel(s, ws) == s
  {
    var n := LabelRun(s, ws);
    assert !IsLabelChar('(', ws);
    assert 1 <= n < |s| && s[n] == '(' ==> LabelMatch(s, n, ws);
    assert forall i :: 0 <= i < n ==> s[i] != '(';
    assert forall m :: LabelMatch(s, m, ws) ==> m == n;
  }

  /** The pattern ^[A-Za-z\s]+\( has at most one match. */
  lemma LabelMatchUnique(s: string, m: int, m': int, ws: Whitespace)
    requires LabelMatch(s, m, ws) && LabelMatch(s, m', ws)
    ensures m == m'
  {
    assert !IsLabelChar('(', ws);
  }

  /** \)$ : one closing parenthesis at the very end. */
  function StripClosingParen(s: string): (r: string)
    ensures |r| <= |s| && r == s[..|r|]
  {
    if |s| > 0 && s[|s| - 1] == ')' then s[..|s| - 1] else s
  }

  /** The pattern ^[a-zA-Z0-9][a-zA-Z0-9\-\.]*\.[a-zA-Z]{2,} matches with its
      escaped full stop at offset `k`. */
  ghost predicate DomainMatchAt(s: string, k: int) {
    1 <= k && k + 2 < |s| && IsAsciiAlnum(s[0])
    && (forall i :: 1 <= i < k ==> IsHostChar(s[i]))
    && s[k] == '.' && IsAsciiLetter(s[k + 1]) && IsAsciiLetter(s[k + 2])
  }

  /** Searches for the full stop of a domain match from offset `k` on. */
  predicate DotFrom(s: string, k: nat)
    decreases |s| - k
  {
    if k + 2 >= |s| then false
    else
      (s[k] == '.' && IsAsciiLetter(s[k + 1]) && IsAsciiLetter(s[k + 2]))
      || (IsHostChar(s[k]) && DotFrom(s, k + 1))
  }

  /** The domain test of the normaliser, decided by a scan. */
  predicate LooksLikeDomain(s: string) {
    |s| >= 1 && IsAsciiAlnum(s[0]) && DotFrom(s, 1)
  }

  lemma {:induction false} DotFromMatches(s: string, k: nat)
    requires 1 <= k <= |s| && IsAsciiAlnum(s[0])
    requires forall i :: 1 <= i < k ==> IsHostChar(s[i])
    ensures DotFrom(s, k) <==> exists j :: k <= j && DomainMatchAt(s, j)
    decreases |s| - k
  {
    if k + 2 >= |s| {
    } else if s[k] == '.' && IsAsciiLetter(s[k + 1]) && IsAsciiLetter(s[k + 2]) {
      assert DomainMatchAt(s, k);
    } else if IsHostChar(s[k]) {
      DotFromMatches(s, k + 1);
      if exists j :: k <= j && DomainMatchAt(s, j) {
        var j :| k <= j && DomainMatchAt(s, j);
        assert j != k;
      }
    } else {
      assert forall j :: k < j && DomainMatchAt(s, j) ==> IsHostChar(s[k]);
    }
  }

  /** The scan decides exactly the regular expression. */
  lemma LooksLikeDomainIsRegex(s: string)
    ensures LooksLikeDomain(s) <==> exists k :: DomainMatchAt(s, k)
  {
    if |s| >= 1 && IsAsciiAlnum(s[0]) {
      DotFromMatches(s, 1);
    }
  }

  /** hostname.replace('www.', ''): the first "www." anywhere in the host name goes. */
  function TitleOf(url: string, hostname: string -> Option<string>): string
  {
    match hostname(url)
    case Some(h) => ReplaceFirst(h, "www.", "")
    case None => url
  }

  /** The three strips of processUrls, in their order. */
  function StripDecorations(trimmed: string, marker: MarkerClass, ws: Whitespace): (r: string)
    ensures exists a :: SliceAt(trimmed, a, r)
  {
    var m := StripListMarker(trimmed, marker, ws);
    var l := StripLabel(m, ws);
    var p := StripClosingParen(l);
    SuffixThenPrefix(trimmed, m, l, p);
    p
  }

  /** A prefix of a suffix of a suffix of `s` is a slice of `s`. */
  lemma SuffixThenPrefix(s: string, m: string, l: string, p: string)
    requires |m| <= |s| && m == s[|s| - |m|..]
    requires |l| <= |m| && l == m[|m| - |l|..]
    requires |p| <= |l| && p == l[..|p|]
    ensures SliceAt(s, |s| - |l|, p)
  {
    assert l == s[|s| - |l|..];
  }

  lemma DecorationsCompose(t: string, marker: MarkerClass, ws: Whitespace, m: string, l: string)
    requires StripListMarker(t, marker, ws) == m && StripLabel(m, ws) == l
    ensures StripDecorations(t, marker, ws) == StripClosingParen(l)
  {
  }

  /** A line that has no scheme but matches the domain pattern is given "https://". */
  function InferScheme(s: string): (r: string)
    ensures r == s || r == "https://" + s
    ensures HasHttpScheme(r) <==> HasHttpScheme(s) || (s != [] && LooksLikeDomain(s))
    ensures HasHttpScheme(s) ==> r == s
  {
    SchemePrefixed(s);
    if s != [] && !HasHttpScheme(s) && LooksLikeDomain(s) then "https://" + s else s
  }

  lemma SchemePrefixed(s: string)
    ensures HasHttpScheme("https://" + s)
  {
    assert ("https://" + s)[..8] == "https://";
  }

  /** What the loop body of processUrls makes of one line. */
  function NormalizeLine(line: string, marker: MarkerClass, hostname: string -> Option<string>): Option<Entry>
  {
    var trimmed := JsTrim(line);
    if trimmed == [] then None
    else
      var s := InferScheme(StripDecorations(trimmed, marker, JsSpace));
      if s != [] && HasHttpScheme(s) then Some(Entry(TitleOf(s, hostname), s)) else None
  }

  /** NormalizeLine, given the values of its stages. */
  lemma NormalizeLineStages(line: string, marker: MarkerClass, hostname: string -> Option<string>, t: string, d: string, u: string)
    requires JsTrim(line) == t && t != []
    requires StripDecorations(t, marker, JsSpace) == d && InferScheme(d) == u
    ensures NormalizeLine(line, marker, hostname)
      == if u != [] && HasHttpScheme(u) then Some(Entry(TitleOf(u, hostname), u)) else None
  {
  }

  function LineNormalizer(marker: MarkerClass, hostname: string -> Option<string>): string -> Option<Entry>
  {
    line => NormalizeLine(line, marker, hostname)
  }

  /** processUrls: the entries of all lines, in line order. */
  function NormalizeText(text: string, marker: MarkerClass, hostname: string -> Option<string>): seq<Entry>
  {
    FilterMap(Split(text, '\n'), LineNormalizer(marker, hostname))
  }

  method ProcessUrls(text: string, marker: MarkerClass, hostname: string -> Option<string>)
    returns (urls: seq<Entry>)
    ensures urls == NormalizeText(text, marker, hostname)
  {
    var lines := Split(text, '\n');
    urls := [];
    var i := 0;
    while i < |lines|
      invariant 0 <= i <= |lines|
      invariant urls == FilterMap(lines[..i], LineNormalizer(marker, hostname))
    {
      var e := ProcessLine(lines[i], marker, hostname);
      if e.Some? {
        FilterMapKeep(lines, LineNormalizer(marker, hostname), i, e.value);
        urls := urls + [e.value];
      } else {
        FilterMapSkip(lines, LineNormalizer(marker, hostname), i);
      }
      i := i + 1;
    }
    assert lines[..i] == lines;
  }

  /** The loop body of processUrls for one line: trim, skip an empty line, strip,
      infer the scheme, and keep the line only when it then has one. */
  method ProcessLine(line: string, marker: MarkerClass, hostname: string -> Option<string>)
    returns (e: Option<Entry>)
    ensures e == NormalizeLine(line, marker, hostname)
  {
    var cleanLine := JsTrim(line);
    if cleanLine == [] {
      return None;
    }
    ghost var trimmed := cleanLine;
    cleanLine := StripListMarker(cleanLine, marker, JsSpace);
    cleanLine := StripLabel(cleanLine, JsSpace);
    cleanLine := StripClosingParen(cleanLine);
    ghost var stripped := cleanLine;
    if cleanLine != [] && !HasHttpScheme(cleanLine) {
      if LooksLikeDomain(cleanLine) {
        cleanLine := "https://" + cleanLine;
      }
    }
    NormalizeLineStages(line, marker, hostname, trimmed, stripped, cleanLine);
    if cleanLine != [] && HasHttpScheme(cleanLine) {
      e := Some(Entry(TitleOf(cleanLine, hostname), cleanLine));
    } else {
      e := None;
    }
  }

  /** Every entry's URL starts with http:// or https:// and holds no line break. */
  lemma NormalizedUrlsAreHttp(text: string, marker: MarkerClass, hostname: string -> Option<string>, e: Entry)
    requires e in NormalizeText(text, marker, hostname)
    ensures HasHttpScheme(e.url)
    ensures '\n' !in e.url
  {
    var lines := Split(text, '\n');
    FilterMapFrom(lines, LineNormalizer(marker, hostname), e);
    SplitPiecesFree(text, '\n');
    var i :| 0 <= i < |lines| && NormalizeLine(lines[i], marker, hostname) == Some(e);
    NormalizedLineHasNoBreak(lines[i], marker, hostname);
  }

  /** The URL of a line's entry is the trimmed line, stripped, with the scheme inferred. */
  lemma NormalizeLineUrl(line: string, marker: MarkerClass, hostname: string -> Option<string>)
    ensures NormalizeLine(line, marker, hostname).Some? ==>
      NormalizeLine(line, marker, hostname).value.url == InferScheme(StripDecorations(JsTrim(line), marker, JsSpace))
  {
  }

  /** An entry's URL is a piece of its line, possibly with "https://" put before it. */
  lemma EntryUrlFromLine(line: string, marker: MarkerClass, hostname: string -> Option<string>)
    ensures NormalizeLine(line, marker, hostname).Some? ==>
      exists a, d :: SliceAt(line, a, d)
        && (NormalizeLine(line, marker, hostname).value.url == d
            || NormalizeLine(line, marker, hostname).value.url == "https://" + d)
  {
    if NormalizeLine(line, marker, hostname).Some? {
      var t := JsTrim(line);
      TrimPadded(line, JsSpace);
      var b :| PaddedBy(line, b, t, JsSpace);
      var d := StripDecorations(t, marker, JsSpace);
      var a :| SliceAt(t, a, d);
      SliceOfSlice(line, b, t, a, d);
      NormalizeLineUrl(line, marker, hostname);
    }
  }

  lemma SliceOfSlice(s: string, b: int, t: string, a: int, d: string)
    requires SliceAt(s, b, t) && SliceAt(t, a, d)
    ensures SliceAt(s, b + a, d)
  {
    forall k | 0 <= k < |d| ensures d[k] == s[b + a + k] {
      assert d[k] == t[a + k];
    }
    assert d == s[b + a..b + a + |d|];
  }

  lemma NormalizedLineHasNoBreak(line: string, marker: MarkerClass, hostname: string -> Option<string>)
    requires '\n' !in line
    ensures NormalizeLine(line, marker, hostname).Some? ==> '\n' !in NormalizeLine(line, marker, hostname).value.url
  {
    if '\n' in JsTrim(line) {
      TrimKeeps(line, JsSpace, '\n');
    }
    DecorationsKeepBreakFree(JsTrim(line), marker);
    NormalizeLineUrl(line, marker, hostname);
  }

  lemma DecorationsKeepBreakFree(t: string, marker: MarkerClass)
    requires '\n' !in t
    ensures '\n' !in InferScheme(StripDecorations(t, marker, JsSpace))
  {
    StripKeepsBreakFree(t, marker);
    InferSchemeKeepsBreakFree(StripDecorations(t, marker, JsSpace));
  }

  lemma StripKeepsBreakFree(t: string, marker: MarkerClass)
    requires '\n' !in t
    ensures '\n' !in StripDecorations(t, marker, JsSpace)
  {
    var b :| SliceAt(t, b, StripDecorations(t, marker, JsSpace));
  }

  lemma InferSchemeKeepsBreakFree(p: string)
    requires '\n' !in p
    ensures '\n' !in InferScheme(p)
  {
  }

  /** The entries come from the input lines in their order: the j-th entry is what
      the line at the j-th kept position makes, and those positions increase. */
  lemma NormalizedInLineOrder(text: string, marker: MarkerClass, hostname: string -> Option<string>)
    ensures var lines := Split(text, '\n');
      var kept := Kept(lines, LineNormalizer(marker, hostname));
      var es := NormalizeText(text, marker, hostname);
      |kept| == |es|
      && (forall j :: 0 <= j < |kept| ==> kept[j] < |lines| && NormalizeLine(lines[kept[j]], marker, hostname) == Some(es[j]))
      && (forall j, k :: 0 <= j < k < |kept| ==> kept[j] < kept[k])
      && (forall i :: 0 <= i < |lines| ==> (NormalizeLine(lines[i], marker, hostname).Some? <==> i in kept))
  {
    FilterMapOrigins(Split(text, '\n'), LineNormalizer(marker, hostname));
  }

  /** A string that starts with a scheme has no leading "label(": its run of letters
      ends at the colon. */
  lemma SchemeHasNoLabel(s: string, ws: Whitespace)
    requires HasHttpScheme(s)
    ensures StripLabel(s, ws) == s
  {
    assert s[..4] == "http";
    assert IsLabelChar(s[0], ws) && IsLabelChar(s[1], ws) && IsLabelChar(s[2], ws) && IsLabelChar(s[3], ws);
    if StartsWith(s, "http://") {
      assert s[4] == ':' && !IsLabelChar(s[4], ws);
      LabelRunStops(s, 4, ws);
    } else {
      assert s[..8] == "https://";
      assert s[4] == 's' && s[5] == ':' && !IsLabelChar(s[5], ws);
      LabelRunStops(s, 5, ws);
    }
  }

  /** A line that already carries a scheme and does not end in ')' is kept as it is
      after trimming. */
  lemma SchemeLineKept(line: string, marker: MarkerClass, hostname: string -> Option<string>)
    requires HasHttpScheme(JsTrim(line))
    requires !EndsWith(JsTrim(line), ")")
    requires !IsMarker(marker, 'h')
    ensures NormalizeLine(line, marker, hostname) == Some(Entry(TitleOf(JsTrim(line), hostname), JsTrim(line)))
  {
    var s := JsTrim(line);
    assert s[0] == 'h';
    assert StripListMarker(s, marker, JsSpace) == s;
    SchemeHasNoLabel(s, JsSpace);
    assert StripClosingParen(s) == s;
    assert StripDecorations(s, marker, JsSpace) == s;
    assert InferScheme(s) == s;
  }

  /** Renormalising an entry's URL leaves it unchanged when the URL does not end in a
      closing parenthesis or white space. */
  lemma NormalizeIdempotentUnlessParen(line: string, marker: MarkerClass, hostname: string -> Option<string>)
    requires !IsMarker(marker, 'h')
    requires NormalizeLine(line, marker, hostname).Some?
    requires var u := NormalizeLine(line, marker, hostname).value.url;
      !EndsWith(u, ")") && !IsJsSpace(u[|u| - 1])
    ensures var u := NormalizeLine(line, marker, hostname).value.url;
      NormalizeLine(u, marker, hostname) == Some(Entry(TitleOf(u, hostname), u))
  {
    var u := NormalizeLine(line, marker, hostname).value.url;
    assert HasHttpScheme(u);
    SchemeUrlStable(u, marker, hostname);
  }

  lemma SchemeUrlStable(u: string, marker: MarkerClass, hostname: string -> Option<string>)
    requires !IsMarker(marker, 'h')
    requires HasHttpScheme(u) && !EndsWith(u, ")") && !IsJsSpace(u[|u| - 1])
    ensures NormalizeLine(u, marker, hostname) == Some(Entry(TitleOf(u, hostname), u))
  {
    assert u[0] == 'h';
    TrimUnchanged(u, JsSpace);
    SchemeLineKept(u, marker, hostname);
  }
}
