/** Character classes and string operations used by the JavaScript and Python code:
    whitespace sets, trimming, splitting on a separator, prefix tests, substring
    search, replacement and ASCII lower-casing. */
module Strings {
  import opened Options

  /** The code points JavaScript treats as white space or line terminators; the same
      set is used by String.prototype.trim and by \s in a regular expression. */
  predicate IsJsSpace(c: char) {
    c == ' ' || c == '\t' || c == '\n' || c == '\r' || c == '\U{000B}' || c == '\U{000C}'
    || c == '\U{00A0}' || c == '\U{1680}' || ('\U{2000}' <= c <= '\U{200A}')
    || c == '\U{2028}' || c == '\U{2029}' || c == '\U{202F}' || c == '\U{205F}'
    || c == '\U{3000}' || c == '\U{FEFF}'
  }

  /** The code points Python's str.isspace accepts; str.strip() with no argument and
      \s in a str pattern both use this set. */
  predicate IsPySpace(c: char) {
    ('\t' <= c <= '\r') || ('\U{001C}' <= c <= '\U{001F}') || c == ' ' || c == '\U{0085}'
    || c == '\U{00A0}' || c == '\U{1680}' || ('\U{2000}' <= c <= '\U{200A}')
    || c == '\U{2028}' || c == '\U{2029}' || c == '\U{202F}' || c == '\U{205F}'
    || c == '\U{3000}'
  }

  /** Which language's notion of white space a trim uses. */
  datatype Whitespace = JsSpace | PySpace

  predicate IsSpace(ws: Whitespace, c: char) {
    match ws
    case JsSpace => IsJsSpace(c)
    case PySpace => IsPySpace(c)
  }

  predicate IsAsciiLetter(c: char) { ('a' <= c <= 'z') || ('A' <= c <= 'Z') }

  predicate IsAsciiDigit(c: char) { '0' <= c <= '9' }

  predicate IsAsciiAlnum(c: char) { IsAsciiLetter(c) || IsAsciiDigit(c) }

  /** Removes the longest prefix of white space of `ws`. */
  function TrimStart(s: string, ws: Whitespace): string
  {
    if |s| > 0 && IsSpace(ws, s[0]) then TrimStart(s[1..], ws) else s
  }

  /** TrimStart leaves a suffix that does not start with white space, and what it
      removes is all white space. */
  lemma {:induction false} TrimStartTrims(s: string, ws: Whitespace)
    ensures |TrimStart(s, ws)| <= |s| && TrimStart(s, ws) == s[|s| - |TrimStart(s, ws)|..]
    ensures forall i :: 0 <= i < |s| - |TrimStart(s, ws)| ==> IsSpace(ws, s[i])
    ensures TrimStart(s, ws) == [] || !IsSpace(ws, TrimStart(s, ws)[0])
    decreases |s|
  {
    if |s| > 0 && IsSpace(ws, s[0]) {
      TrimStartTrims(s[1..], ws);
      forall i | 1 <= i < |s| - |TrimStart(s, ws)| ensures IsSpace(ws, s[i]) {
        assert s[i] == s[1..][i - 1];
      }
    }
  }

  /** Removes the longest suffix of white space of `ws`. */
  function TrimEnd(s: string, ws: Whitespace): string
  {
    if |s| > 0 && IsSpace(ws, s[|s| - 1]) then TrimEnd(s[..|s| - 1], ws) else s
  }

  /** TrimEnd leaves a prefix that does not end with white space, and what it
      removes is all white space. */
  lemma {:induction false} TrimEndTrims(s: string, ws: Whitespace)
    ensures |TrimEnd(s, ws)| <= |s| && TrimEnd(s, ws) == s[..|TrimEnd(s, ws)|]
    ensures forall i :: |TrimEnd(s, ws)| <= i < |s| ==> IsSpace(ws, s[i])
    ensures TrimEnd(s, ws) == [] || !IsSpace(ws, TrimEnd(s, ws)[|TrimEnd(s, ws)| - 1])
    decreases |s|
  {
    if |s| > 0 && IsSpace(ws, s[|s| - 1]) {
      TrimEndTrims(s[..|s| - 1], ws);
      forall i | |TrimEnd(s, ws)| <= i < |s| - 1 ensures IsSpace(ws, s[i]) {
        assert s[i] == s[..|s| - 1][i];
      }
    }
  }

  /** `r` is the slice of `s` at offset `a`. */
  predicate SliceAt(s: string, a: int, r: string) {
    0 <= a <= |s| - |r| && r == s[a..a + |r|]
  }

  /** `r` is the slice of `s` at offset `a`, and everything outside it is white space of `ws`. */
  predicate PaddedBy(s: string, a: int, r: string, ws: Whitespace) {
    0 <= a <= |s| - |r| && r == s[a..a + |r|]
    && (forall i :: 0 <= i < a ==> IsSpace(ws, s[i]))
    && (forall i :: a + |r| <= i < |s| ==> IsSpace(ws, s[i]))
  }

  /** Removes surrounding white space of `ws` on both sides. */
  function Trim(s: string, ws: Whitespace): string
  {
    TrimEnd(TrimStart(s, ws), ws)
  }

  /** The trim of `s` is a slice of `s` whose outside is all white space and whose
      ends are not. */
  lemma TrimPadded(s: string, ws: Whitespace)
    ensures exists a :: PaddedBy(s, a, Trim(s, ws), ws)
    ensures Trim(s, ws) == [] || (!IsSpace(ws, Trim(s, ws)[0]) && !IsSpace(ws, Trim(s, ws)[|Trim(s, ws)| - 1]))
  {
    var t := TrimStart(s, ws);
    TrimStartTrims(s, ws);
    TrimEndTrims(t, ws);
    TrimmedBothEnds(s, t, Trim(s, ws), ws);
  }

  /** A prefix `r` of a suffix `t` of `s`, each cut off at white space, is `s` padded. */
  lemma TrimmedBothEnds(s: string, t: string, r: string, ws: Whitespace)
    requires |t| <= |s| && t == s[|s| - |t|..] && forall i :: 0 <= i < |s| - |t| ==> IsSpace(ws, s[i])
    requires |r| <= |t| && r == t[..|r|] && forall i :: |r| <= i < |t| ==> IsSpace(ws, t[i])
    ensures PaddedBy(s, |s| - |t|, r, ws)
    ensures r != [] ==> r[0] == t[0]
  {
    var a := |s| - |t|;
    forall i | a + |r| <= i < |s| ensures IsSpace(ws, s[i]) {
      assert s[i] == t[i - a];
    }
  }

  /** Trimming only removes characters. */
  lemma TrimKeeps(s: string, ws: Whitespace, c: char)
    requires c in Trim(s, ws)
    ensures c in s
  {
    TrimPadded(s, ws);
    var a :| PaddedBy(s, a, Trim(s, ws), ws);
  }

  /** A string whose ends are not white space is its own trim. */
  lemma TrimUnchanged(s: string, ws: Whitespace)
    requires s == [] || (!IsSpace(ws, s[0]) && !IsSpace(ws, s[|s| - 1]))
    ensures Trim(s, ws) == s
  {
    assert TrimStart(s, ws) == s;
  }

  /** String.prototype.trim. */
  function JsTrim(s: string): string { Trim(s, JsSpace) }

  /** Python's str.strip() with no argument. */
  function PyStrip(s: string): string { Trim(s, PySpace) }

  predicate StartsWith(s: string, p: string) {
    |p| <= |s| && s[..|p|] == p
  }

  predicate EndsWith(s: string, p: string) {
    |p| <= |s| && s[|s| - |p|..] == p
  }

  /** `sub` occurs in `s` at offset `i`. */
  predicate OccursAt(s: string, sub: string, i: int) {
    0 <= i && i + |sub| <= |s| && s[i..i + |sub|] == sub
  }

  /** String.prototype.includes / Python's `in`, by scanning from the left. */
  predicate Contains(s: string, sub: string)
  {
    StartsWith(s, sub) || (|s| > 0 && Contains(s[1..], sub))
  }

  lemma {:induction false} ContainsIsOccurrence(s: string, sub: string)
    ensures Contains(s, sub) <==> exists i :: OccursAt(s, sub, i)
  {
    if StartsWith(s, sub) {
      assert OccursAt(s, sub, 0);
    } else if |s| == 0 {
    } else {
      ContainsIsOccurrence(s[1..], sub);
      if exists i :: OccursAt(s[1..], sub, i) {
        var i :| OccursAt(s[1..], sub, i);
        assert s[1..][i..i + |sub|] == s[i + 1..i + 1 + |sub|];
        assert OccursAt(s, sub, i + 1);
      }
      if exists i :: OccursAt(s, sub, i) {
        var i :| OccursAt(s, sub, i);
        assert i != 0;
        assert s[1..][i - 1..i - 1 + |sub|] == s[i..i + |sub|];
        assert OccursAt(s[1..], sub, i - 1);
      }
    }
  }

  /** The offset of the leftmost occurrence of a non-empty `sub`, if any. */
  function IndexOf(s: string, sub: string): (r: Option<nat>)
    requires |sub| > 0
    ensures r.Some? ==> OccursAt(s, sub, r.value) && forall j :: 0 <= j < r.value ==> !OccursAt(s, sub, j)
    ensures r.None? ==> forall j :: !OccursAt(s, sub, j)
  {
    if |s| < |sub| then None
    else if s[..|sub|] == sub then Some(0)
    else
      var t := IndexOf(s[1..], sub);
      OccursShift(s, sub);
      match t
      case None => None
      case Some(k) => Some(k + 1)
  }

  /** An occurrence after the first character is an occurrence in the rest. */
  lemma OccursShift(s: string, sub: string)
    requires |s| > 0
    ensures forall j :: 1 <= j ==> (OccursAt(s, sub, j) <==> OccursAt(s[1..], sub, j - 1))
  {
    forall j | 1 <= j ensures OccursAt(s, sub, j) <==> OccursAt(s[1..], sub, j - 1) {
      if j + |sub| <= |s| {
        assert s[1..][j - 1..j - 1 + |sub|] == s[j..j + |sub|];
      }
    }
  }

  /** String.prototype.replace with a string pattern: only the leftmost occurrence
      is replaced. */
  function ReplaceFirst(s: string, pat: string, rep: string): (r: string)
    requires |pat| > 0
    ensures (forall j :: !OccursAt(s, pat, j)) ==> r == s
    ensures forall i :: OccursAt(s, pat, i) && (forall j :: 0 <= j < i ==> !OccursAt(s, pat, j)) ==>
      r == s[..i] + rep + s[i + |pat|..]
  {
    match IndexOf(s, pat)
    case None => s
    case Some(i) => s[..i] + rep + s[i + |pat|..]
  }

  /** Python's str.replace: every occurrence, scanning left to right without overlap. */
  function ReplaceAll(s: string, pat: string, rep: string): (r: string)
    requires |pat| > 0
    ensures |rep| <= |pat| ==> |r| <= |s|
    decreases |s|
  {
    if |s| == 0 then s
    else if StartsWith(s, pat) then rep + ReplaceAll(s[|pat|..], pat, rep)
    else [s[0]] + ReplaceAll(s[1..], pat, rep)
  }

  /** A text without an occurrence of the pattern is left as it is. */
  lemma {:induction false} ReplaceAllUnchanged(s: string, pat: string, rep: string)
    requires |pat| > 0 && forall j :: !OccursAt(s, pat, j)
    ensures ReplaceAll(s, pat, rep) == s
    decreases |s|
  {
    if |s| > 0 {
      assert !OccursAt(s, pat, 0);
      forall j ensures !OccursAt(s[1..], pat, j) {
        assert !OccursAt(s, pat, j + 1);
        if 0 <= j && j + |pat| <= |s| - 1 {
          assert s[1..][j..j + |pat|] == s[j + 1..j + 1 + |pat|];
        }
      }
      ReplaceAllUnchanged(s[1..], pat, rep);
      assert [s[0]] + s[1..] == s;
    }
  }

  /** str.replace scans from the left: the text before the leftmost occurrence is
      kept, that occurrence is replaced, and the scan goes on after it, so occurrences
      never overlap. */
  lemma ReplaceAllLeftmost(s: string, pat: string, rep: string, i: nat)
    requires |pat| > 0 && OccursAt(s, pat, i)
    requires forall j :: 0 <= j < i ==> !OccursAt(s, pat, j)
    ensures ReplaceAll(s, pat, rep) == s[..i] + rep + ReplaceAll(s[i + |pat|..], pat, rep)
  {
    var a, b := s[..i], s[i + |pat|..];
    Around(s, i, |pat|);
    forall j | 0 <= j < |a| ensures !OccursAt(a + pat + b, pat, j) {
      assert !OccursAt(s, pat, j);
    }
    ReplaceAllAfter(a, pat, b, rep);
  }

  lemma Around<T>(s: seq<T>, i: nat, n: nat)
    requires i + n <= |s|
    ensures s[..i] + s[i..i + n] + s[i + n..] == s
  {
  }

  /** The same, for a text written as the part before the occurrence, the
      occurrence and the rest. */
  lemma {:induction false} ReplaceAllAfter(a: string, pat: string, b: string, rep: string)
    requires |pat| > 0
    requires forall j :: 0 <= j < |a| ==> !OccursAt(a + pat + b, pat, j)
    ensures ReplaceAll(a + pat + b, pat, rep) == a + rep + ReplaceAll(b, pat, rep)
    decreases |a|
  {
    var s := a + pat + b;
    if a == [] {
      assert s == pat + b && s[|pat|..] == b;
      ReplaceAllTake(s, pat, rep);
    } else {
      var a' := a[1..];
      assert s[1..] == a' + pat + b;
      assert !OccursAt(s, pat, 0);
      forall j | 0 <= j < |a'| ensures !OccursAt(a' + pat + b, pat, j) {
        assert !OccursAt(s, pat, j + 1);
        assert s[j + 1..j + 1 + |pat|] == s[1..][j..j + |pat|];
      }
      ReplaceAllAfter(a', pat, b, rep);
      ReplaceAllSkip(s, pat, rep);
      assert [s[0]] + a' == a;
    }
  }

  /** With the pattern at the front, str.replace replaces it first. */
  lemma ReplaceAllTake(s: string, pat: string, rep: string)
    requires |pat| > 0 && OccursAt(s, pat, 0)
    ensures ReplaceAll(s, pat, rep) == rep + ReplaceAll(s[|pat|..], pat, rep)
  {
    assert StartsWith(s, pat);
  }

  /** Without the pattern at the front, str.replace keeps the first character. */
  lemma ReplaceAllSkip(s: string, pat: string, rep: string)
    requires |pat| > 0 && |s| > 0 && !StartsWith(s, pat)
    ensures ReplaceAll(s, pat, rep) == [s[0]] + ReplaceAll(s[1..], pat, rep)
  {
  }

  /** Lower-cases the ASCII letters and leaves every other character as it is. */
  function AsciiLower(s: string): (r: string)
    ensures |r| == |s|
    ensures forall i :: 0 <= i < |s| ==> r[i] == (if 'A' <= s[i] <= 'Z' then (s[i] as int + 32) as char else s[i])
  {
    if s == [] then [] else
      [if 'A' <= s[0] <= 'Z' then (s[0] as int + 32) as char else s[0]] + AsciiLower(s[1..])
  }

  /** String.prototype.split / Python's str.split with a one-character separator:
      always at least one piece. */
  function Split(s: string, sep: char): (r: seq<string>)
    ensures |r| >= 1
  {
    if s == [] then [[]]
    else if s[0] == sep then [[]] + Split(s[1..], sep)
    else
      var t := Split(s[1..], sep);
      [[s[0]] + t[0]] + t[1..]
  }

  /** No piece of a split holds the separator. */
  lemma {:induction false} SplitPiecesFree(s: string, sep: char)
    ensures forall i :: 0 <= i < |Split(s, sep)| ==> sep !in Split(s, sep)[i]
  {
    if s != [] {
      SplitPiecesFree(s[1..], sep);
    }
  }

  /** Array.prototype.join / Python's str.join with a one-character separator. */
  function Join(parts: seq<string>, sep: char): string
  {
    if parts == [] then []
    else if |parts| == 1 then parts[0]
    else parts[0] + [sep] + Join(parts[1..], sep)
  }

  lemma {:induction false} JoinSplit(s: string, sep: char)
    ensures Join(Split(s, sep), sep) == s
  {
    if s != [] {
      var c, x := s[0], s[1..];
      assert s == [c] + x;
      JoinSplit(x, sep);
      if c == sep {
        JoinSplitSep(c, x, sep);
      } else {
        JoinSplitOther(c, x, sep);
      }
    }
  }

  lemma JoinSplitSep(c: char, x: string, sep: char)
    requires c == sep && Join(Split(x, sep), sep) == x
    ensures Join(Split([c] + x, sep), sep) == [c] + x
  {
    SplitConsSep(c, x, sep);
    JoinCons([], Split(x, sep), sep);
  }

  lemma JoinSplitOther(c: char, x: string, sep: char)
    requires c != sep && Join(Split(x, sep), sep) == x
    ensures Join(Split([c] + x, sep), sep) == [c] + x
  {
    SplitConsOther(c, x, sep);
    var t := Split(x, sep);
    var h, r := t[0], t[1..];
    assert t == [h] + r;
    if r == [] {
      assert Split([c] + x, sep) == [[c] + h];
    } else {
      JoinCons([c] + h, r, sep);
      JoinCons(h, r, sep);
      SeqAssoc([c], h + [sep], Join(r, sep));
      SeqAssoc([c], h, [sep]);
    }
  }

  /** Joining a piece in front of a non-empty list adds one separator. */
  lemma JoinCons(p: string, t: seq<string>, sep: char)
    requires |t| >= 1
    ensures Join([p] + t, sep) == p + [sep] + Join(t, sep)
  {
    assert ([p] + t)[1..] == t;
  }

  lemma {:induction false} SplitSingle(s: string, sep: char)
    requires sep !in s
    ensures Split(s, sep) == [s]
  {
    if s != [] {
      assert s[0] != sep && sep !in s[1..];
      SplitSingle(s[1..], sep);
      assert [s[0]] + s[1..] == s;
    }
  }

  /** Splitting at a separator splices the pieces of both sides. */
  lemma {:induction false} SplitAppend(a: string, sep: char, b: string)
    ensures Split(a + [sep] + b, sep) == Split(a, sep) + Split(b, sep)
  {
    if a == [] {
      assert a + [sep] + b == [sep] + b;
      SplitConsSep(sep, b, sep);
    } else {
      var x := a[1..];
      assert a == [a[0]] + x;
      assert a + [sep] + b == [a[0]] + (x + [sep] + b);
      SplitAppend(x, sep, b);
      SplitAppendStep(a[0], x, sep, b);
    }
  }

  lemma SplitAppendStep(c: char, x: string, sep: char, b: string)
    requires Split(x + [sep] + b, sep) == Split(x, sep) + Split(b, sep)
    ensures Split([c] + (x + [sep] + b), sep) == Split([c] + x, sep) + Split(b, sep)
  {
    var u, v := Split(x, sep), Split(b, sep);
    if c != sep {
      SplitConsOther(c, x + [sep] + b, sep);
      SplitConsOther(c, x, sep);
      SpliceHead([c] + u[0], u, v);
    } else {
      SplitConsSep(c, x + [sep] + b, sep);
      SplitConsSep(c, x, sep);
      SeqAssoc([[]], u, v);
    }
  }

  lemma SplitConsSep(c: char, x: string, sep: char)
    requires c == sep
    ensures Split([c] + x, sep) == [[]] + Split(x, sep)
  {
    assert ([c] + x)[1..] == x;
  }

  lemma SplitConsOther(c: char, x: string, sep: char)
    requires c != sep
    ensures Split([c] + x, sep) == [[c] + Split(x, sep)[0]] + Split(x, sep)[1..]
  {
    assert ([c] + x)[1..] == x;
  }

  lemma SeqAssoc<T>(a: seq<T>, b: seq<T>, c: seq<T>)
    ensures a + (b + c) == (a + b) + c
  {
  }

  /** Replacing the first element of `u + v` only touches `u`. */
  lemma SpliceHead<T>(h: T, u: seq<T>, v: seq<T>)
    requires |u| >= 1
    ensures [h] + (u + v)[1..] == ([h] + u[1..]) + v
  {
    assert (u + v)[1..] == u[1..] + v;
  }

  lemma {:induction false} SplitJoin(parts: seq<string>, sep: char)
    requires |parts| >= 1
    requires forall i :: 0 <= i < |parts| ==> sep !in parts[i]
    ensures Split(Join(parts, sep), sep) == parts
  {
    if |parts| == 1 {
      SplitSingle(parts[0], sep);
    } else {
      SplitJoin(parts[1..], sep);
      SplitSingle(parts[0], sep);
      SplitAppend(parts[0], sep, Join(parts[1..], sep));
      assert [parts[0]] + parts[1..] == parts;
    }
  }

  /** Joining two non-empty lists of pieces puts one separator between their joins. */
  lemma {:induction false} JoinAppend(a: seq<string>, b: seq<string>, sep: char)
    requires |a| >= 1 && |b| >= 1
    ensures Join(a + b, sep) == Join(a, sep) + [sep] + Join(b, sep)
  {
    if |a| == 1 {
      assert (a + b)[1..] == b;
    } else {
      JoinAppend(a[1..], b, sep);
      assert (a + b)[1..] == a[1..] + b;
    }
  }
}
