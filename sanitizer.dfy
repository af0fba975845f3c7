/**
 * `sanitizeContent` of the popup: the text of an assignment is cleaned before
 * it is sent to the summariser: runs of whitespace become one space, blank
 * lines are merged, both ends are trimmed and the result is cut to 4000
 * characters.
 */
module Sanitizer {
  import opened Strings

  /** The largest content length sent to the summariser. */
  const MaxContentLength := 4000

  /** Every whitespace character is a plain space, and no two spaces are adjacent. */
  predicate SingleSpaced(s: string)
  {
    && (forall i :: 0 <= i < |s| && IsSpace(s[i]) ==> s[i] == ' ')
    && (forall i :: 0 <= i < |s| - 1 ==> !(s[i] == ' ' && s[i + 1] == ' '))
  }

  /** `s.replace(/\s+/g, ' ')` */
  function CollapseSpaces(s: string): string
    decreases |s|
  {
    if s == [] then []
    else if IsSpace(s[0]) then
      TrimStartShape(s);
      " " + CollapseSpaces(TrimStart(s))
    else
      [s[0]] + CollapseSpaces(s[1..])
  }

  /**
   * The collapsed text is single-spaced, empty only for empty input, starts
   * with a space exactly when the input starts with whitespace, and keeps all
   * of the input's text.
   */
  lemma {:induction false} CollapseSpacesShape(s: string)
    ensures SingleSpaced(CollapseSpaces(s))
    ensures CollapseSpaces(s) == [] <==> s == []
    ensures s != [] ==> (CollapseSpaces(s)[0] == ' ' <==> IsSpace(s[0]))
    ensures Squeeze(CollapseSpaces(s)) == Squeeze(s)
    decreases |s|
  {
    if s == [] {
    } else if IsSpace(s[0]) {
      TrimStartShape(s);
      var rest := TrimStart(s);
      CollapseSpacesShape(rest);
      var r := " " + CollapseSpaces(rest);
      assert r == CollapseSpaces(s);
      assert r[1..] == CollapseSpaces(rest);
    } else {
      CollapseSpacesShape(s[1..]);
      var r := [s[0]] + CollapseSpaces(s[1..]);
      assert r == CollapseSpaces(s);
      assert r[1..] == CollapseSpaces(s[1..]);
    }
  }

  /** Text without whitespace is kept exactly as written. */
  lemma {:induction false} CollapseSpacesText(t: string)
    requires forall i :: 0 <= i < |t| ==> !IsSpace(t[i])
    ensures CollapseSpaces(t) == t
    decreases |t|
  {
    if t != [] {
      CollapseSpacesText(t[1..]);
    }
  }

  /**
   * Each maximal run of whitespace becomes one space in its place: between a
   * part that does not end in whitespace and one that does not start with it,
   * a non-empty run `w` is replaced by exactly one space, and the parts are
   * collapsed on their own.
   */
  lemma {:induction false} CollapseSpacesRun(a: string, w: string, b: string)
    requires a == [] || !IsSpace(a[|a| - 1])
    requires w != [] && forall i :: 0 <= i < |w| ==> IsSpace(w[i])
    requires b == [] || !IsSpace(b[0])
    ensures CollapseSpaces(a + w + b) == CollapseSpaces(a) + " " + CollapseSpaces(b)
    decreases |a|
  {
    if a == [] {
      assert a + w + b == w + b;
      TrimStartSpaces(w, b);
      CollapseLeadingSpace(w + b);
    } else if !IsSpace(a[0]) {
      CollapseSpacesRun(a[1..], w, b);
      assert a + w + b == a + (w + b) && a[1..] + w + b == a[1..] + (w + b);
      RunAfterText(a, w + b, CollapseSpaces(b));
    } else {
      TrimStartShape(a);
      var t := TrimStart(a);
      assert t != [] && t[|t| - 1] == a[|a| - 1];
      CollapseSpacesRun(t, w, b);
      assert a + w + b == a + (w + b) && t + w + b == t + (w + b);
      RunAfterSpace(a, w + b, CollapseSpaces(b));
    }
  }

  /** The step of `CollapseSpacesRun` for a part that starts with text. */
  lemma RunAfterText(a: string, x: string, cb: string)
    requires a != [] && !IsSpace(a[0])
    requires CollapseSpaces(a[1..] + x) == CollapseSpaces(a[1..]) + " " + cb
    ensures CollapseSpaces(a + x) == CollapseSpaces(a) + " " + cb
  {
    assert a + x == [a[0]] + (a[1..] + x);
    assert a == [a[0]] + a[1..];
    CollapseText(a[0], a[1..] + x);
    CollapseText(a[0], a[1..]);
  }

  /** The step of `CollapseSpacesRun` for a part that starts with whitespace and ends with text. */
  lemma RunAfterSpace(a: string, x: string, cb: string)
    requires a != [] && IsSpace(a[0]) && !IsSpace(a[|a| - 1])
    requires CollapseSpaces(TrimStart(a) + x) == CollapseSpaces(TrimStart(a)) + " " + cb
    ensures CollapseSpaces(a + x) == CollapseSpaces(a) + " " + cb
  {
    TrimStartAppend(a, x);
    CollapseLeadingSpace(a + x);
    CollapseLeadingSpace(a);
  }

  /** A text character is kept in front of the collapsed rest. */
  lemma CollapseText(c: char, s: string)
    requires !IsSpace(c)
    ensures CollapseSpaces([c] + s) == [c] + CollapseSpaces(s)
  {
    assert ([c] + s)[1..] == s;
  }

  /** Leading whitespace becomes one space in front of the collapsed text after it. */
  lemma CollapseLeadingSpace(s: string)
    requires s != [] && IsSpace(s[0])
    ensures CollapseSpaces(s) == " " + CollapseSpaces(TrimStart(s))
  {
  }

  /** A whitespace run in front of text is dropped entirely by `trimStart`. */
  lemma {:induction false} TrimStartSpaces(w: string, b: string)
    requires forall i :: 0 <= i < |w| ==> IsSpace(w[i])
    requires b == [] || !IsSpace(b[0])
    ensures TrimStart(w + b) == b
    decreases |w|
  {
    if w == [] {
      assert w + b == b;
    } else {
      assert (w + b)[1..] == w[1..] + b;
      TrimStartSpaces(w[1..], b);
    }
  }

  /** `trimStart` of text followed by anything stops inside the text. */
  lemma {:induction false} TrimStartAppend(a: string, x: string)
    requires a != [] && !IsSpace(a[|a| - 1])
    ensures TrimStart(a + x) == TrimStart(a) + x
    decreases |a|
  {
    if IsSpace(a[0]) {
      assert |a| >= 2;
      assert (a + x)[1..] == a[1..] + x;
      TrimStartAppend(a[1..], x);
    }
  }

  /** The number of leading whitespace characters of `s`. */
  function SpaceRun(s: string): (n: nat)
    ensures n <= |s|
    ensures forall i :: 0 <= i < n ==> IsSpace(s[i])
    ensures n < |s| ==> !IsSpace(s[n])
  {
    if s != [] && IsSpace(s[0]) then 1 + SpaceRun(s[1..]) else 0
  }

  /** The last position before `n` that holds a line feed, or -1 when there is none. */
  function LastNewline(s: string, n: nat): (j: int)
    requires n <= |s|
    ensures -1 <= j < n
    ensures j >= 0 ==> s[j] == '\n'
    ensures forall k :: j < k < n ==> s[k] != '\n'
  {
    if n == 0 then -1
    else if s[n - 1] == '\n' then n - 1
    else LastNewline(s, n - 1)
  }

  /**
   * `s.replace(/\n\s*\n/g, '\n')`. At a line feed, the greedy `\s*` takes the
   * whole whitespace run that follows, then backs off to the last line feed
   * inside it; the match, if any, becomes one line feed and the scan resumes
   * after it. Without a match the scan moves one character on.
   */
  function CollapseBlankLines(s: string): string
    decreases |s|
  {
    if s == [] then []
    else if s[0] == '\n' && LastNewline(s[1..], SpaceRun(s[1..])) >= 0 then
      "\n" + CollapseBlankLines(s[LastNewline(s[1..], SpaceRun(s[1..])) + 2..])
    else [s[0]] + CollapseBlankLines(s[1..])
  }

  /** `s.substring(0, MaxContentLength)` */
  function Truncate(s: string): (r: string)
    ensures |r| <= MaxContentLength && r <= s
    ensures |s| <= MaxContentLength ==> r == s
    ensures |s| > MaxContentLength ==> |r| == MaxContentLength
  {
    s[..if |s| <= MaxContentLength then |s| else MaxContentLength]
  }

  lemma SingleSpacedSlice(s: string, a: nat, b: nat)
    requires SingleSpaced(s) && a <= b <= |s|
    ensures SingleSpaced(s[a..b])
  {
    var t := s[a..b];
    assert forall i :: 0 <= i < |t| ==> t[i] == s[a + i];
  }

  lemma SqueezePrefix(s: string, k: nat)
    requires k <= |s|
    ensures Squeeze(s[..k]) <= Squeeze(s)
  {
    assert s == s[..k] + s[k..];
    SqueezeAppend(s[..k], s[k..]);
  }

  /** Trimming a single-spaced string keeps it single-spaced and leaves no space at either end. */
  lemma TrimSingleSpaced(c: string)
    requires SingleSpaced(c)
    ensures SingleSpaced(Trim(c))
    ensures Trim(c) == [] || (Trim(c)[0] != ' ' && Trim(c)[|Trim(c)| - 1] != ' ')
  {
    TrimStartShape(c);
    TrimEndShape(TrimStart(c));
    var a := |c| - |TrimStart(c)|;
    assert Trim(c) == c[a..a + |Trim(c)|];
    SingleSpacedSlice(c, a, a + |Trim(c)|);
    TrimShape(c);
  }

  /** The text kept by trimming and collapsing is all of the text of `content`. */
  lemma CleanKeepsText(content: string)
    ensures Squeeze(Trim(CollapseSpaces(content))) == Squeeze(content)
    ensures Trim(CollapseSpaces(content)) == [] <==> forall i :: 0 <= i < |content| ==> IsSpace(content[i])
  {
    var c := CollapseSpaces(content);
    CollapseSpacesShape(content);
    TrimShape(c);
    SqueezeEmpty(content);
    SqueezeEmpty(c);
  }

  /** `sanitizeContent`: `/\s+/g` to one space, `/\n\s*\n/g` to a line feed, `trim()`, `substring(0, 4000)`. */
  function Sanitize(content: string): string
  {
    Truncate(Trim(CollapseBlankLines(CollapseSpaces(content))))
  }

  /** The sanitised text is at most 4000 characters, single-spaced, and does not start with a space. */
  lemma SanitizeShape(content: string)
    ensures |Sanitize(content)| <= MaxContentLength
    ensures SingleSpaced(Sanitize(content))
    ensures Sanitize(content) == [] || Sanitize(content)[0] != ' '
  {
    SecondReplaceIsNoOp(content);
    var t := Trim(CollapseSpaces(content));
    CollapseSpacesShape(content);
    TrimSingleSpaced(CollapseSpaces(content));
    SingleSpacedSlice(t, 0, |Truncate(t)|);
  }

  /**
   * The sanitised text keeps a prefix of the text of `content`; unless it was
   * cut, it keeps all of that text and does not end with a space.
   */
  lemma SanitizeKeepsText(content: string)
    ensures Squeeze(Sanitize(content)) <= Squeeze(content)
    ensures |Trim(CollapseSpaces(content))| <= MaxContentLength ==>
              Squeeze(Sanitize(content)) == Squeeze(content)
              && (Sanitize(content) == [] || Sanitize(content)[|Sanitize(content)| - 1] != ' ')
  {
    SecondReplaceIsNoOp(content);
    var t := Trim(CollapseSpaces(content));
    CollapseSpacesShape(content);
    TrimSingleSpaced(CollapseSpaces(content));
    CleanKeepsText(content);
    SqueezePrefix(t, |Truncate(t)|);
  }

  /** The sanitised text is empty exactly when `content` is all whitespace. */
  lemma SanitizeEmptyIff(content: string)
    ensures Sanitize(content) == [] <==> forall i :: 0 <= i < |content| ==> IsSpace(content[i])
  {
    SecondReplaceIsNoOp(content);
    CleanKeepsText(content);
  }

  lemma {:induction false} CollapseBlankLinesWithoutNewline(s: string)
    requires '\n' !in s
    ensures CollapseBlankLines(s) == s
    decreases |s|
  {
    if s != [] {
      assert s[0] in s;
      assert forall c :: c in s[1..] ==> c in s;
      CollapseBlankLinesWithoutNewline(s[1..]);
    }
  }

  /** After `/\s+/g` has run, `/\n\s*\n/g` finds nothing: the second replacement never changes the text. */
  lemma SecondReplaceIsNoOp(content: string)
    ensures CollapseBlankLines(CollapseSpaces(content)) == CollapseSpaces(content)
  {
    var c := CollapseSpaces(content);
    CollapseSpacesShape(content);
    assert forall i :: 0 <= i < |c| ==> c[i] != '\n';
    CollapseBlankLinesWithoutNewline(c);
  }

  /** On text that still holds line feeds the second replacement does merge blank lines. */
  lemma BlankLinesMerged()
    ensures CollapseBlankLines("a\n \nb") == "a\nb"
  {
    var s := "a\n \nb";
    var t := s[1..];
    assert t == "\n \nb";
    var u := t[1..];
    assert u == " \nb" && u[1..] == "\nb" && u[1..][1..] == "b";
    assert SpaceRun("b") == 0;
    assert SpaceRun(u) == 2;
    assert LastNewline(u, 2) == 1;
    assert t[3..] == "b";
    assert CollapseBlankLines("b") == "b";
  }
}
