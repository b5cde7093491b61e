/**
 * `clean_text`: the whitespace canonicalisation every cell goes through
 * before it is validated, redacted or compared.
 */
module Normalize {
  import opened Wrappers
  import opened Chars

  /** `str.lstrip()`: the text without its leading whitespace. */
  function TrimStart(s: string): (r: string)
    ensures |r| <= |s| && r == s[|s| - |r|..]
    ensures r == [] || !IsSpace(r[0])
    ensures forall k :: 0 <= k < |s| - |r| ==> IsSpace(s[k])
    decreases |s|
  {
    if s != [] && IsSpace(s[0]) then TrimStart(s[1..]) else s
  }

  /** `str.rstrip()`: the text without its trailing whitespace. */
  function TrimEnd(s: string): (r: string)
    ensures |r| <= |s| && r == s[..|r|]
    ensures r == [] || !IsSpace(r[|r| - 1])
    ensures forall k :: |r| <= k < |s| ==> IsSpace(s[k])
    decreases |s|
  {
    if s != [] && IsSpace(s[|s| - 1]) then TrimEnd(s[..|s| - 1]) else s
  }

  /** `str.strip()`. */
  function Strip(s: string): string {
    TrimEnd(TrimStart(s))
  }

  /** `re.sub(r'\s+', ' ', s)`: every maximal run of whitespace becomes one space. */
  function CollapseWhitespace(s: string): string
    decreases |s|
  {
    if s == [] then []
    else if IsSpace(s[0]) then " " + CollapseWhitespace(TrimStart(s))
    else [s[0]] + CollapseWhitespace(s[1..])
  }

  /** `s.replace(pat, rep)`: non-overlapping occurrences, left to right. */
  function Replace(s: string, pat: string, rep: string): string
    requires pat != []
    decreases |s|
  {
    if |s| < |pat| then s
    else if s[..|pat|] == pat then rep + Replace(s[|pat|..], pat, rep)
    else [s[0]] + Replace(s[1..], pat, rep)
  }

  /** The three line-break replacements, carriage return plus line feed first. */
  function ReplaceLineBreaks(s: string): string {
    Replace(Replace(Replace(s, "\r\n", " "), "\n", " "), "\r", " ")
  }

  /** `s` without its leading spaces (the space character only). */
  function DropBlanks(s: string): (r: string)
    ensures |r| <= |s| && r == s[|s| - |r|..]
    ensures s != [] && s[0] == ' ' ==> |r| < |s|
    decreases |s|
  {
    if s != [] && s[0] == ' ' then DropBlanks(s[1..]) else s
  }

  /** `re.sub(r' +', ' ', s)`: every run of spaces becomes one space. */
  function SquashBlanks(s: string): string
    decreases |s|
  {
    if s == [] then []
    else if s[0] == ' ' then " " + SquashBlanks(DropBlanks(s))
    else [s[0]] + SquashBlanks(s[1..])
  }

  /** The only whitespace is the space character, and never two in a row. */
  predicate SingleSpaced(r: string) {
    && (forall k :: 0 <= k < |r| && IsSpace(r[k]) ==> r[k] == ' ')
    && (forall k :: 0 <= k < |r| - 1 ==> !IsSpace(r[k]) || !IsSpace(r[k + 1]))
  }

  /** The shape `clean_text` produces: single-spaced, nothing to strip at either end. */
  predicate Canonical(r: string) {
    && SingleSpaced(r)
    && (r == [] || (!IsSpace(r[0]) && !IsSpace(r[|r| - 1])))
  }

  /** The non-whitespace characters of a text, in order. */
  function Visible(s: string): string
    decreases |s|
  {
    if s == [] then [] else (if IsSpace(s[0]) then [] else [s[0]]) + Visible(s[1..])
  }

  /**
   * `clean_text`: a missing or NaN cell gives ""; otherwise every whitespace run
   * becomes one space and the ends are stripped, so the text keeps exactly its
   * visible characters and no line break, tab or double space survives.
   */
  function CleanText(cell: Option<string>): (r: string)
    ensures cell.None? ==> r == ""
    ensures Canonical(r)
    ensures cell.Some? ==> Visible(r) == Visible(cell.value)
  {
    match cell
    case None => ""
    case Some(t) =>
      var stripped := Strip(CollapseWhitespace(t));
      CollapseShape(t);
      StripShape(CollapseWhitespace(t));
      CanonicalHasNoLineBreaks(stripped);
      SquashSingleSpaced(stripped);
      SquashBlanks(ReplaceLineBreaks(stripped))
  }

  /** Collapsing keeps the visible characters and leaves single spaces only. */
  lemma CollapseShape(s: string)
    ensures SingleSpaced(CollapseWhitespace(s))
    ensures Visible(CollapseWhitespace(s)) == Visible(s)
    ensures CollapseWhitespace(s) != [] ==> s != [] && (IsSpace(CollapseWhitespace(s)[0]) <==> IsSpace(s[0]))
  {
    CollapseSingle(s);
    CollapseVisible(s);
  }

  /** The collapsed text starts with whitespace exactly when the text does. */
  lemma CollapseHead(s: string)
    ensures CollapseWhitespace(s) != [] ==> s != [] && (IsSpace(CollapseWhitespace(s)[0]) <==> IsSpace(s[0]))
  {
  }

  /** One more character in front of a single-spaced text keeps it single-spaced. */
  lemma SingleSpacedCons(c: char, r: string)
    requires SingleSpaced(r)
    requires IsSpace(c) ==> c == ' ' && (r == [] || !IsSpace(r[0]))
    ensures SingleSpaced([c] + r)
  {
    var cr := [c] + r;
    forall k | 0 <= k < |cr| - 1
      ensures !IsSpace(cr[k]) || !IsSpace(cr[k + 1])
    {
      if k > 0 {
        assert cr[k] == r[k - 1] && cr[k + 1] == r[k];
      }
    }
  }

  lemma {:induction false} CollapseSingle(s: string)
    ensures SingleSpaced(CollapseWhitespace(s))
    decreases |s|
  {
    if s != [] {
      if IsSpace(s[0]) {
        var rest := TrimStart(s);
        CollapseSingle(rest);
        CollapseHead(rest);
        SingleSpacedCons(' ', CollapseWhitespace(rest));
      } else {
        CollapseSingle(s[1..]);
        SingleSpacedCons(s[0], CollapseWhitespace(s[1..]));
      }
    }
  }

  lemma {:induction false} CollapseVisible(s: string)
    ensures Visible(CollapseWhitespace(s)) == Visible(s)
    decreases |s|
  {
    if s != [] {
      if IsSpace(s[0]) {
        CollapseVisible(TrimStart(s));
        TrimStartVisible(s);
        assert (" " + CollapseWhitespace(TrimStart(s)))[1..] == CollapseWhitespace(TrimStart(s));
      } else {
        CollapseVisible(s[1..]);
        assert ([s[0]] + CollapseWhitespace(s[1..]))[1..] == CollapseWhitespace(s[1..]);
      }
    }
  }

  lemma {:induction false} TrimStartVisible(s: string)
    ensures Visible(TrimStart(s)) == Visible(s)
    decreases |s|
  {
    if s != [] && IsSpace(s[0]) {
      TrimStartVisible(s[1..]);
    }
  }

  lemma {:induction false} VisibleAppend(a: string, b: string)
    ensures Visible(a + b) == Visible(a) + Visible(b)
    decreases |a|
  {
    if a != [] {
      assert (a + b)[1..] == a[1..] + b;
      VisibleAppend(a[1..], b);
    } else {
      assert a + b == b;
    }
  }

  lemma {:induction false} TrimEndVisible(s: string)
    ensures Visible(TrimEnd(s)) == Visible(s)
    decreases |s|
  {
    if s != [] && IsSpace(s[|s| - 1]) {
      var init := s[..|s| - 1];
      TrimEndVisible(init);
      assert s == init + [s[|s| - 1]];
      VisibleAppend(init, [s[|s| - 1]]);
    }
  }

  /** Stripping a single-spaced text leaves it canonical and visibly the same. */
  lemma StripShape(s: string)
    requires SingleSpaced(s)
    ensures Canonical(Strip(s))
    ensures Visible(Strip(s)) == Visible(s)
  {
    StripCanonical(s);
    TrimStartVisible(s);
    TrimEndVisible(TrimStart(s));
  }

  lemma StripCanonical(s: string)
    requires SingleSpaced(s)
    ensures Canonical(Strip(s))
  {
    FrontStripped(s);
    BackStripped(TrimStart(s));
  }

  /** Without its leading whitespace a single-spaced text stays single-spaced. */
  lemma FrontStripped(s: string)
    requires SingleSpaced(s)
    ensures SingleSpaced(TrimStart(s))
  {
    var front := TrimStart(s);
    SingleSpacedSlice(s, |s| - |front|, |s|);
  }

  /** Without its trailing whitespace a single-spaced text with no leading whitespace is canonical. */
  lemma BackStripped(f: string)
    requires SingleSpaced(f) && (f == [] || !IsSpace(f[0]))
    ensures Canonical(TrimEnd(f))
  {
    var r := TrimEnd(f);
    SingleSpacedSlice(f, 0, |r|);
    assert r == [] || r[0] == f[0];
  }

  /** Any slice of a single-spaced text is single-spaced. */
  lemma SingleSpacedSlice(s: string, i: nat, j: nat)
    requires i <= j <= |s| && SingleSpaced(s)
    ensures SingleSpaced(s[i..j])
  {
    var r := s[i..j];
    assert forall k :: 0 <= k < |r| ==> r[k] == s[i + k];
  }

  /** Replacing a pattern whose first character never occurs changes nothing. */
  lemma {:induction false} ReplaceAbsent(s: string, pat: string, rep: string)
    requires pat != []
    requires forall k :: 0 <= k < |s| ==> s[k] != pat[0]
    ensures Replace(s, pat, rep) == s
    decreases |s|
  {
    if |s| >= |pat| {
      assert s[..|pat|][0] == s[0];
      ReplaceAbsent(s[1..], pat, rep);
    }
  }

  lemma CanonicalHasNoLineBreaks(s: string)
    requires SingleSpaced(s)
    ensures ReplaceLineBreaks(s) == s
  {
    ReplaceAbsent(s, "\r\n", " ");
    ReplaceAbsent(s, "\n", " ");
    ReplaceAbsent(s, "\r", " ");
  }

  /** With no two spaces in a row, squashing spaces changes nothing. */
  lemma {:induction false} SquashSingleSpaced(s: string)
    requires SingleSpaced(s)
    ensures SquashBlanks(s) == s
    decreases |s|
  {
    if s != [] {
      if s[0] == ' ' {
        assert |s| == 1 || s[1] != ' ';
        assert DropBlanks(s) == s[1..] by {
          assert DropBlanks(s[1..]) == s[1..];
        }
      }
      SquashSingleSpaced(s[1..]);
      assert s == [s[0]] + s[1..];
    }
  }

  /** The line-break and double-space replacements after the strip never find anything. */
  lemma LaterStepsChangeNothing(t: string)
    ensures CleanText(Some(t)) == Strip(CollapseWhitespace(t))
  {
    var stripped := Strip(CollapseWhitespace(t));
    CollapseShape(t);
    StripShape(CollapseWhitespace(t));
    CanonicalHasNoLineBreaks(stripped);
    SquashSingleSpaced(stripped);
  }

  /** A single-spaced text has no run of whitespace to collapse. */
  lemma {:induction false} CollapseSingleSpaced(s: string)
    requires SingleSpaced(s)
    ensures CollapseWhitespace(s) == s
    decreases |s|
  {
    if s != [] {
      var tail := s[1..];
      SingleSpacedSlice(s, 1, |s|);
      CollapseSingleSpaced(tail);
      if IsSpace(s[0]) {
        assert tail == [] || !IsSpace(tail[0]) by {
          if tail != [] {
            assert tail[0] == s[1];
          }
        }
        assert TrimStart(s) == tail by {
          assert TrimStart(s) == TrimStart(tail);
        }
        assert CollapseWhitespace(s) == [' '] + tail;
      } else {
        assert CollapseWhitespace(s) == [s[0]] + tail;
      }
      assert s == [s[0]] + tail;
    }
  }

  /** A text has no visible character exactly when it is all whitespace. */
  lemma {:induction false} NothingVisibleIff(s: string)
    ensures Visible(s) == [] <==> forall k :: 0 <= k < |s| ==> IsSpace(s[k])
    decreases |s|
  {
    if s != [] {
      NothingVisibleIff(s[1..]);
      assert forall k :: 1 <= k < |s| ==> s[k] == s[1..][k - 1];
    }
  }

  /** A whitespace-only cell cleans to the empty string, as a missing one does. */
  lemma BlankCellCleansToEmpty(t: string)
    requires forall k :: 0 <= k < |t| ==> IsSpace(t[k])
    ensures CleanText(Some(t)) == ""
  {
    var r := CleanText(Some(t));
    NothingVisibleIff(t);
    NothingVisibleIff(r);
  }

  /** Cleaning a cleaned text gives it back unchanged. */
  lemma CleanTextIdempotent(cell: Option<string>)
    ensures CleanText(Some(CleanText(cell))) == CleanText(cell)
  {
    var c := CleanText(cell);
    LaterStepsChangeNothing(c);
    CollapseSingleSpaced(c);
  }
}
