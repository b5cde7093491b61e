/**
 * Facts for working out what the matcher of module Regex does on a given
 * text: a calculus for the first (preferred) end of a match, and a sound
 * test that shows a pattern cannot match at a position by looking at a few
 * characters only.
 */
module Matching {
  import opened Chars
  import opened Regex

  // ---------------------------------------------------------------------------
  // The preferred end of a match

  /** The match `re` reports for `r` at i ends at e. */
  predicate FirstEnd(r: Re, s: string, i: nat, ignoreCase: bool, e: nat)
    requires i <= |s|
  {
    var ends := Ends(r, s, i, ignoreCase);
    ends != [] && ends[0] == e
  }

  /** The characters s[i..i+m] all belong to class k. */
  predicate RunOf(k: CharClass, s: string, i: nat, m: nat, ignoreCase: bool) {
    i + m <= |s| && forall t :: i <= t < i + m ==> ClassMatches(k, s[t], ignoreCase)
  }

  /** No character of class k at position j. */
  predicate StopsAt(k: CharClass, s: string, j: nat, ignoreCase: bool) {
    j >= |s| || !ClassMatches(k, s[j], ignoreCase)
  }

  /** The ends of `a` followed by `b`, when the ends of `a` are known to be only j. */
  lemma CatAfterOne(a: Re, b: Re, s: string, i: nat, j: nat, ignoreCase: bool)
    requires i <= |s| && j <= |s|
    requires Ends(a, s, i, ignoreCase) == [j]
    ensures Ends(Cat(a, b), s, i, ignoreCase) == Ends(b, s, j, ignoreCase)
  {
    assert CatEnds(b, s, [j], ignoreCase) == Ends(b, s, j, ignoreCase) + CatEnds(b, s, [], ignoreCase);
  }

  lemma CatFirst(a: Re, b: Re, s: string, i: nat, j: nat, e: nat, ignoreCase: bool)
    requires i <= |s| && j <= |s|
    requires FirstEnd(a, s, i, ignoreCase, j) && FirstEnd(b, s, j, ignoreCase, e)
    ensures FirstEnd(Cat(a, b), s, i, ignoreCase, e)
  {
    var ends := Ends(a, s, i, ignoreCase);
    assert CatEnds(b, s, ends, ignoreCase) == Ends(b, s, j, ignoreCase) + CatEnds(b, s, ends[1..], ignoreCase);
  }

  lemma {:induction false} CatEndsNone(b: Re, s: string, starts: seq<nat>, ignoreCase: bool)
    requires forall k :: 0 <= k < |starts| && starts[k] <= |s| ==> Ends(b, s, starts[k], ignoreCase) == []
    ensures CatEnds(b, s, starts, ignoreCase) == []
    decreases |starts|
  {
    if starts != [] {
      CatEndsNone(b, s, starts[1..], ignoreCase);
    }
  }

  /** `a` then `b` fails when `b` fails from every end of `a`. */
  lemma CatNone(a: Re, b: Re, s: string, i: nat, ignoreCase: bool)
    requires i <= |s|
    requires forall k :: 0 <= k < |Ends(a, s, i, ignoreCase)| && Ends(a, s, i, ignoreCase)[k] <= |s| ==>
      Ends(b, s, Ends(a, s, i, ignoreCase)[k], ignoreCase) == []
    ensures Ends(Cat(a, b), s, i, ignoreCase) == []
  {
    CatEndsNone(b, s, Ends(a, s, i, ignoreCase), ignoreCase);
  }

  /** `a` followed by `b` fails when `a` can end only at j1 or j2 and `b` fails from both. */
  lemma CatNoneOfTwo(a: Re, b: Re, s: string, i: nat, j1: nat, j2: nat, ignoreCase: bool)
    requires i <= |s| && j1 <= |s| && j2 <= |s| && Ends(a, s, i, ignoreCase) == [j1, j2]
    requires Ends(b, s, j1, ignoreCase) == [] && Ends(b, s, j2, ignoreCase) == []
    ensures Ends(Cat(a, b), s, i, ignoreCase) == []
  {
    CatEndsNone(b, s, [j1, j2], ignoreCase);
  }

  /** `\b a rest` fails at i when `a` fails there. */
  lemma BoundedFailsAtHead(a: Re, rest: Re, s: string, i: nat, ignoreCase: bool)
    requires i <= |s| && Ends(a, s, i, ignoreCase) == []
    ensures Ends(Cat(WordBoundary, Cat(a, rest)), s, i, ignoreCase) == []
  {
    CatNone(a, rest, s, i, ignoreCase);
    if AtBoundary(s, i) {
      CatAfterOne(WordBoundary, Cat(a, rest), s, i, i, ignoreCase);
    }
  }

  /** `\b a b \b` matches from i to e when a takes i to j, b takes j to e, and both ends are boundaries. */
  lemma BoundedPairFirst(a: Re, b: Re, s: string, i: nat, j: nat, e: nat, ignoreCase: bool)
    requires i <= j <= e <= |s| && AtBoundary(s, i) && AtBoundary(s, e)
    requires FirstEnd(a, s, i, ignoreCase, j) && FirstEnd(b, s, j, ignoreCase, e)
    ensures FirstEnd(Cat(WordBoundary, Cat(a, Cat(b, WordBoundary))), s, i, ignoreCase, e)
  {
    CatFirst(b, WordBoundary, s, j, e, e, ignoreCase);
    CatFirst(a, Cat(b, WordBoundary), s, i, j, e, ignoreCase);
    CatAfterOne(WordBoundary, Cat(a, Cat(b, WordBoundary)), s, i, i, ignoreCase);
  }

  /** A pattern `\b a rest` leaves a text alone when `a` can start nowhere in it. */
  lemma HeadNowhere(rule: Rule, s: string)
    requires rule.pattern.Cat? && rule.pattern.a == WordBoundary && rule.pattern.b.Cat?
    requires forall k :: 0 <= k <= |s| ==> Ends(rule.pattern.b.a, s, k, rule.ignoreCase) == []
    ensures Apply(rule, s) == s
  {
    forall k | 0 <= k < |s|
      ensures !MatchesAt(rule.pattern, rule.ignoreCase, s, k)
    {
      BoundedFailsAtHead(rule.pattern.b.a, rule.pattern.b.b, s, k, rule.ignoreCase);
    }
    SubWithoutMatch(rule.pattern, rule.ignoreCase, rule.replacement, s, 0);
  }

  /** No word of a list starts at i when none of their first letters is there. */
  lemma {:induction false} LitsFail(ws: seq<string>, s: string, i: nat, ignoreCase: bool)
    requires i <= |s|
    requires forall j :: 0 <= j < |ws| ==> ws[j] != [] && (i == |s| || !ClassMatches(Is(ws[j][0]), s[i], ignoreCase))
    ensures LitsEnds(ws, s, i, ignoreCase) == []
    decreases |ws|
  {
    if ws != [] {
      assert !Spells(ws[0], s, i, ignoreCase) by {
        if i < |s| {
          assert 0 < |ws[0]|;
        }
      }
      LitsFail(ws[1..], s, i, ignoreCase);
    }
  }

  /** No character of the text matches c. */
  predicate Absent(c: char, s: string, ignoreCase: bool) {
    forall k :: 0 <= k < |s| ==> !ClassMatches(Is(c), s[k], ignoreCase)
  }

  /** A word whose first letter is absent from the text matches nowhere in it. */
  lemma LitNowhere(w: string, s: string, ignoreCase: bool)
    requires w != [] && Absent(w[0], s, ignoreCase)
    ensures forall k :: 0 <= k <= |s| ==> Ends(Lit(w), s, k, ignoreCase) == []
  {
  }

  /** Word alternatives whose first letters are all absent from the text match nowhere in it. */
  lemma AnyLitNowhere(ws: seq<string>, s: string, ignoreCase: bool)
    requires ws != [] && forall j :: 0 <= j < |ws| ==> ws[j] != [] && Absent(ws[j][0], s, ignoreCase)
    ensures forall k :: 0 <= k <= |s| ==> Ends(AnyLit(ws), s, k, ignoreCase) == []
  {
    forall k | 0 <= k <= |s|
      ensures Ends(AnyLit(ws), s, k, ignoreCase) == []
    {
      LitsFail(ws, s, k, ignoreCase);
    }
  }

  /** A literal word matches exactly where the text spells it. */
  lemma LitEnds(w: string, s: string, i: nat, ignoreCase: bool)
    requires i + |w| <= |s|
    requires forall t :: 0 <= t < |w| ==> ClassMatches(Is(w[t]), s[i + t], ignoreCase)
    ensures Ends(Lit(w), s, i, ignoreCase) == [i + |w|]
  {
  }

  /** The words before the j-th do not start at i and the j-th does: the alternatives end after it first. */
  lemma {:induction false} LitsFirst(ws: seq<string>, j: nat, s: string, i: nat, ignoreCase: bool)
    requires j < |ws| && Spells(ws[j], s, i, ignoreCase)
    requires forall u :: 0 <= u < j ==> !Spells(ws[u], s, i, ignoreCase)
    ensures LitsEnds(ws, s, i, ignoreCase) != [] && LitsEnds(ws, s, i, ignoreCase)[0] == i + |ws[j]|
    decreases j
  {
    if j > 0 {
      LitsFirst(ws[1..], j - 1, s, i, ignoreCase);
    }
  }

  lemma AnyLitFirst(ws: seq<string>, j: nat, s: string, i: nat, ignoreCase: bool)
    requires i <= |s| && j < |ws| && Spells(ws[j], s, i, ignoreCase)
    requires forall u :: 0 <= u < j ==> !Spells(ws[u], s, i, ignoreCase)
    ensures FirstEnd(AnyLit(ws), s, i, ignoreCase, i + |ws[j]|)
  {
    LitsFirst(ws, j, s, i, ignoreCase);
  }

  /** `k{n}` over a run of at least n characters of k. */
  lemma {:induction false} TimesEnds(k: CharClass, n: nat, s: string, i: nat, ignoreCase: bool)
    requires RunOf(k, s, i, n, ignoreCase)
    ensures Ends(Times(One(k), n), s, i, ignoreCase) == [i + n]
    decreases n
  {
    if n > 0 {
      TimesEnds(k, n - 1, s, i + 1, ignoreCase);
      CatAfterOne(One(k), Times(One(k), n - 1), s, i, i + 1, ignoreCase);
    }
  }

  /** `k{n}` fails on a run of fewer than n characters of k. */
  lemma {:induction false} TimesShort(k: CharClass, n: nat, s: string, i: nat, m: nat, ignoreCase: bool)
    requires m < n && RunOf(k, s, i, m, ignoreCase) && StopsAt(k, s, i + m, ignoreCase)
    ensures Ends(Times(One(k), n), s, i, ignoreCase) == []
    decreases n
  {
    if m > 0 {
      TimesShort(k, n - 1, s, i + 1, m - 1, ignoreCase);
      CatAfterOne(One(k), Times(One(k), n - 1), s, i, i + 1, ignoreCase);
    }
  }

  /** Greedy `k{0,n}` first takes the whole run, up to n characters. */
  lemma {:induction false} UpToFirst(k: CharClass, n: nat, s: string, i: nat, m: nat, ignoreCase: bool)
    requires m <= n && RunOf(k, s, i, m, ignoreCase) && (m == n || StopsAt(k, s, i + m, ignoreCase))
    ensures FirstEnd(UpTo(One(k), n), s, i, ignoreCase, i + m)
    decreases n
  {
    if n > 0 {
      if m > 0 {
        UpToFirst(k, n - 1, s, i + 1, m - 1, ignoreCase);
        CatAfterOne(One(k), UpTo(One(k), n - 1), s, i, i + 1, ignoreCase);
      } else {
        CatNone(One(k), UpTo(One(k), n - 1), s, i, ignoreCase);
      }
    }
  }

  /** Greedy `k{lo,hi}` first takes the whole run, up to hi characters. */
  lemma BetweenFirst(k: CharClass, lo: nat, hi: nat, s: string, i: nat, m: nat, ignoreCase: bool)
    requires lo <= m <= hi && RunOf(k, s, i, m, ignoreCase) && (m == hi || StopsAt(k, s, i + m, ignoreCase))
    ensures FirstEnd(Between(One(k), lo, hi), s, i, ignoreCase, i + m)
  {
    TimesEnds(k, lo, s, i, ignoreCase);
    UpToFirst(k, hi - lo, s, i + lo, m - lo, ignoreCase);
    CatAfterOne(Times(One(k), lo), UpTo(One(k), hi - lo), s, i, i + lo, ignoreCase);
  }

  /** One character of k at i: greedy `k*` first goes on from i + 1, and last stops at i. */
  lemma StarStep(k: CharClass, s: string, i: nat, ignoreCase: bool)
    requires i < |s| && ClassMatches(k, s[i], ignoreCase)
    ensures Ends(Star(One(k)), s, i, ignoreCase) == Ends(Star(One(k)), s, i + 1, ignoreCase) + [i]
  {
    assert StarEnds(One(k), s, i, [i + 1], ignoreCase)
      == Ends(Star(One(k)), s, i + 1, ignoreCase) + StarEnds(One(k), s, i, [], ignoreCase);
  }

  /** Greedy `k*` first takes the whole run. */
  lemma {:induction false} StarFirst(k: CharClass, s: string, i: nat, m: nat, ignoreCase: bool)
    requires RunOf(k, s, i, m, ignoreCase) && StopsAt(k, s, i + m, ignoreCase)
    ensures FirstEnd(Star(One(k)), s, i, ignoreCase, i + m)
    decreases m
  {
    if m > 0 {
      StarFirst(k, s, i + 1, m - 1, ignoreCase);
      StarStep(k, s, i, ignoreCase);
    }
  }

  /** Greedy `k{lo,}` first takes the whole run. */
  lemma AtLeastFirst(k: CharClass, lo: nat, s: string, i: nat, m: nat, ignoreCase: bool)
    requires lo <= m && RunOf(k, s, i, m, ignoreCase) && StopsAt(k, s, i + m, ignoreCase)
    ensures FirstEnd(AtLeast(One(k), lo), s, i, ignoreCase, i + m)
  {
    TimesEnds(k, lo, s, i, ignoreCase);
    StarFirst(k, s, i + lo, m - lo, ignoreCase);
    CatAfterOne(Times(One(k), lo), Star(One(k)), s, i, i + lo, ignoreCase);
  }

  /** Greedy `k+` first takes the whole run. */
  lemma PlusFirst(k: CharClass, s: string, i: nat, m: nat, ignoreCase: bool)
    requires 1 <= m && RunOf(k, s, i, m, ignoreCase) && StopsAt(k, s, i + m, ignoreCase)
    ensures FirstEnd(Plus(One(k)), s, i, ignoreCase, i + m)
  {
    StarFirst(k, s, i + 1, m - 1, ignoreCase);
    CatAfterOne(One(k), Star(One(k)), s, i, i + 1, ignoreCase);
  }

  /** hi, hi - 1, ..., lo: the ends a greedy loop over a run offers, longest first. */
  function Desc(hi: nat, lo: nat): (d: seq<nat>)
    requires lo <= hi
    ensures |d| == hi - lo + 1 && d[0] == hi
    decreases hi - lo
  {
    if hi == lo then [lo] else [hi] + Desc(hi - 1, lo)
  }

  lemma {:induction false} DescSnoc(hi: nat, lo: nat)
    requires lo < hi
    ensures Desc(hi, lo + 1) + [lo] == Desc(hi, lo)
    decreases hi - lo
  {
    if hi > lo + 1 {
      DescSnoc(hi - 1, lo);
    }
  }

  /** Every end greedy `k{0,n}` offers over a run of m characters of k. */
  lemma {:induction false} UpToEnds(k: CharClass, n: nat, s: string, i: nat, m: nat, ignoreCase: bool)
    requires m <= n && RunOf(k, s, i, m, ignoreCase) && (m == n || StopsAt(k, s, i + m, ignoreCase))
    ensures Ends(UpTo(One(k), n), s, i, ignoreCase) == Desc(i + m, i)
    decreases n
  {
    if n > 0 {
      if m > 0 {
        UpToEnds(k, n - 1, s, i + 1, m - 1, ignoreCase);
        CatAfterOne(One(k), UpTo(One(k), n - 1), s, i, i + 1, ignoreCase);
        DescSnoc(i + m, i);
      } else {
        CatNone(One(k), UpTo(One(k), n - 1), s, i, ignoreCase);
      }
    }
  }

  /** Every end greedy `k{lo,hi}` offers over a run of m characters of k. */
  lemma BetweenEnds(k: CharClass, lo: nat, hi: nat, s: string, i: nat, m: nat, ignoreCase: bool)
    requires lo <= m <= hi && RunOf(k, s, i, m, ignoreCase) && (m == hi || StopsAt(k, s, i + m, ignoreCase))
    ensures Ends(Between(One(k), lo, hi), s, i, ignoreCase) == Desc(i + m, i + lo)
  {
    TimesEnds(k, lo, s, i, ignoreCase);
    UpToEnds(k, hi - lo, s, i + lo, m - lo, ignoreCase);
    CatAfterOne(Times(One(k), lo), UpTo(One(k), hi - lo), s, i, i + lo, ignoreCase);
  }

  /** Every end greedy `k*` offers over a run of m characters of k. */
  lemma {:induction false} StarRunEnds(k: CharClass, s: string, i: nat, m: nat, ignoreCase: bool)
    requires RunOf(k, s, i, m, ignoreCase) && StopsAt(k, s, i + m, ignoreCase)
    ensures Ends(Star(One(k)), s, i, ignoreCase) == Desc(i + m, i)
    decreases m
  {
    if m > 0 {
      StarRunEnds(k, s, i + 1, m - 1, ignoreCase);
      StarStep(k, s, i, ignoreCase);
      DescSnoc(i + m, i);
    }
  }

  /** Every end greedy `k+` offers over a run of m characters of k. */
  lemma PlusEnds(k: CharClass, s: string, i: nat, m: nat, ignoreCase: bool)
    requires 1 <= m && RunOf(k, s, i, m, ignoreCase) && StopsAt(k, s, i + m, ignoreCase)
    ensures Ends(Plus(One(k)), s, i, ignoreCase) == Desc(i + m, i + 1)
  {
    StarRunEnds(k, s, i + 1, m - 1, ignoreCase);
    CatAfterOne(One(k), Star(One(k)), s, i, i + 1, ignoreCase);
  }

  /** A literal word fails where the text departs from it, at character t of the word. */
  lemma LitFails(w: string, s: string, i: nat, t: nat, ignoreCase: bool)
    requires t < |w| && i <= |s|
    requires i + t >= |s| || !ClassMatches(Is(w[t]), s[i + t], ignoreCase)
    ensures Ends(Lit(w), s, i, ignoreCase) == []
  {
  }

  /** Substitution from k, when the preferred match at k runs to the end of the text. */
  lemma SubToEnd(r: Re, ignoreCase: bool, repl: string, s: string, k: nat)
    requires k < |s| && FirstEnd(r, s, k, ignoreCase, |s|)
    ensures Sub(r, ignoreCase, repl, s, k) == repl
  {
  }

  /** Substitution copies a prefix the gate shuts, then replaces a match that runs to the end. */
  lemma ShutThenToEnd(r: Re, g: Gate, ignoreCase: bool, repl: string, s: string, k: nat)
    requires k < |s| && Covers(g, r) && ShutSpan(g, ignoreCase, s, 0, k) && FirstEnd(r, s, k, ignoreCase, |s|)
    ensures Sub(r, ignoreCase, repl, s, 0) == s[..k] + repl
  {
    ShutSpanSub(r, g, ignoreCase, repl, s, 0, k);
    SubToEnd(r, ignoreCase, repl, s, k);
  }

  // ---------------------------------------------------------------------------
  // Showing that a pattern cannot match at a position

  /** A pattern that, wherever it matches, matches one fixed number of characters. */
  predicate Rigid(r: Re) {
    match r
    case One(_) => true
    case Lit(_) => true
    case AnyLit(_) => false
    case Empty => true
    case WordBoundary => true
    case Ahead(_) => true
    case Cat(a, b) => Rigid(a) && Rigid(b)
    case Alt(_, _) => false
    case Star(_) => false
  }

  /** Pointwise alternatives of two class sequences, as long as the shorter. */
  function Zip(h1: seq<CharClass>, h2: seq<CharClass>): (z: seq<CharClass>)
    ensures |z| == (if |h1| <= |h2| then |h1| else |h2|)
    ensures forall t :: 0 <= t < |z| ==> z[t] == Either(h1[t], h2[t])
  {
    if h1 == [] || h2 == [] then [] else [Either(h1[0], h2[0])] + Zip(h1[1..], h2[1..])
  }

  /** Classes that the first characters of every match of `r` belong to, in order. */
  function Heads(r: Re): seq<CharClass> {
    match r
    case One(k) => [k]
    case Lit(w) => Letters(w)
    case AnyLit(ws) => LitsHeads(ws)
    case Cat(a, b) => if Rigid(a) then Heads(a) + Heads(b) else Heads(a)
    case Alt(a, b) => Zip(Heads(a), Heads(b))
    case Empty => []
    case WordBoundary => []
    case Ahead(_) => []
    case Star(_) => []
  }

  /** The characters of a word, each as a class of its own. */
  function Letters(w: string): (h: seq<CharClass>)
    ensures |h| == |w| && forall t :: 0 <= t < |w| ==> h[t] == Is(w[t])
  {
    seq(|w|, t requires 0 <= t < |w| => Is(w[t]))
  }

  /** Classes that the first characters of every match of some word of `ws` belong to. */
  function LitsHeads(ws: seq<string>): seq<CharClass>
    decreases |ws|
  {
    if ws == [] then [] else if |ws| == 1 then Letters(ws[0]) else Zip(Letters(ws[0]), LitsHeads(ws[1..]))
  }

  /** The first letter of a word as a class; the empty word gives a class nothing belongs to. */
  function Initial(w: string): CharClass {
    if w == [] then Among("") else Is(w[0])
  }

  /** The first letters of the words, as one class. */
  function Initials(ws: seq<string>): CharClass {
    InitialsFrom(ws, 0)
  }

  /** The first letters of the words from position k on. */
  function InitialsFrom(ws: seq<string>, k: nat): CharClass
    decreases |ws| - k
  {
    if k + 1 >= |ws| then (if k < |ws| then Initial(ws[k]) else Among(""))
    else Either(Initial(ws[k]), InitialsFrom(ws, k + 1))
  }

  /** Every match of literal alternatives starts with the first letter of one of the words. */
  lemma AnyLitHeads(ws: seq<string>)
    requires ws != [] && forall j :: 0 <= j < |ws| ==> ws[j] != []
    ensures Heads(AnyLit(ws)) != [] && Heads(AnyLit(ws))[0] == Initials(ws)
  {
    LitsHeadsFrom(ws, 0);
    assert ws[0..] == ws;
  }

  lemma {:induction false} LitsHeadsFrom(ws: seq<string>, k: nat)
    requires k < |ws| && forall j :: 0 <= j < |ws| ==> ws[j] != []
    ensures LitsHeads(ws[k..]) != [] && LitsHeads(ws[k..])[0] == InitialsFrom(ws, k)
    decreases |ws| - k
  {
    assert ws[k..][0] == ws[k];
    if k + 1 < |ws| {
      LitsHeadsFrom(ws, k + 1);
      assert ws[k..][1..] == ws[k + 1..];
    }
  }

  /** A word of `ws` spelt at i fits the heads of the alternatives. */
  lemma {:induction false} LitsFit(ws: seq<string>, s: string, i: nat, ignoreCase: bool)
    requires LitsEnds(ws, s, i, ignoreCase) != []
    ensures Fits(LitsHeads(ws), s, i, ignoreCase)
    decreases |ws|
  {
    var rest := ws[1..];
    if |ws| > 1 {
      var h := LitsHeads(ws);
      if Spells(ws[0], s, i, ignoreCase) {
        forall t | 0 <= t < |h|
          ensures ClassMatches(h[t], s[i + t], ignoreCase)
        {
          EitherMatches(Letters(ws[0])[t], LitsHeads(rest)[t], s[i + t], ignoreCase);
        }
      } else {
        LitsFit(rest, s, i, ignoreCase);
        forall t | 0 <= t < |h|
          ensures ClassMatches(h[t], s[i + t], ignoreCase)
        {
          EitherMatches(Letters(ws[0])[t], LitsHeads(rest)[t], s[i + t], ignoreCase);
        }
      }
    }
  }

  /** Classes of which every match of `r` consumes at least one character. */
  function Mandatory(r: Re): seq<CharClass> {
    match r
    case One(k) => [k]
    case Lit(w) => Letters(w)
    case AnyLit(_) => []
    case Cat(a, b) => Mandatory(a) + Mandatory(b)
    case Empty => []
    case WordBoundary => []
    case Ahead(_) => []
    case Alt(_, _) => []
    case Star(_) => []
  }

  /** `r` starts with `\b`. */
  predicate LeadsWithBoundary(r: Re) {
    r.WordBoundary? || (r.Cat? && LeadsWithBoundary(r.a))
  }

  /** The text from i on starts with one character of each class of h, in order. */
  predicate Fits(h: seq<CharClass>, s: string, i: nat, ignoreCase: bool) {
    i + |h| <= |s| && forall t :: 0 <= t < |h| ==> ClassMatches(h[t], s[i + t], ignoreCase)
  }

  /** `Fits`, written so that it can be worked out on a given text. */
  predicate FitsFrom(h: seq<CharClass>, s: string, i: nat, ignoreCase: bool, t: nat)
    decreases |h| - t
  {
    t >= |h| || (i + t < |s| && ClassMatches(h[t], s[i + t], ignoreCase) && FitsFrom(h, s, i, ignoreCase, t + 1))
  }

  /** Some character of class k at position i or later. */
  predicate PresentFrom(k: CharClass, s: string, i: nat, ignoreCase: bool)
    decreases |s| - i
  {
    i < |s| && (ClassMatches(k, s[i], ignoreCase) || PresentFrom(k, s, i + 1, ignoreCase))
  }

  predicate AllPresent(ks: seq<CharClass>, s: string, i: nat, ignoreCase: bool) {
    forall m :: 0 <= m < |ks| ==> PresentFrom(ks[m], s, i, ignoreCase)
  }

  /** `AllPresent`, written so that it can be worked out on a given text. */
  predicate AllPresentFrom(ks: seq<CharClass>, s: string, i: nat, ignoreCase: bool, m: nat)
    decreases |ks| - m
  {
    m >= |ks| || (PresentFrom(ks[m], s, i, ignoreCase) && AllPresentFrom(ks, s, i, ignoreCase, m + 1))
  }

  lemma {:induction false} FitsFromIff(h: seq<CharClass>, s: string, i: nat, ignoreCase: bool, t: nat)
    ensures FitsFrom(h, s, i, ignoreCase, t) <==>
      (t < |h| ==> i + |h| <= |s| && forall u :: t <= u < |h| ==> ClassMatches(h[u], s[i + u], ignoreCase))
    decreases |h| - t
  {
    if t < |h| {
      FitsFromIff(h, s, i, ignoreCase, t + 1);
    }
  }

  lemma FitsIff(h: seq<CharClass>, s: string, i: nat, ignoreCase: bool)
    requires i <= |s|
    ensures FitsFrom(h, s, i, ignoreCase, 0) <==> Fits(h, s, i, ignoreCase)
  {
    FitsFromIff(h, s, i, ignoreCase, 0);
  }

  lemma {:induction false} AllPresentFromIff(ks: seq<CharClass>, s: string, i: nat, ignoreCase: bool, m: nat)
    ensures AllPresentFrom(ks, s, i, ignoreCase, m) <==>
      forall n :: m <= n < |ks| ==> PresentFrom(ks[n], s, i, ignoreCase)
    decreases |ks| - m
  {
    if m < |ks| {
      AllPresentFromIff(ks, s, i, ignoreCase, m + 1);
    }
  }

  lemma {:induction false} PresentLater(k: CharClass, s: string, i: nat, j: nat, ignoreCase: bool)
    requires i <= j && PresentFrom(k, s, j, ignoreCase)
    ensures PresentFrom(k, s, i, ignoreCase)
    decreases j - i
  {
    if i < j {
      PresentLater(k, s, i + 1, j, ignoreCase);
    }
  }

  lemma EitherMatches(a: CharClass, b: CharClass, c: char, ignoreCase: bool)
    ensures ClassMatches(Either(a, b), c, ignoreCase) <==> ClassMatches(a, c, ignoreCase) || ClassMatches(b, c, ignoreCase)
  {
  }

  /** A rigid pattern has at most one end, |Heads(r)| characters on. */
  lemma {:induction false} RigidEnds(r: Re, s: string, i: nat, ignoreCase: bool)
    requires i <= |s| && Rigid(r)
    ensures Ends(r, s, i, ignoreCase) == [] || Ends(r, s, i, ignoreCase) == [i + |Heads(r)|]
  {
    match r
    case One(_) =>
    case Lit(_) =>
    case Empty =>
    case WordBoundary =>
    case Ahead(_) =>
    case Cat(a, b) =>
      RigidEnds(a, s, i, ignoreCase);
      if Ends(a, s, i, ignoreCase) != [] {
        var j := i + |Heads(a)|;
        EndsWithin(a, s, i, ignoreCase);
        assert Ends(a, s, i, ignoreCase)[0] == j;
        RigidEnds(b, s, j, ignoreCase);
        CatAfterOne(a, b, s, i, j, ignoreCase);
      }
  }

  /** Some start from which `b` has a match, when `b` tried from the starts has one. */
  lemma {:induction false} CatEndsWitness(b: Re, s: string, starts: seq<nat>, ignoreCase: bool) returns (k: nat)
    requires CatEnds(b, s, starts, ignoreCase) != []
    ensures k < |starts| && starts[k] <= |s| && Ends(b, s, starts[k], ignoreCase) != []
    decreases |starts|
  {
    if starts[0] <= |s| && Ends(b, s, starts[0], ignoreCase) != [] {
      k := 0;
    } else {
      var k' := CatEndsWitness(b, s, starts[1..], ignoreCase);
      k := k' + 1;
    }
  }

  /** Each letter of a word spelt from i occurs from i on. */
  lemma LitPresent(w: string, s: string, i: nat, ignoreCase: bool)
    requires Spells(w, s, i, ignoreCase)
    ensures AllPresent(Letters(w), s, i, ignoreCase)
  {
    forall m | 0 <= m < |w|
      ensures PresentFrom(Is(w[m]), s, i, ignoreCase)
    {
      assert PresentFrom(Is(w[m]), s, i + m, ignoreCase);
      PresentLater(Is(w[m]), s, i, i + m, ignoreCase);
    }
  }

  /** Every match fits the head classes, contains each mandatory class and respects a leading `\b`. */
  lemma {:induction false} Necessary(r: Re, s: string, i: nat, ignoreCase: bool)
    requires i <= |s| && Ends(r, s, i, ignoreCase) != []
    ensures Fits(Heads(r), s, i, ignoreCase)
    ensures AllPresent(Mandatory(r), s, i, ignoreCase)
    ensures LeadsWithBoundary(r) ==> AtBoundary(s, i)
  {
    match r
    case One(_) =>
    case Lit(w) =>
      LitPresent(w, s, i, ignoreCase);
    case AnyLit(ws) =>
      LitsFit(ws, s, i, ignoreCase);
    case Empty =>
    case WordBoundary =>
    case Ahead(_) =>
    case Star(_) =>
    case Alt(a, b) =>
      if Ends(a, s, i, ignoreCase) != [] {
        Necessary(a, s, i, ignoreCase);
      } else {
        Necessary(b, s, i, ignoreCase);
      }
      AltFits(a, b, s, i, ignoreCase);
    case Cat(a, b) =>
      var ends := Ends(a, s, i, ignoreCase);
      var k := CatEndsWitness(b, s, ends, ignoreCase);
      Necessary(a, s, i, ignoreCase);
      EndsWithin(a, s, i, ignoreCase);
      var j := ends[k];
      Necessary(b, s, j, ignoreCase);
      if Rigid(a) {
        RigidEnds(a, s, i, ignoreCase);
      }
      CatNecessary(a, b, s, i, j, ignoreCase);
  }

  /** A match of either alternative fits the heads they share. */
  lemma AltFits(a: Re, b: Re, s: string, i: nat, ignoreCase: bool)
    requires Fits(Heads(a), s, i, ignoreCase) || Fits(Heads(b), s, i, ignoreCase)
    ensures Fits(Heads(Alt(a, b)), s, i, ignoreCase)
  {
    var h := Heads(Alt(a, b));
    forall t | 0 <= t < |h|
      ensures i + t < |s| && ClassMatches(h[t], s[i + t], ignoreCase)
    {
      EitherMatches(Heads(a)[t], Heads(b)[t], s[i + t], ignoreCase);
    }
  }

  /** What a match of `a` from i and a match of `b` from j give a match of `a` then `b`. */
  lemma CatNecessary(a: Re, b: Re, s: string, i: nat, j: nat, ignoreCase: bool)
    requires i <= j <= |s|
    requires Fits(Heads(a), s, i, ignoreCase) && AllPresent(Mandatory(a), s, i, ignoreCase)
    requires LeadsWithBoundary(a) ==> AtBoundary(s, i)
    requires Fits(Heads(b), s, j, ignoreCase) && AllPresent(Mandatory(b), s, j, ignoreCase)
    requires Rigid(a) ==> j == i + |Heads(a)|
    ensures Fits(Heads(Cat(a, b)), s, i, ignoreCase)
    ensures AllPresent(Mandatory(Cat(a, b)), s, i, ignoreCase)
    ensures LeadsWithBoundary(Cat(a, b)) ==> AtBoundary(s, i)
  {
    AllPresentAppend(Mandatory(a), Mandatory(b), s, i, j, ignoreCase);
    if Rigid(a) {
      FitsAppend(Heads(a), Heads(b), s, i, ignoreCase);
    }
  }

  lemma FitsAppend(ha: seq<CharClass>, hb: seq<CharClass>, s: string, i: nat, ignoreCase: bool)
    requires Fits(ha, s, i, ignoreCase) && Fits(hb, s, i + |ha|, ignoreCase)
    ensures Fits(ha + hb, s, i, ignoreCase)
  {
    var h := ha + hb;
    forall t | 0 <= t < |h|
      ensures ClassMatches(h[t], s[i + t], ignoreCase)
    {
      if t >= |ha| {
        assert h[t] == hb[t - |ha|] && i + t == (i + |ha|) + (t - |ha|);
      }
    }
  }

  lemma AllPresentAppend(ka: seq<CharClass>, kb: seq<CharClass>, s: string, i: nat, j: nat, ignoreCase: bool)
    requires i <= j && AllPresent(ka, s, i, ignoreCase) && AllPresent(kb, s, j, ignoreCase)
    ensures AllPresent(ka + kb, s, i, ignoreCase)
  {
    var ks := ka + kb;
    forall m | 0 <= m < |ks|
      ensures PresentFrom(ks[m], s, i, ignoreCase)
    {
      if m >= |ka| {
        assert ks[m] == kb[m - |ka|];
        PresentLater(kb[m - |ka|], s, i, j, ignoreCase);
      }
    }
  }

  /**
   * What every match must satisfy, in a form cheap to check on a text: at
   * least minLen characters left, the next characters in the head classes,
   * a `\b` first when boundary holds, and a character of each mandatory
   * class somewhere further on.
   */
  datatype Gate = Gate(minLen: nat, heads: seq<CharClass>, boundary: bool, mandatory: seq<CharClass>)

  /** The gate asks no more of a text than the pattern does. */
  predicate Covers(g: Gate, r: Re) {
    && (g.minLen == 0 || g.minLen <= MinLen(r))
    && (g.heads == [] || g.heads <= Heads(r))
    && (g.boundary ==> LeadsWithBoundary(r))
    && (g.mandatory == [] || forall m :: 0 <= m < |g.mandatory| ==> g.mandatory[m] in Mandatory(r))
  }

  /** The gate rules out a match at k. */
  predicate Shut(g: Gate, ignoreCase: bool, s: string, k: nat)
    requires k <= |s|
  {
    || |s| < k + g.minLen
    || !FitsFrom(g.heads, s, k, ignoreCase, 0)
    || (g.boundary && !AtBoundary(s, k))
    || !AllPresentFrom(g.mandatory, s, k, ignoreCase, 0)
  }

  /** The gate rules out a match at every position from k up to m. */
  predicate ShutSpan(g: Gate, ignoreCase: bool, s: string, k: nat, m: nat)
    requires k <= m <= |s|
    decreases m - k
  {
    k == m || (Shut(g, ignoreCase, s, k) && ShutSpan(g, ignoreCase, s, k + 1, m))
  }

  lemma MatchOpensGate(r: Re, g: Gate, ignoreCase: bool, s: string, k: nat)
    requires k <= |s| && Covers(g, r) && Ends(r, s, k, ignoreCase) != []
    ensures !Shut(g, ignoreCase, s, k)
  {
    EndsWithin(r, s, k, ignoreCase);
    assert k + MinLen(r) <= Ends(r, s, k, ignoreCase)[0];
    Necessary(r, s, k, ignoreCase);
    FitsIff(Heads(r), s, k, ignoreCase);
    FitsIff(g.heads, s, k, ignoreCase);
    assert Fits(g.heads, s, k, ignoreCase) by {
      forall t | 0 <= t < |g.heads|
        ensures ClassMatches(g.heads[t], s[k + t], ignoreCase)
      {
        assert g.heads[t] == Heads(r)[t];
      }
    }
    AllPresentFromIff(g.mandatory, s, k, ignoreCase, 0);
    forall m | 0 <= m < |g.mandatory|
      ensures PresentFrom(g.mandatory[m], s, k, ignoreCase)
    {
      var n :| 0 <= n < |Mandatory(r)| && Mandatory(r)[n] == g.mandatory[m];
    }
  }

  lemma ShutHasNoMatch(r: Re, g: Gate, ignoreCase: bool, s: string, k: nat)
    requires k <= |s| && Covers(g, r) && Shut(g, ignoreCase, s, k)
    ensures Ends(r, s, k, ignoreCase) == [] && !MatchesAt(r, ignoreCase, s, k)
  {
    if Ends(r, s, k, ignoreCase) != [] {
      MatchOpensGate(r, g, ignoreCase, s, k);
    }
  }

  /** No match at k: substitution copies the character at k and goes on from k + 1. */
  lemma SubSkips(r: Re, ignoreCase: bool, repl: string, s: string, k: nat)
    requires k < |s| && !MatchesAt(r, ignoreCase, s, k)
    ensures Sub(r, ignoreCase, repl, s, k) == [s[k]] + Sub(r, ignoreCase, repl, s, k + 1)
  {
  }

  /** Where the gate is shut, substitution copies the text. */
  lemma ShutSpanSub(r: Re, g: Gate, ignoreCase: bool, repl: string, s: string, k: nat, m: nat)
    requires k <= m <= |s| && Covers(g, r) && ShutSpan(g, ignoreCase, s, k, m)
    ensures Sub(r, ignoreCase, repl, s, k) == s[k..m] + Sub(r, ignoreCase, repl, s, m)
  {
    forall t | k <= t < m
      ensures !MatchesAt(r, ignoreCase, s, t)
    {
      ShutWithin(g, ignoreCase, s, k, m, t);
      ShutHasNoMatch(r, g, ignoreCase, s, t);
    }
    SubCopies(r, ignoreCase, repl, s, k, m);
  }

  /** With no match from k up to m, substitution copies that stretch of the text. */
  lemma {:induction false} SubCopies(r: Re, ignoreCase: bool, repl: string, s: string, k: nat, m: nat)
    requires k <= m <= |s| && forall t :: k <= t < m ==> !MatchesAt(r, ignoreCase, s, t)
    ensures Sub(r, ignoreCase, repl, s, k) == s[k..m] + Sub(r, ignoreCase, repl, s, m)
    decreases m - k
  {
    if k < m {
      var rest := Sub(r, ignoreCase, repl, s, m);
      var tail := Sub(r, ignoreCase, repl, s, k + 1);
      assert tail == s[k + 1..m] + rest by {
        SubCopies(r, ignoreCase, repl, s, k + 1, m);
      }
      assert Sub(r, ignoreCase, repl, s, k) == [s[k]] + tail by {
        SubSkips(r, ignoreCase, repl, s, k);
      }
      assert s[k..m] == [s[k]] + s[k + 1..m];
    }
  }

  /** A mandatory class that occurs nowhere from k on shuts the gate at every position from k. */
  lemma {:induction false} AbsentShuts(g: Gate, ignoreCase: bool, s: string, k: nat, m: nat)
    requires k <= m <= |s| && g.mandatory != [] && !PresentFrom(g.mandatory[0], s, k, ignoreCase)
    ensures ShutSpan(g, ignoreCase, s, k, m)
    decreases m - k
  {
    if k < m {
      AbsentShuts(g, ignoreCase, s, k + 1, m);
    }
  }

  /** A first head class that occurs nowhere from k on shuts the gate at every position from k. */
  lemma {:induction false} HeadAbsentShuts(g: Gate, ignoreCase: bool, s: string, k: nat, m: nat)
    requires k <= m <= |s| && g.heads != [] && !PresentFrom(g.heads[0], s, k, ignoreCase)
    ensures ShutSpan(g, ignoreCase, s, k, m)
    decreases m - k
  {
    if k < m {
      HeadAbsentShuts(g, ignoreCase, s, k + 1, m);
    }
  }

  /** A class made of ASCII letters only. */
  predicate LettersOnly(k: CharClass) {
    match k
    case Is(x) => IsUpper(x) || IsLower(x)
    case Among(_) => false
    case Span(lo, hi) => ('A' <= lo && hi <= 'Z') || ('a' <= lo && hi <= 'z')
    case Digit => false
    case Space => false
    case Either(a, b) => LettersOnly(a) && LettersOnly(b)
  }

  /** No ASCII letter at position i or later. */
  predicate NoLetterFrom(s: string, i: nat)
    decreases |s| - i
  {
    i >= |s| || (!IsUpper(s[i]) && !IsLower(s[i]) && NoLetterFrom(s, i + 1))
  }

  lemma {:induction false} LettersMissNonLetter(k: CharClass, c: char, ignoreCase: bool)
    requires LettersOnly(k) && !IsUpper(c) && !IsLower(c)
    ensures !ClassMatches(k, c, ignoreCase)
  {
    match k
    case Either(a, b) =>
      LettersMissNonLetter(a, c, ignoreCase);
      LettersMissNonLetter(b, c, ignoreCase);
    case _ =>
  }

  /** A text without letters from i on holds no character of a letters-only class there. */
  lemma {:induction false} LettersAbsent(k: CharClass, s: string, i: nat, ignoreCase: bool)
    requires LettersOnly(k) && NoLetterFrom(s, i)
    ensures !PresentFrom(k, s, i, ignoreCase)
    decreases |s| - i
  {
    if i < |s| {
      LettersMissNonLetter(k, s[i], ignoreCase);
      LettersAbsent(k, s, i + 1, ignoreCase);
    }
  }

  /** Too few characters left from k on shuts the gate at every position from k. */
  lemma {:induction false} TooShortShuts(g: Gate, ignoreCase: bool, s: string, k: nat, m: nat)
    requires k <= m <= |s| && |s| < k + g.minLen
    ensures ShutSpan(g, ignoreCase, s, k, m)
    decreases m - k
  {
    if k < m {
      TooShortShuts(g, ignoreCase, s, k + 1, m);
    }
  }

  /** Two adjacent shut spans make one. */
  lemma {:induction false} ShutSpanJoin(g: Gate, ignoreCase: bool, s: string, k: nat, j: nat, m: nat)
    requires k <= j <= m <= |s| && ShutSpan(g, ignoreCase, s, k, j) && ShutSpan(g, ignoreCase, s, j, m)
    ensures ShutSpan(g, ignoreCase, s, k, m)
    decreases j - k
  {
    if k < j {
      ShutSpanJoin(g, ignoreCase, s, k + 1, j, m);
    }
  }

  /** A rule with no match at the start and its gate shut after it leaves the text unchanged. */
  lemma MissThenShut(rule: Rule, g: Gate, s: string)
    requires s != [] && Ends(rule.pattern, s, 0, rule.ignoreCase) == []
    requires Covers(g, rule.pattern) && ShutSpan(g, rule.ignoreCase, s, 1, |s|)
    ensures Apply(rule, s) == s
  {
    ShutSpanSub(rule.pattern, g, rule.ignoreCase, rule.replacement, s, 1, |s|);
    assert s == [s[0]] + s[1..];
  }

  /** A rule with no match at the start nor at j, and its gate shut everywhere else, leaves the text unchanged. */
  lemma MissTwiceThenShut(rule: Rule, g: Gate, s: string, j: nat)
    requires 0 < j < |s|
    requires Ends(rule.pattern, s, 0, rule.ignoreCase) == [] && Ends(rule.pattern, s, j, rule.ignoreCase) == []
    requires Covers(g, rule.pattern) && ShutSpan(g, rule.ignoreCase, s, 1, j) && ShutSpan(g, rule.ignoreCase, s, j + 1, |s|)
    ensures Apply(rule, s) == s
  {
    var r, ci := rule.pattern, rule.ignoreCase;
    forall k | 0 <= k < |s|
      ensures !MatchesAt(r, ci, s, k)
    {
      if 0 < k < j {
        ShutWithin(g, ci, s, 1, j, k);
        ShutHasNoMatch(r, g, ci, s, k);
      } else if j < k {
        ShutWithin(g, ci, s, j + 1, |s|, k);
        ShutHasNoMatch(r, g, ci, s, k);
      }
    }
    SubWithoutMatch(r, ci, rule.replacement, s, 0);
  }

  /** A span the gate shuts shuts each position in it. */
  lemma {:induction false} ShutWithin(g: Gate, ignoreCase: bool, s: string, k: nat, m: nat, t: nat)
    requires k <= t < m <= |s| && ShutSpan(g, ignoreCase, s, k, m)
    ensures Shut(g, ignoreCase, s, t)
    decreases t - k
  {
    if k < t {
      ShutWithin(g, ignoreCase, s, k + 1, m, t);
    }
  }

  /** A rule whose gate is shut everywhere leaves the text unchanged. */
  lemma ShutEverywhere(rule: Rule, g: Gate, s: string)
    requires Covers(g, rule.pattern) && ShutSpan(g, rule.ignoreCase, s, 0, |s|)
    ensures Apply(rule, s) == s
  {
    ShutSpanSub(rule.pattern, g, rule.ignoreCase, rule.replacement, s, 0, |s|);
  }

  /** A rule with no match at the start, on a text too short for a match anywhere later, leaves it unchanged. */
  lemma MissThenTooShort(rule: Rule, s: string)
    requires s != [] && Ends(rule.pattern, s, 0, rule.ignoreCase) == []
    requires |s| - 1 < MinLen(rule.pattern)
    ensures Apply(rule, s) == s
  {
    forall k | 0 <= k < |s|
      ensures !MatchesAt(rule.pattern, rule.ignoreCase, s, k)
    {
      if k > 0 {
        EndsWithin(rule.pattern, s, k, rule.ignoreCase);
      }
    }
    SubWithoutMatch(rule.pattern, rule.ignoreCase, rule.replacement, s, 0);
  }

  /** A text shorter than every match of a rule's pattern comes back unchanged. */
  lemma ShorterThanPattern(rule: Rule, s: string)
    requires |s| < MinLen(rule.pattern)
    ensures Apply(rule, s) == s
  {
    var g := Gate(MinLen(rule.pattern), [], false, []);
    TooShortShuts(g, rule.ignoreCase, s, 0, |s|);
    ShutEverywhere(rule, g, s);
  }

  /** A rule whose first match at the start runs to the end replaces the whole text. */
  lemma RuleTakesAll(rule: Rule, s: string)
    requires s != [] && FirstEnd(rule.pattern, s, 0, rule.ignoreCase, |s|)
    ensures Apply(rule, s) == rule.replacement
  {
    SubToEnd(rule.pattern, rule.ignoreCase, rule.replacement, s, 0);
  }
}
