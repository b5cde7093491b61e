/**
 * The fragment of Python's `re` that the cleaning rules use, with the
 * semantics of a backtracking matcher: `Ends(r, s, i)` lists every position
 * at which a match of `r` starting at `i` can end, in the order the
 * backtracking matcher tries them, so the match `re` reports is the first.
 */
module Regex {
  import opened Chars

  /** One bracket class or escape, matching a single character. */
  datatype CharClass =
    | Is(c: char)                          // a literal character
    | Span(lo: char, hi: char)             // a range such as A-Z
    | Among(cs: string)                    // characters listed one by one, as in [-/]
    | Digit                                // \d
    | Space                                // \s
    | Either(a: CharClass, b: CharClass)   // two members of one [...]

  predicate InClass(k: CharClass, c: char) {
    match k
    case Is(x) => c == x
    case Span(lo, hi) => lo <= c <= hi
    case Among(cs) => c in cs
    case Digit => IsDigit(c)
    case Space => IsSpace(c)
    case Either(a, b) => InClass(a, c) || InClass(b, c)
  }

  /** Under IGNORECASE a character also matches when its other-case form does. */
  predicate ClassMatches(k: CharClass, c: char, ignoreCase: bool) {
    InClass(k, c) || (ignoreCase && (InClass(k, ToLower(c)) || InClass(k, ToUpper(c))))
  }

  datatype Re =
    | One(k: CharClass)        // a single character of a class
    | Lit(w: string)           // a literal string
    | AnyLit(ws: seq<string>)  // (?:w1|w2|...), the words tried in the order given
    | Empty                    // the empty pattern
    | WordBoundary             // \b
    | Cat(a: Re, b: Re)        // a then b
    | Alt(a: Re, b: Re)        // a|b, a tried first
    | Star(a: Re)              // a*, greedy
    | Ahead(a: Re)             // (?=a)

  /** `\b` at position i: a word character on exactly one side. */
  predicate AtBoundary(s: string, i: nat)
    requires i <= |s|
  {
    (i > 0 && IsWordChar(s[i - 1])) != (i < |s| && IsWordChar(s[i]))
  }

  /** The text spells the word `w` from position i on. */
  predicate Spells(w: string, s: string, i: nat, ignoreCase: bool) {
    i + |w| <= |s| && forall t :: 0 <= t < |w| ==> ClassMatches(Is(w[t]), s[i + t], ignoreCase)
  }

  /** The ends of the literal alternatives `ws` at i, in the order they are tried. */
  function LitsEnds(ws: seq<string>, s: string, i: nat, ignoreCase: bool): seq<nat>
    decreases |ws|
  {
    if ws == [] then []
    else (if Spells(ws[0], s, i, ignoreCase) then [i + |ws[0]|] else []) + LitsEnds(ws[1..], s, i, ignoreCase)
  }

  function Ends(r: Re, s: string, i: nat, ignoreCase: bool): seq<nat>
    requires i <= |s|
    decreases r, |s| - i, 1, 0
  {
    match r
    case One(k) => if i < |s| && ClassMatches(k, s[i], ignoreCase) then [i + 1] else []
    case Lit(w) => if Spells(w, s, i, ignoreCase) then [i + |w|] else []
    case AnyLit(ws) => LitsEnds(ws, s, i, ignoreCase)
    case Empty => [i]
    case WordBoundary => if AtBoundary(s, i) then [i] else []
    case Cat(a, b) => CatEnds(b, s, Ends(a, s, i, ignoreCase), ignoreCase)
    case Alt(a, b) => Ends(a, s, i, ignoreCase) + Ends(b, s, i, ignoreCase)
    case Star(a) => StarEnds(a, s, i, Ends(a, s, i, ignoreCase), ignoreCase) + [i]
    case Ahead(a) => if Ends(a, s, i, ignoreCase) != [] then [i] else []
  }

  /** The ends of `b` tried from each of the positions `starts`, in order. */
  function CatEnds(b: Re, s: string, starts: seq<nat>, ignoreCase: bool): seq<nat>
    decreases b, |s| + 1, 0, |starts|
  {
    if starts == [] then []
    else
      (if starts[0] <= |s| then Ends(b, s, starts[0], ignoreCase) else [])
      + CatEnds(b, s, starts[1..], ignoreCase)
  }

  /** One more iteration of a greedy star from each position an iteration of `a` reached. */
  function StarEnds(a: Re, s: string, i: nat, starts: seq<nat>, ignoreCase: bool): seq<nat>
    requires i <= |s|
    decreases Star(a), |s| - i, 0, |starts|
  {
    if starts == [] then []
    else
      (if i < starts[0] <= |s| then Ends(Star(a), s, starts[0], ignoreCase) else [])
      + StarEnds(a, s, i, starts[1..], ignoreCase)
  }


  /** The length of the shortest word of `ws`; 0 for no words. */
  function Shortest(ws: seq<string>): nat {
    if ws == [] then 0 else ShortestFrom(ws, 0)
  }

  /** The length of the shortest of the words from position k on. */
  function ShortestFrom(ws: seq<string>, k: nat): nat
    decreases |ws| - k
  {
    if k >= |ws| then 0
    else if k == |ws| - 1 || |ws[k]| <= ShortestFrom(ws, k + 1) then |ws[k]|
    else ShortestFrom(ws, k + 1)
  }

  /** The fewest characters any match of `r` consumes. */
  function MinLen(r: Re): nat {
    match r
    case One(_) => 1
    case Lit(w) => |w|
    case AnyLit(ws) => Shortest(ws)
    case Empty => 0
    case WordBoundary => 0
    case Cat(a, b) => MinLen(a) + MinLen(b)
    case Alt(a, b) => if MinLen(a) <= MinLen(b) then MinLen(a) else MinLen(b)
    case Star(_) => 0
    case Ahead(_) => 0
  }

  predicate Within(ends: seq<nat>, lo: int, hi: int) {
    forall k :: 0 <= k < |ends| ==> lo <= ends[k] <= hi
  }

  /** Every match of `r` from i stays inside the text and consumes at least MinLen(r) characters. */
  lemma {:induction false} EndsWithin(r: Re, s: string, i: nat, ignoreCase: bool)
    requires i <= |s|
    ensures Within(Ends(r, s, i, ignoreCase), i + MinLen(r), |s|)
    decreases r, |s| - i, 1, 0
  {
    match r
    case One(_) =>
    case Lit(_) =>
    case AnyLit(ws) =>
      LitsEndsWithin(ws, s, i, ignoreCase);
    case Empty =>
    case WordBoundary =>
    case Cat(a, b) =>
      EndsWithin(a, s, i, ignoreCase);
      CatEndsWithin(b, s, i + MinLen(a), Ends(a, s, i, ignoreCase), ignoreCase);
      assert Ends(r, s, i, ignoreCase) == CatEnds(b, s, Ends(a, s, i, ignoreCase), ignoreCase);
    case Alt(a, b) =>
      EndsWithin(a, s, i, ignoreCase);
      EndsWithin(b, s, i, ignoreCase);
      WithinAppend(Ends(a, s, i, ignoreCase), Ends(b, s, i, ignoreCase), i + MinLen(r), i + MinLen(a), i + MinLen(b), |s|);
    case Star(a) =>
      var starts := Ends(a, s, i, ignoreCase);
      StarEndsWithin(a, s, i, starts, ignoreCase);
      WithinAppend(StarEnds(a, s, i, starts, ignoreCase), [i], i, i + 1, i, |s|);
    case Ahead(a) =>
  }

  lemma WithinAppend(e1: seq<nat>, e2: seq<nat>, lo: int, lo1: int, lo2: int, hi: int)
    requires Within(e1, lo1, hi) && Within(e2, lo2, hi) && lo <= lo1 && lo <= lo2
    ensures Within(e1 + e2, lo, hi)
  {
    forall k | 0 <= k < |e1 + e2|
      ensures lo <= (e1 + e2)[k] <= hi
    {
      if k >= |e1| {
        assert (e1 + e2)[k] == e2[k - |e1|];
      }
    }
  }

  lemma LitsEndsWithin(ws: seq<string>, s: string, i: nat, ignoreCase: bool)
    ensures Within(LitsEnds(ws, s, i, ignoreCase), i + Shortest(ws), |s|)
  {
    if ws != [] {
      LitsEndsFromWithin(ws, 0, s, i, ignoreCase);
      assert ws[0..] == ws;
    }
  }

  lemma {:induction false} LitsEndsFromWithin(ws: seq<string>, k: nat, s: string, i: nat, ignoreCase: bool)
    requires k < |ws|
    ensures Within(LitsEnds(ws[k..], s, i, ignoreCase), i + ShortestFrom(ws, k), |s|)
    decreases |ws| - k
  {
    assert ws[k..][1..] == ws[k + 1..];
    if k < |ws| - 1 {
      LitsEndsFromWithin(ws, k + 1, s, i, ignoreCase);
    }
  }

  lemma {:induction false} CatEndsWithin(b: Re, s: string, lo: nat, starts: seq<nat>, ignoreCase: bool)
    requires Within(starts, lo, |s|)
    ensures Within(CatEnds(b, s, starts, ignoreCase), lo + MinLen(b), |s|)
    decreases b, |s| + 1, 0, |starts|
  {
    if starts != [] {
      EndsWithin(b, s, starts[0], ignoreCase);
      CatEndsWithin(b, s, lo, starts[1..], ignoreCase);
    }
  }

  lemma {:induction false} StarEndsWithin(a: Re, s: string, i: nat, starts: seq<nat>, ignoreCase: bool)
    requires i <= |s|
    ensures Within(StarEnds(a, s, i, starts, ignoreCase), i + 1, |s|)
    decreases Star(a), |s| - i, 0, |starts|
  {
    if starts != [] {
      if i < starts[0] <= |s| {
        EndsWithin(Star(a), s, starts[0], ignoreCase);
      }
      StarEndsWithin(a, s, i, starts[1..], ignoreCase);
    }
  }

  // ---------------------------------------------------------------------------
  // Building patterns

  /** `a+`, greedy. */
  function Plus(a: Re): Re { Cat(a, Star(a)) }

  /** `a?`, greedy. */
  function Opt(a: Re): Re { Alt(a, Empty) }

  /** `a{n}`. */
  function Times(a: Re, n: nat): Re {
    if n == 0 then Empty else Cat(a, Times(a, n - 1))
  }

  /** `a{0,n}`, greedy: as many as possible first. */
  function UpTo(a: Re, n: nat): Re {
    if n == 0 then Empty else Opt(Cat(a, UpTo(a, n - 1)))
  }

  /** `a{lo,hi}`, greedy; an upper bound below lo counts as lo. */
  function Between(a: Re, lo: nat, hi: nat): Re {
    Cat(Times(a, lo), UpTo(a, if lo <= hi then hi - lo else 0))
  }

  /** `a{lo,}`, greedy. */
  function AtLeast(a: Re, lo: nat): Re { Cat(Times(a, lo), Star(a)) }

  /** `a{n}` consumes at least n times what `a` does. */
  lemma {:induction false} TimesMinLen(a: Re, n: nat)
    ensures MinLen(Times(a, n)) == n * MinLen(a)
  {
    if n > 0 {
      TimesMinLen(a, n - 1);
    }
  }

  /** `a{0,n}` may consume nothing. */
  lemma UpToMinLen(a: Re, n: nat)
    ensures MinLen(UpTo(a, n)) == 0
  {
  }

  /** `a{lo,hi}` consumes at least lo times what `a` does. */
  lemma BetweenMinLen(a: Re, lo: nat, hi: nat)
    requires lo <= hi
    ensures MinLen(Between(a, lo, hi)) == lo * MinLen(a)
  {
    TimesMinLen(a, lo);
    UpToMinLen(a, hi - lo);
  }

  /** `a{lo,}` consumes at least lo times what `a` does. */
  lemma AtLeastMinLen(a: Re, lo: nat)
    ensures MinLen(AtLeast(a, lo)) == lo * MinLen(a)
  {
    TimesMinLen(a, lo);
  }

  // ---------------------------------------------------------------------------
  // Substitution

  /** A match of `r` starts at i and consumes at least one character. */
  predicate MatchesAt(r: Re, ignoreCase: bool, s: string, i: nat)
    requires i <= |s|
  {
    var ends := Ends(r, s, i, ignoreCase);
    ends != [] && i < ends[0] <= |s|
  }

  /** `re.sub(r, repl, s)` from position i on: every match, leftmost first, becomes `repl`. */
  function Sub(r: Re, ignoreCase: bool, repl: string, s: string, i: nat): string
    requires i <= |s|
    decreases |s| - i
  {
    if i == |s| then []
    else if MatchesAt(r, ignoreCase, s, i) then repl + Sub(r, ignoreCase, repl, s, Ends(r, s, i, ignoreCase)[0])
    else [s[i]] + Sub(r, ignoreCase, repl, s, i + 1)
  }

  /** With no match anywhere from i on, substitution leaves the text alone. */
  lemma {:induction false} SubWithoutMatch(r: Re, ignoreCase: bool, repl: string, s: string, i: nat)
    requires i <= |s|
    requires forall k :: i <= k < |s| ==> !MatchesAt(r, ignoreCase, s, k)
    ensures Sub(r, ignoreCase, repl, s, i) == s[i..]
    decreases |s| - i
  {
    if i < |s| {
      SubWithoutMatch(r, ignoreCase, repl, s, i + 1);
    }
  }

  /** Either nothing matched, or the result holds at least one whole replacement. */
  lemma {:induction false} SubLength(r: Re, ignoreCase: bool, repl: string, s: string, i: nat)
    requires i <= |s|
    ensures Sub(r, ignoreCase, repl, s, i) == s[i..] || |Sub(r, ignoreCase, repl, s, i)| >= |repl|
    decreases |s| - i
  {
    if i < |s| && !MatchesAt(r, ignoreCase, s, i) {
      SubLength(r, ignoreCase, repl, s, i + 1);
      assert s[i..] == [s[i]] + s[i + 1..];
    }
  }

  // ---------------------------------------------------------------------------
  // Ordered rule lists

  /** One `re.sub` step of a rule list: a pattern, its flags and what replaces each match. */
  datatype Rule = Rule(pattern: Re, ignoreCase: bool, replacement: string)

  function Apply(rule: Rule, s: string): string {
    Sub(rule.pattern, rule.ignoreCase, rule.replacement, s, 0)
  }

  /** The rules applied in order, each to the output of the one before. */
  function ApplyAll(rules: seq<Rule>, s: string): string
    decreases |rules|
  {
    if rules == [] then s else ApplyAll(rules[1..], Apply(rules[0], s))
  }

  /** Running two rule lists in turn is running their concatenation: order is all that matters. */
  lemma {:induction false} ApplyAllAppend(first: seq<Rule>, second: seq<Rule>, s: string)
    ensures ApplyAll(first + second, s) == ApplyAll(second, ApplyAll(first, s))
    decreases |first|
  {
    if first != [] {
      assert (first + second)[1..] == first[1..] + second;
      ApplyAllAppend(first[1..], second, Apply(first[0], s));
    } else {
      assert first + second == second;
    }
  }

  /** Running a rule list is running its first n rules and then the rest. */
  lemma ApplyAllSplit(rules: seq<Rule>, n: nat, s: string)
    requires n <= |rules|
    ensures ApplyAll(rules, s) == ApplyAll(rules[n..], ApplyAll(rules[..n], s))
  {
    assert rules == rules[..n] + rules[n..];
    ApplyAllAppend(rules[..n], rules[n..], s);
  }

  /** A rule list run on texts[0], where rule t takes texts[t] to texts[t + 1]. */
  lemma {:induction false} ApplyAllSteps(rules: seq<Rule>, texts: seq<string>)
    requires |texts| == |rules| + 1
    requires forall t :: 0 <= t < |rules| ==> Apply(rules[t], texts[t]) == texts[t + 1]
    ensures ApplyAll(rules, texts[0]) == texts[|rules|]
    decreases |rules|
  {
    if rules != [] {
      ApplyAllSteps(rules[1..], texts[1..]);
    }
  }

  /** No pattern of the rule list matches anywhere in the text. */
  predicate NoRuleMatches(rules: seq<Rule>, s: string) {
    forall t, k :: 0 <= t < |rules| && 0 <= k < |s| ==> !MatchesAt(rules[t].pattern, rules[t].ignoreCase, s, k)
  }

  /** A rule list none of whose patterns matches anywhere in the text leaves it unchanged. */
  lemma {:induction false} ApplyAllWithoutMatch(rules: seq<Rule>, s: string)
    requires NoRuleMatches(rules, s)
    ensures ApplyAll(rules, s) == s
    decreases |rules|
  {
    if rules != [] {
      forall k | 0 <= k < |s|
        ensures !MatchesAt(rules[0].pattern, rules[0].ignoreCase, s, k)
      {
        assert 0 <= 0 < |rules|;
      }
      SubWithoutMatch(rules[0].pattern, rules[0].ignoreCase, rules[0].replacement, s, 0);
      ApplyAllWithoutMatch(rules[1..], s);
    }
  }

  /** The shortest replacement of a rule list. */
  predicate ReplacementsAtLeast(rules: seq<Rule>, m: nat) {
    forall k :: 0 <= k < |rules| ==> |rules[k].replacement| >= m
  }

  /** A rule list never shortens a text below its shortest replacement. */
  lemma {:induction false} ApplyAllLength(rules: seq<Rule>, m: nat, s: string)
    requires ReplacementsAtLeast(rules, m)
    ensures |ApplyAll(rules, s)| >= (if |s| < m then |s| else m)
    decreases |rules|
  {
    if rules != [] {
      SubLength(rules[0].pattern, rules[0].ignoreCase, rules[0].replacement, s, 0);
      ApplyAllLength(rules[1..], m, Apply(rules[0], s));
    }
  }
}
