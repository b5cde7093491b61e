/**
 * The rule-based branch of `is_similar_question`: Jaccard similarity of the
 * two questions' word sets after lower-casing and dropping punctuation.
 */
module Similarity {
  import opened Chars
  import opened Normalize
  import opened Aibot

  /** `re.sub(r'[^\w\s]', '', s)`: keep only word characters and whitespace. */
  function KeepWordsAndSpaces(s: string): (r: string)
    ensures forall k :: 0 <= k < |r| ==> IsWordChar(r[k]) || IsSpace(r[k])
    decreases |s|
  {
    if s == [] then []
    else (if IsWordChar(s[0]) || IsSpace(s[0]) then [s[0]] else []) + KeepWordsAndSpaces(s[1..])
  }

  /** The leading run of non-whitespace characters. */
  function Word(s: string): (w: string)
    ensures |w| <= |s| && w == s[..|w|]
    ensures forall k :: 0 <= k < |w| ==> !IsSpace(w[k])
    ensures |w| < |s| ==> IsSpace(s[|w|])
    decreases |s|
  {
    if s == [] || IsSpace(s[0]) then [] else [s[0]] + Word(s[1..])
  }

  /** `str.split()`: the maximal runs of non-whitespace, in order. */
  function Split(s: string): (words: seq<string>)
    ensures forall k :: 0 <= k < |words| ==> words[k] != []
    decreases |s|
  {
    var t := TrimStart(s);
    if t == [] then []
    else
      var w := Word(t);
      assert |w| > 0 by {
        assert !IsSpace(t[0]);
      }
      [w] + Split(t[|w|..])
  }

  /** `set(re.sub(r'[^\w\s]', '', q.lower()).split())`. */
  function WordSet(q: string): set<string> {
    var words := Split(KeepWordsAndSpaces(Lower(q)));
    set k | 0 <= k < |words| :: words[k]
  }

  /**
   * The word-overlap test: false when either question has no word, otherwise
   * |intersection| / |union| >= num / den, compared exactly by cross-multiplying.
   */
  predicate SimilarByWords(q1: string, q2: string, num: nat, den: nat)
    requires den > 0
  {
    var w1, w2 := WordSet(q1), WordSet(q2);
    if |w1| == 0 || |w2| == 0 then false
    else |w1 * w2| * den >= num * |w1 + w2|
  }

  /** `is_similar_question`: a service reply containing "yes" would decide; without one the word test does. */
  predicate IsSimilarQuestion(q1: string, q2: string, num: nat, den: nat, useLlm: bool)
    requires den > 0
  {
    var byWords := SimilarByWords(q1, q2, num, den);
    match Reply(useLlm)
    case Some(answer) => if answer != [] then Contains(Lower(answer), "yes") else byWords
    case None => byWords
  }

  /** With the service unavailable the flag is irrelevant: the word test decides. */
  lemma SimilarityIgnoresFlag(q1: string, q2: string, num: nat, den: nat, useLlm: bool)
    requires den > 0
    ensures IsSimilarQuestion(q1, q2, num, den, useLlm) == SimilarByWords(q1, q2, num, den)
  {
  }

  /** A question without a word is similar to nothing, and similarity does not depend on argument order. */
  lemma SimilarNeedsWordsAndIsSymmetric(q1: string, q2: string, num: nat, den: nat)
    requires den > 0
    ensures SimilarByWords(q1, q2, num, den) ==> WordSet(q1) != {} && WordSet(q2) != {}
    ensures SimilarByWords(q1, q2, num, den) == SimilarByWords(q2, q1, num, den)
  {
    assert WordSet(q1) * WordSet(q2) == WordSet(q2) * WordSet(q1);
    assert WordSet(q1) + WordSet(q2) == WordSet(q2) + WordSet(q1);
  }

  /** Two questions with the same non-empty word set are similar at any threshold up to 1. */
  lemma SameWordsAreSimilar(q1: string, q2: string, num: nat, den: nat)
    requires den > 0 && num <= den
    requires WordSet(q1) == WordSet(q2) != {}
    ensures SimilarByWords(q1, q2, num, den)
  {
    var w := WordSet(q1);
    assert w * w == w && w + w == w;
    assert |w| * den >= num * |w| by {
      assert |w| * den - num * |w| == |w| * (den - num);
    }
  }

  /** At the pipeline's threshold 0.8 the test is 5 * |intersection| >= 4 * |union|. */
  lemma FourFifthsThreshold(q1: string, q2: string)
    ensures SimilarByWords(q1, q2, 4, 5) <==>
      WordSet(q1) != {} && WordSet(q2) != {} &&
      5 * |WordSet(q1) * WordSet(q2)| >= 4 * |WordSet(q1) + WordSet(q2)|
  {
  }

  predicate HasWordChar(s: string) {
    exists k :: 0 <= k < |s| && IsWordChar(s[k])
  }

  /** A word character of a + b is one of a or one of b. */
  lemma HasWordCharAppend(a: string, b: string)
    ensures HasWordChar(a + b) <==> HasWordChar(a) || HasWordChar(b)
  {
    var ab := a + b;
    if HasWordChar(ab) {
      var k :| 0 <= k < |ab| && IsWordChar(ab[k]);
      if k >= |a| {
        assert b[k - |a|] == ab[k];
      }
    }
    if HasWordChar(b) {
      var k :| 0 <= k < |b| && IsWordChar(b[k]);
      assert ab[|a| + k] == b[k];
    }
    if HasWordChar(a) {
      var k :| 0 <= k < |a| && IsWordChar(a[k]);
      assert ab[k] == a[k];
    }
  }

  lemma {:induction false} KeepWordsAndSpacesKeepsWordChars(s: string)
    ensures HasWordChar(KeepWordsAndSpaces(s)) <==> HasWordChar(s)
    decreases |s|
  {
    if s != [] {
      KeepWordsAndSpacesKeepsWordChars(s[1..]);
      var head := if IsWordChar(s[0]) || IsSpace(s[0]) then [s[0]] else [];
      assert HasWordChar(head) <==> IsWordChar(s[0]) by {
        if head != [] {
          assert head[0] == s[0];
        }
      }
      HasWordCharAppend(head, KeepWordsAndSpaces(s[1..]));
      HasWordCharAppend([s[0]], s[1..]);
      assert HasWordChar([s[0]]) <==> IsWordChar(s[0]) by {
        assert [s[0]][0] == s[0];
      }
      assert [s[0]] + s[1..] == s;
    }
  }

  /** Lower-casing neither creates nor removes word characters. */
  lemma LowerKeepsWordChars(q: string)
    ensures HasWordChar(Lower(q)) <==> HasWordChar(q)
  {
    var low := Lower(q);
    if HasWordChar(q) {
      var k :| 0 <= k < |q| && IsWordChar(q[k]);
      assert IsWordChar(low[k]);
    }
    if HasWordChar(low) {
      var k :| 0 <= k < |low| && IsWordChar(low[k]);
      assert IsWordChar(q[k]);
    }
  }

  /** A text with a word character splits into at least one word. */
  lemma SplitHasWordIff(kept: string)
    requires forall k :: 0 <= k < |kept| ==> IsWordChar(kept[k]) || IsSpace(kept[k])
    ensures Split(kept) != [] <==> HasWordChar(kept)
  {
    var t := TrimStart(kept);
    if HasWordChar(kept) {
      var k :| 0 <= k < |kept| && IsWordChar(kept[k]);
      assert !IsSpace(kept[k]);
      assert t != [];
    }
    if t != [] {
      var i := |kept| - |t|;
      assert kept[i] == t[0];
      assert IsWordChar(kept[i]);
    }
  }

  /** A question has a word exactly when it has a letter, a digit or an underscore. */
  lemma HasWordsIff(q: string)
    ensures WordSet(q) != {} <==> HasWordChar(q)
  {
    var low := Lower(q);
    var kept := KeepWordsAndSpaces(low);
    var words := Split(kept);
    LowerKeepsWordChars(q);
    KeepWordsAndSpacesKeepsWordChars(low);
    SplitHasWordIff(kept);
    if words != [] {
      assert words[0] in WordSet(q);
    }
  }

  lemma {:induction false} KeepWordsAndSpacesAppend(a: string, b: string)
    ensures KeepWordsAndSpaces(a + b) == KeepWordsAndSpaces(a) + KeepWordsAndSpaces(b)
    decreases |a|
  {
    if a == [] {
      assert a + b == b;
    } else {
      assert (a + b)[1..] == a[1..] + b;
      KeepWordsAndSpacesAppend(a[1..], b);
    }
  }

  /** The question mark the rephraser appends is invisible to the word test. */
  lemma QuestionMarkIgnored(q: string)
    ensures WordSet(q + "?") == WordSet(q)
  {
    assert Lower(q + "?") == Lower(q) + "?";
    KeepWordsAndSpacesAppend(Lower(q), "?");
    assert KeepWordsAndSpaces("?") == [];
    assert KeepWordsAndSpaces(Lower(q)) + [] == KeepWordsAndSpaces(Lower(q));
  }

  /** Case does not matter to the word test. */
  lemma CaseIgnored(q: string)
    ensures WordSet(Lower(q)) == WordSet(q)
  {
    LowerIdempotent(q);
  }
}
