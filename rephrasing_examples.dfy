/**
 * A worked example of the rule branch of `rephrase_question`: "my baby"
 * starts none of the first ten phrases, becomes "a child" under the
 * eleventh, is left alone by the twelfth, and is finished as "A child?".
 *
 * The text is described character by character (`BabyShaped`); the matcher
 * is worked out on any text of that shape, and the literal text is tied to
 * its shape once at the end.
 */
module RephrasingExamples {
  import opened Chars
  import opened Regex
  import opened Matching
  import opened Rephrasing

  // ---------------------------------------------------------------------------
  // Composing the rule list

  /** Running the rewrites is running a prefix of them and then the rest. */
  lemma RewritesSplitAt(s: string, n: nat)
    requires n <= |RephraseRules()|
    ensures ApplyAll(RephraseRules(), s) == ApplyAll(RephraseRules()[n..], ApplyAll(RephraseRules()[..n], s))
  {
    ApplyAllSplit(RephraseRules(), n, s);
  }

  /** Ten rewrites that each leave a text alone leave it alone together. */
  lemma FirstTenFixed(s: string)
    requires Apply(WhatToDoRule(), s) == s && Apply(HowToTreatRule(), s) == s
    requires Apply(SymptomsOfRule(), s) == s && Apply(WhatCausesRule(), s) == s
    requires Apply(HowToPreventRule(), s) == s && Apply(WhenToConsultRule(), s) == s
    requires Apply(IsItSafeRule(), s) == s && Apply(CanTakeRule(), s) == s
    requires Apply(TreatmentForRule(), s) == s && Apply(HowLongRule(), s) == s
    ensures ApplyAll(RephraseRules()[..10], s) == s
  {
    ApplyAllSteps(RephraseRules()[..10], [s, s, s, s, s, s, s, s, s, s, s]);
  }

  /** The last two rewrites: the eleventh takes s to t, the twelfth leaves t alone. */
  lemma LastTwoSteps(s: string, t: string)
    requires Apply(MyChildRule(), s) == t && Apply(MyRelativeRule(), t) == t
    ensures ApplyAll(RephraseRules()[10..], s) == t
  {
    ApplyAllSteps(RephraseRules()[10..], [s, t, t]);
  }

  // ---------------------------------------------------------------------------
  // "my baby"

  function BabyText(): string { "my baby" }

  function ChildText(): string { "a child" }

  predicate BabyShaped(s: string) {
    |s| == 7 && s[0] == 'm' && s[1] == 'y' && s[2] == ' ' && s[3] == 'b' && s[4] == 'a' && s[5] == 'b' && s[6] == 'y'
  }

  lemma BabyTextShaped() ensures BabyShaped(BabyText()) { }

  /** A letter that is none of m, y, b, a nor their upper-case forms does not occur in "my baby". */
  lemma BabyLacksLetter(s: string, c: char)
    requires BabyShaped(s) && IsLower(c) && c != 'm' && c != 'y' && c != 'b' && c != 'a'
    ensures Absent(c, s, true)
  {
    forall k | 0 <= k < |s|
      ensures !ClassMatches(Is(c), s[k], true)
    {
      assert s[k] in {'m', 'y', ' ', 'b', 'a'};
    }
  }

  /** The first letters of the first ten phrases do not occur in "my baby", in either case. */
  lemma BabyLacks(s: string)
    requires BabyShaped(s)
    ensures Absent('w', s, true) && Absent('h', s, true) && Absent('i', s, true) && Absent('c', s, true)
  {
    BabyLacksLetter(s, 'w');
    BabyLacksLetter(s, 'h');
    BabyLacksLetter(s, 'i');
    BabyLacksLetter(s, 'c');
  }

  lemma BabyMissesWhatToDo(s: string)
    requires BabyShaped(s)
    ensures Apply(WhatToDoRule(), s) == s
  {
    BabyLacks(s);
    AnyLitNowhere(["what", "how"], s, true);
    HeadNowhere(WhatToDoRule(), s);
  }

  lemma BabyMissesHowToTreat(s: string)
    requires BabyShaped(s)
    ensures Apply(HowToTreatRule(), s) == s
  {
    BabyLacks(s);
    LitNowhere("how ", s, true);
    HeadNowhere(HowToTreatRule(), s);
  }

  lemma BabyMissesSymptomsOf(s: string)
    requires BabyShaped(s)
    ensures Apply(SymptomsOfRule(), s) == s
  {
    BabyLacks(s);
    LitNowhere("what ", s, true);
    HeadNowhere(SymptomsOfRule(), s);
  }

  lemma BabyMissesWhatCauses(s: string)
    requires BabyShaped(s)
    ensures Apply(WhatCausesRule(), s) == s
  {
    BabyLacks(s);
    LitNowhere("what ", s, true);
    HeadNowhere(WhatCausesRule(), s);
  }

  lemma BabyMissesHowToPrevent(s: string)
    requires BabyShaped(s)
    ensures Apply(HowToPreventRule(), s) == s
  {
    BabyLacks(s);
    LitNowhere("how ", s, true);
    HeadNowhere(HowToPreventRule(), s);
  }

  lemma BabyMissesWhenToConsult(s: string)
    requires BabyShaped(s)
    ensures Apply(WhenToConsultRule(), s) == s
  {
    BabyLacks(s);
    LitNowhere("when should ", s, true);
    HeadNowhere(WhenToConsultRule(), s);
  }

  lemma BabyMissesIsItSafe(s: string)
    requires BabyShaped(s)
    ensures Apply(IsItSafeRule(), s) == s
  {
    BabyLacks(s);
    LitNowhere("is it ", s, true);
    HeadNowhere(IsItSafeRule(), s);
  }

  lemma BabyMissesCanTake(s: string)
    requires BabyShaped(s)
    ensures Apply(CanTakeRule(), s) == s
  {
    BabyLacks(s);
    LitNowhere("can ", s, true);
    HeadNowhere(CanTakeRule(), s);
  }

  lemma BabyMissesTreatmentFor(s: string)
    requires BabyShaped(s)
    ensures Apply(TreatmentForRule(), s) == s
  {
    BabyLacks(s);
    LitNowhere("what ", s, true);
    HeadNowhere(TreatmentForRule(), s);
  }

  lemma BabyMissesHowLong(s: string)
    requires BabyShaped(s)
    ensures Apply(HowLongRule(), s) == s
  {
    BabyLacks(s);
    LitNowhere("how ", s, true);
    HeadNowhere(HowLongRule(), s);
  }

  /** "my baby" starts none of the first ten phrases. */
  lemma BabyPassesFirstTen(s: string)
    requires BabyShaped(s)
    ensures ApplyAll(RephraseRules()[..10], s) == s
  {
    BabyMissesWhatToDo(s);
    BabyMissesHowToTreat(s);
    BabyMissesSymptomsOf(s);
    BabyMissesWhatCauses(s);
    BabyMissesHowToPrevent(s);
    BabyMissesWhenToConsult(s);
    BabyMissesIsItSafe(s);
    BabyMissesCanTake(s);
    BabyMissesTreatmentFor(s);
    BabyMissesHowLong(s);
    FirstTenFixed(s);
  }

  lemma BabyLabel(s: string, ignoreCase: bool)
    requires BabyShaped(s)
    ensures FirstEnd(Lit("my "), s, 0, ignoreCase, 3)
  {
    LitEnds("my ", s, 0, ignoreCase);
  }

  /** `(?:child|baby|kid)` at 3 in "my baby" fails on "child" and ends at 7 with "baby". */
  lemma BabyAlternative(s: string, ignoreCase: bool)
    requires BabyShaped(s)
    ensures FirstEnd(AnyLit(["child", "baby", "kid"]), s, 3, ignoreCase, 7)
  {
    LitFails("child", s, 3, 0, ignoreCase);
    AnyLitFirst(["child", "baby", "kid"], 1, s, 3, ignoreCase);
  }

  /** `\bmy (?:child|baby|kid)\b` matches the whole of "my baby". */
  lemma BabyMatchesMyChild(s: string, ignoreCase: bool)
    requires BabyShaped(s)
    ensures FirstEnd(MyChild(), s, 0, ignoreCase, 7)
  {
    BabyLabel(s, ignoreCase);
    BabyAlternative(s, ignoreCase);
    assert AtBoundary(s, 0) && AtBoundary(s, 7);
    BoundedPairFirst(Lit("my "), AnyLit(["child", "baby", "kid"]), s, 0, 3, 7, ignoreCase);
  }

  lemma BabyBecomesChildText(s: string)
    requires BabyShaped(s)
    ensures Apply(MyChildRule(), s) == ChildText()
  {
    BabyMatchesMyChild(s, true);
    RuleTakesAll(MyChildRule(), s);
  }

  /** "a child" has no "m", so `\bmy (?:mother|...)\b` matches nowhere in it. */
  lemma ChildHasNoRelative(t: string)
    requires t == ChildText()
    ensures Apply(MyRelativeRule(), t) == t
  {
    assert Absent('m', t, true);
    LitNowhere("my ", t, true);
    HeadNowhere(MyRelativeRule(), t);
  }

  lemma ChildFinished(t: string)
    requires t == ChildText()
    ensures Finish(t) == "A child?"
  {
  }

  /** The rule branch on any text spelling "my baby". */
  lemma BabyShapedBecomesAChild(s: string)
    requires BabyShaped(s)
    ensures Rephrased(s) == "A child?"
  {
    var t := ChildText();
    BabyPassesFirstTen(s);
    BabyBecomesChildText(s);
    ChildHasNoRelative(t);
    LastTwoSteps(s, t);
    RewritesSplitAt(s, 10);
    RephrasedFinishes(s, t);
    ChildFinished(t);
  }

  /** `rephrase_question("my baby")` with the service unavailable is "A child?". */
  lemma BabyBecomesAChild()
    ensures Rephrased(BabyText()) == "A child?"
  {
    BabyTextShaped();
    BabyShapedBecomesAChild(BabyText());
  }
}
