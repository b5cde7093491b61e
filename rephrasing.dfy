/**
 * The rule-based branch of `rephrase_question`: twelve case-insensitive
 * phrase rewrites run in order, then the first character is upper-cased,
 * then a question mark is appended when the text does not already end in one.
 */
module Rephrasing {
  import opened Chars
  import opened Regex
  import opened Aibot

  // ---------------------------------------------------------------------------
  // The twelve patterns, app.py lines 137 to 150, all matched with IGNORECASE

  /** `\b(?:what|how) (?:can|do|should) (?:i|we|one|you) do (?:if|when|for)` (no closing `\b`) */
  function WhatToDo(): Re {
    Cat(WordBoundary, Cat(AnyLit(["what", "how"]), Cat(Lit(" "), Cat(AnyLit(["can", "do", "should"]),
      Cat(Lit(" "), Cat(AnyLit(["i", "we", "one", "you"]), Cat(Lit(" do "), AnyLit(["if", "when", "for"]))))))))
  }

  /** `\bhow (?:can|do|should) (?:i|we) treat\b` */
  function HowToTreat(): Re {
    Cat(WordBoundary, Cat(Lit("how "), Cat(AnyLit(["can", "do", "should"]), Cat(Lit(" "),
      Cat(AnyLit(["i", "we"]), Cat(Lit(" treat"), WordBoundary))))))
  }

  /** `symptoms?` or `signs?`: a word with an optional plural s. */
  function MaybePlural(w: string): Re {
    Cat(Lit(w), Opt(One(Is('s'))))
  }

  /** `\bwhat (?:are|is) the (?:symptoms?|signs?) (?:of|for)\b` */
  function SymptomsOf(): Re {
    Cat(WordBoundary, Cat(Lit("what "), Cat(AnyLit(["are", "is"]), Cat(Lit(" the "),
      Cat(Alt(MaybePlural("symptom"), MaybePlural("sign")), Cat(Lit(" "), Cat(AnyLit(["of", "for"]), WordBoundary)))))))
  }

  /** `\bwhat (?:causes|leads to|results in)\b` */
  function WhatCauses(): Re {
    Cat(WordBoundary, Cat(Lit("what "), Cat(AnyLit(["causes", "leads to", "results in"]), WordBoundary)))
  }

  /** `\bhow (?:can|do) (?:i|we|you) prevent\b` */
  function HowToPrevent(): Re {
    Cat(WordBoundary, Cat(Lit("how "), Cat(AnyLit(["can", "do"]), Cat(Lit(" "),
      Cat(AnyLit(["i", "we", "you"]), Cat(Lit(" prevent"), WordBoundary))))))
  }

  /** `\bwhen should (?:i|we|you|one) (?:see|visit|consult)\b` */
  function WhenToConsult(): Re {
    Cat(WordBoundary, Cat(Lit("when should "), Cat(AnyLit(["i", "we", "you", "one"]), Cat(Lit(" "),
      Cat(AnyLit(["see", "visit", "consult"]), WordBoundary)))))
  }

  /** `\bis it (?:safe|ok|okay) to\b` */
  function IsItSafe(): Re {
    Cat(WordBoundary, Cat(Lit("is it "), Cat(AnyLit(["safe", "ok", "okay"]), Cat(Lit(" to"), WordBoundary))))
  }

  /** `\bcan (?:i|you|one|we) (?:take|use)\b` */
  function CanTake(): Re {
    Cat(WordBoundary, Cat(Lit("can "), Cat(AnyLit(["i", "you", "one", "we"]), Cat(Lit(" "),
      Cat(AnyLit(["take", "use"]), WordBoundary)))))
  }

  /** `\bwhat (?:is|are) the (?:treatment|treatments) for\b` */
  function TreatmentFor(): Re {
    Cat(WordBoundary, Cat(Lit("what "), Cat(AnyLit(["is", "are"]), Cat(Lit(" the "),
      Cat(AnyLit(["treatment", "treatments"]), Cat(Lit(" for"), WordBoundary))))))
  }

  /** `\bhow (?:long|often) should (?:i|you|one|we)\b` */
  function HowLong(): Re {
    Cat(WordBoundary, Cat(Lit("how "), Cat(AnyLit(["long", "often"]), Cat(Lit(" should "),
      Cat(AnyLit(["i", "you", "one", "we"]), WordBoundary)))))
  }

  /** `\bmy (?:child|baby|kid)\b` */
  function MyChild(): Re {
    Cat(WordBoundary, Cat(Lit("my "), Cat(AnyLit(["child", "baby", "kid"]), WordBoundary)))
  }

  /** `\bmy (?:mother|father|parent|husband|wife|spouse)\b` */
  function MyRelative(): Re {
    Cat(WordBoundary, Cat(Lit("my "), Cat(AnyLit(["mother", "father", "parent", "husband", "wife", "spouse"]), WordBoundary)))
  }

  function WhatToDoRule(): Rule { Rule(WhatToDo(), true, "What should be done when") }
  function HowToTreatRule(): Rule { Rule(HowToTreat(), true, "How to treat") }
  function SymptomsOfRule(): Rule { Rule(SymptomsOf(), true, "What are the symptoms of") }
  function WhatCausesRule(): Rule { Rule(WhatCauses(), true, "What causes") }
  function HowToPreventRule(): Rule { Rule(HowToPrevent(), true, "How to prevent") }
  function WhenToConsultRule(): Rule { Rule(WhenToConsult(), true, "When should someone consult") }
  function IsItSafeRule(): Rule { Rule(IsItSafe(), true, "Is it safe to") }
  function CanTakeRule(): Rule { Rule(CanTake(), true, "Can someone take") }
  function TreatmentForRule(): Rule { Rule(TreatmentFor(), true, "What is the treatment for") }
  function HowLongRule(): Rule { Rule(HowLong(), true, "How long should someone") }
  function MyChildRule(): Rule { Rule(MyChild(), true, "a child") }
  function MyRelativeRule(): Rule { Rule(MyRelative(), true, "a family member") }

  /** The rewrites in the insertion order of the `replacements` dict. */
  function RephraseRules(): seq<Rule> {
    [WhatToDoRule(), HowToTreatRule(), SymptomsOfRule(), WhatCausesRule(), HowToPreventRule(),
     WhenToConsultRule(), IsItSafeRule(), CanTakeRule(), TreatmentForRule(), HowLongRule(),
     MyChildRule(), MyRelativeRule()]
  }

  /** Every replacement is at least seven characters long ("a child"). */
  lemma ReplacementsAtLeastSeven()
    ensures ReplacementsAtLeast(RephraseRules(), 7)
  {
  }

  // ---------------------------------------------------------------------------
  // The two finishing steps

  predicate EndsWithQuestionMark(s: string) {
    s != [] && s[|s| - 1] == '?'
  }

  /** `rephrased[0].upper() + rephrased[1:]` when the text is not empty. */
  function Capitalize(s: string): (r: string)
    ensures |r| == |s|
    ensures s != [] ==> r[0] == ToUpper(s[0]) && r[1..] == s[1..]
    ensures s != [] ==> !IsLower(r[0])
  {
    if s == [] then s else [ToUpper(s[0])] + s[1..]
  }

  /** `rephrased += '?'` when the text is not empty and does not already end with one. */
  function EnsureQuestionMark(s: string): (r: string)
    ensures s != [] ==> EndsWithQuestionMark(r)
    ensures |s| <= |r| <= |s| + 1 && r[..|s|] == s
    ensures |r| == |s| + 1 <==> s != [] && !EndsWithQuestionMark(s)
  {
    if s != [] && !EndsWithQuestionMark(s) then s + "?" else s
  }

  /** Upper-case the first character, then make sure of the question mark. */
  function Finish(s: string): (r: string)
    ensures s == [] ==> r == []
    ensures s != [] ==> EndsWithQuestionMark(r) && !IsLower(r[0])
    ensures |s| <= |r| <= |s| + 1
  {
    EnsureQuestionMark(Capitalize(s))
  }

  /** The rewrites run in order; no rewrite shortens a text below seven characters. */
  function Rewrite(rules: seq<Rule>, q: string): (t: string)
    requires ReplacementsAtLeast(rules, 7)
    ensures |t| >= (if |q| < 7 then |q| else 7)
  {
    ApplyAllLength(rules, 7, q);
    ApplyAll(rules, q)
  }

  /**
   * The rule branch: an empty question is returned as it is; otherwise the
   * result ends with a question mark, does not start with a lower-case
   * letter, and is no shorter than the question or the shortest replacement.
   */
  function Rephrased(q: string): (r: string)
    ensures q == [] ==> r == []
    ensures q != [] ==> EndsWithQuestionMark(r) && !IsLower(r[0])
    ensures |r| >= (if |q| < 7 then |q| else 7)
  {
    ReplacementsAtLeastSeven();
    if q == [] then q else Finish(Rewrite(RephraseRules(), q))
  }

  /** Unfolds the rule branch: the rewrites, then the finishing steps. */
  lemma RephrasedFinishes(q: string, t: string)
    requires q != [] && t == ApplyAll(RephraseRules(), q)
    ensures Rephrased(q) == Finish(t)
  {
    ReplacementsAtLeastSeven();
  }

  /**
   * `rephrase_question`: a service reply ending in "?" would be returned;
   * without one the rules decide.
   */
  function RephraseQuestion(q: string, useLlm: bool): string {
    if q == [] then q
    else
      match Reply(useLlm)
      case Some(reply) => if EndsWithQuestionMark(reply) then reply else Rephrased(q)
      case None => Rephrased(q)
  }

  /** With the service unavailable the flag makes no difference: the rules decide. */
  lemma RephraseIgnoresFlag(q: string, useLlm: bool)
    ensures RephraseQuestion(q, useLlm) == Rephrased(q)
  {
  }

  /** The rules applied to a prefix of their list, one more rule at a time. */
  lemma ApplyAllSnoc(rules: seq<Rule>, i: nat, s: string)
    requires i < |rules|
    ensures ApplyAll(rules[..i + 1], s) == Apply(rules[i], ApplyAll(rules[..i], s))
  {
    assert rules[..i + 1] == rules[..i] + [rules[i]];
    ApplyAllAppend(rules[..i], [rules[i]], s);
  }

  /** The loop of `rephrase_question` over the replacements: one `re.sub` per rule, in order. */
  method RunRewrites(rules: seq<Rule>, q: string) returns (r: string)
    ensures r == ApplyAll(rules, q)
  {
    r := q;
    var i := 0;
    while i < |rules|
      invariant 0 <= i <= |rules|
      invariant r == ApplyAll(rules[..i], q)
    {
      ApplyAllSnoc(rules, i, q);
      r := Sub(rules[i].pattern, rules[i].ignoreCase, rules[i].replacement, r, 0);
      i := i + 1;
    }
    assert rules[..i] == rules;
  }

  /** The two finishing steps of `rephrase_question`, on the rewritten text. */
  method FinishSteps(t: string) returns (r: string)
    ensures r == Finish(t)
  {
    r := t;
    if r != [] {
      r := [ToUpper(r[0])] + r[1..];
    }
    if r != [] && r[|r| - 1] != '?' {
      r := r + "?";
    }
  }

  /** The rule branch of `rephrase_question`, step by step. */
  method RephraseByRules(q: string) returns (r: string)
    ensures r == Rephrased(q)
  {
    if q == [] {
      return q;
    }
    var t := RunRewrites(RephraseRules(), q);
    RephrasedFinishes(q, t);
    r := FinishSteps(t);
  }

  // ---------------------------------------------------------------------------
  // Properties of the finishing steps

  /**
   * A question mark is appended exactly when the capitalised text lacks one,
   * so the result ends in "??" only when the rewritten text already did.
   */
  lemma QuestionMarkOnlyWhenAbsent(s: string)
    requires s != []
    ensures var c := Capitalize(s);
      var r := Finish(s);
      (EndsWithQuestionMark(c) ==> r == c) &&
      (!EndsWithQuestionMark(c) ==> r == c + "?") &&
      (|r| >= 2 && r[|r| - 2..] == "??" ==> |c| >= 2 && c[|c| - 2..] == "??")
  {
    var c := Capitalize(s);
    var r := Finish(s);
    if !EndsWithQuestionMark(c) {
      assert r == c + "?";
      assert r[|r| - 2] == c[|c| - 1];
    } else {
      assert r == c;
    }
  }

  /** Capitalising and completing the question mark a second time changes nothing. */
  lemma FinishIdempotent(s: string)
    ensures Finish(Finish(s)) == Finish(s)
  {
    var f := Finish(s);
    if s != [] {
      var c := Capitalize(s);
      assert f[0] == c[0];
      assert ToUpper(c[0]) == c[0];
      assert Capitalize(f) == f;
    }
  }

  /**
   * A question no rule matches, already capitalised and ending with "?",
   * comes back unchanged.
   */
  lemma PlainQuestionUnchanged(q: string)
    requires q != [] && !IsLower(q[0]) && EndsWithQuestionMark(q)
    requires NoRuleMatches(RephraseRules(), q)
    ensures Rephrased(q) == q
  {
    ApplyAllWithoutMatch(RephraseRules(), q);
    RephrasedFinishes(q, q);
    FinishedUnchanged(q);
  }

  /** A text already capitalised and ending with "?" is finished as it is. */
  lemma FinishedUnchanged(s: string)
    requires s != [] && !IsLower(s[0]) && EndsWithQuestionMark(s)
    ensures Finish(s) == s
  {
    assert ToUpper(s[0]) == s[0];
    assert Capitalize(s) == s;
  }
}
