/**
 * `remove_sensitive_info`: eleven `re.sub` calls, each replacing every match
 * of one pattern with a bracketed placeholder, run one after the other.
 */
module Redaction {
  import opened Wrappers
  import opened Chars
  import opened Regex

  // ---------------------------------------------------------------------------
  // Pieces shared by several patterns

  /** `[A-Z]` */
  function Upper(): CharClass { Span('A', 'Z') }

  /** `[a-z]` */
  function Lowers(): CharClass { Span('a', 'z') }

  /** `[A-Z][a-z]+`: a capitalised word. */
  function CapWord(): Re {
    Cat(One(Upper()), Plus(One(Lowers())))
  }

  /** `[A-Z][a-z]+(?:\s+[A-Z][a-z]+)*`: capitalised words separated by whitespace. */
  function CapWords(): Re {
    Cat(CapWord(), Star(Cat(Gaps(), CapWord())))
  }

  /** `\s+` */
  function Gaps(): Re { Plus(One(Space)) }

  /** `[-.\s]?`: an optional separator inside a phone number. */
  function PhoneSep(): Re {
    Opt(One(Either(Among("-."), Space)))
  }

  /** `\d{2}`, `\d{3}` and `\d{4}`. */
  function TwoDigits(): Re { Times(One(Digit), 2) }
  function ThreeDigits(): Re { Times(One(Digit), 3) }
  function FourDigits(): Re { Times(One(Digit), 4) }

  /** `\d{1,2}`: a day or a month. */
  function DayOrMonth(): Re { Between(One(Digit), 1, 2) }

  /** `\d{2,4}`: a year. */
  function YearDigits(): Re { Between(One(Digit), 2, 4) }

  /** `[-/]`: the separator inside a date. */
  function DateSep(): Re { One(Among("-/")) }

  /** `\d{1,2}[-/]\d{1,2}[-/]\d{2,4}\b`: the date part of the two date patterns. */
  function DateBody(): Re {
    Cat(DayOrMonth(), Cat(DateSep(), Cat(DayOrMonth(), Cat(DateSep(), Cat(YearDigits(), WordBoundary)))))
  }

  /** `[A-Z0-9]` */
  function IdChar(): CharClass {
    Either(Upper(), Span('0', '9'))
  }

  /** `[\s:]*`: what may separate a label from its value. */
  function LabelGap(): Re { Star(One(Either(Space, Is(':')))) }

  /** `(?:Mr|Mrs|Ms|Dr|Miss)` */
  function Title(): Re { AnyLit(["Mr", "Mrs", "Ms", "Dr", "Miss"]) }

  /** `(?:has|was|is|had|called|visited|asked)` */
  function Verb(): Re { AnyLit(["has", "was", "is", "had", "called", "visited", "asked"]) }

  /** `[A-Za-z0-9._%+-]+`, `[A-Za-z0-9.-]+` and `[A-Z|a-z]{2,}`: the three parts of an e-mail address. */
  function MailUser(): Re { Plus(One(Either(Either(Upper(), Lowers()), Either(Span('0', '9'), Among("._%+-"))))) }
  function MailHost(): Re { Plus(One(Either(Either(Upper(), Lowers()), Either(Span('0', '9'), Among(".-"))))) }
  function MailSuffix(): Re { AtLeast(One(Either(Upper(), Either(Is('|'), Lowers()))), 2) }

  /** `(?:DOB|Date of Birth|born on|birthday)` */
  function DobLabel(): Re { AnyLit(["DOB", "Date of Birth", "born on", "birthday"]) }

  /** `(?:MRN|Patient ID|Record #|ID)` and `[A-Z0-9]{5,}` */
  function IdLabel(): Re { AnyLit(["MRN", "Patient ID", "Record #", "ID"]) }
  function IdCode(): Re { AtLeast(One(IdChar()), 5) }

  /** `(?:Street|St|Avenue|Ave|Road|Rd|Drive|Dr|Lane|Ln|Boulevard|Blvd)` */
  function StreetSuffix(): Re { AnyLit(StreetWords()) }

  function StreetWords(): seq<string> {
    ["Street", "St", "Avenue", "Ave", "Road", "Rd", "Drive", "Dr", "Lane", "Ln", "Boulevard", "Blvd"]
  }

  /** `(?:Insurance|Policy)`, `[\s#:]*` and `[A-Z0-9]{6,}` */
  function PolicyLabel(): Re { AnyLit(["Insurance", "Policy"]) }
  function PolicyGap(): Re { Star(One(Either(Space, Among("#:")))) }
  function PolicyCode(): Re { AtLeast(One(IdChar()), 6) }

  // ---------------------------------------------------------------------------
  // The eleven patterns, app.py lines 81 to 105

  /** `\b(?:Mr|Mrs|Ms|Dr|Miss)\.?\s+[A-Z][a-z]+(?:\s+[A-Z][a-z]+)*\b` */
  function TitledName(): Re {
    Cat(WordBoundary, Cat(Title(), Cat(Opt(One(Is('.'))), Cat(Gaps(), Cat(CapWords(), WordBoundary)))))
  }

  /** `\b[A-Z][a-z]+(?:\s+[A-Z][a-z]+)*(?=\s+(?:has|was|is|had|called|visited|asked))` */
  function NameBeforeVerb(): Re {
    Cat(WordBoundary, Cat(CapWords(), Ahead(Cat(Gaps(), Verb()))))
  }

  /** `\b\d{3}[-.\s]?\d{3}[-.\s]?\d{4}\b` */
  function Phone(): Re {
    Cat(WordBoundary, Cat(ThreeDigits(), Cat(PhoneSep(), Cat(ThreeDigits(), Cat(PhoneSep(), Cat(FourDigits(), WordBoundary))))))
  }

  /** `\(\d{3}\)\s*\d{3}[-.\s]?\d{4}` */
  function ParenPhone(): Re {
    Cat(One(Is('(')), Cat(ThreeDigits(), Cat(One(Is(')')), Cat(Star(One(Space)), Cat(ThreeDigits(), Cat(PhoneSep(), FourDigits()))))))
  }

  /** `\b[A-Za-z0-9._%+-]+@[A-Za-z0-9.-]+\.[A-Z|a-z]{2,}\b`; the `|` in the last class is a literal bar. */
  function Email(): Re {
    Cat(WordBoundary, Cat(MailUser(), Cat(One(Is('@')), Cat(MailHost(), Cat(One(Is('.')), Cat(MailSuffix(), WordBoundary))))))
  }

  /** `\b(?:DOB|Date of Birth|born on|birthday)[\s:]*` and a date; used case-insensitively. */
  function BirthDate(): Re {
    Cat(WordBoundary, Cat(DobLabel(), Cat(LabelGap(), DateBody())))
  }

  /** `\b\d{1,2}[-/]\d{1,2}[-/]\d{2,4}\b` */
  function Date(): Re {
    Cat(WordBoundary, DateBody())
  }

  /** `\b(?:MRN|Patient ID|Record #|ID)[\s:]*[A-Z0-9]{5,}\b`; used case-insensitively. */
  function PatientId(): Re {
    Cat(WordBoundary, Cat(IdLabel(), Cat(LabelGap(), Cat(IdCode(), WordBoundary))))
  }

  /** `\b\d+\s+[A-Z][a-z]+(?:\s+[A-Z][a-z]+)*\s+(?:Street|St|Avenue|...|Blvd)\b`; used case-insensitively. */
  function Address(): Re {
    Cat(WordBoundary, Cat(Plus(One(Digit)), Cat(Gaps(), Cat(CapWords(), Cat(Gaps(), Cat(StreetSuffix(), WordBoundary))))))
  }

  /** `\b\d{3}-\d{2}-\d{4}\b` */
  function Ssn(): Re {
    Cat(WordBoundary, Cat(ThreeDigits(), Cat(One(Is('-')), Cat(TwoDigits(), Cat(One(Is('-')), Cat(FourDigits(), WordBoundary))))))
  }

  /** `\b(?:Insurance|Policy)[\s#:]*[A-Z0-9]{6,}\b`; used case-insensitively. */
  function Insurance(): Re {
    Cat(WordBoundary, Cat(PolicyLabel(), Cat(PolicyGap(), Cat(PolicyCode(), WordBoundary))))
  }

  function TitledNameRule(): Rule { Rule(TitledName(), false, "[PATIENT NAME]") }
  function NameBeforeVerbRule(): Rule { Rule(NameBeforeVerb(), false, "[PATIENT NAME]") }
  function PhoneRule(): Rule { Rule(Phone(), false, "[PHONE]") }
  function ParenPhoneRule(): Rule { Rule(ParenPhone(), false, "[PHONE]") }
  function EmailRule(): Rule { Rule(Email(), false, "[EMAIL]") }
  function BirthDateRule(): Rule { Rule(BirthDate(), true, "[DOB]") }
  function DateRule(): Rule { Rule(Date(), false, "[DATE]") }
  function PatientIdRule(): Rule { Rule(PatientId(), true, "[PATIENT ID]") }
  function AddressRule(): Rule { Rule(Address(), true, "[ADDRESS]") }
  function SsnRule(): Rule { Rule(Ssn(), false, "[SSN]") }
  function InsuranceRule(): Rule { Rule(Insurance(), true, "[INSURANCE]") }

  /** The substitutions in the order the source runs them. */
  function PiiRules(): seq<Rule> {
    [TitledNameRule(), NameBeforeVerbRule(), PhoneRule(), ParenPhoneRule(), EmailRule(),
     BirthDateRule(), DateRule(), PatientIdRule(), AddressRule(), SsnRule(), InsuranceRule()]
  }

  /** Every placeholder is at least five characters long. */
  lemma PlaceholdersAtLeastFive()
    ensures ReplacementsAtLeast(PiiRules(), 5)
  {
  }

  /**
   * `remove_sensitive_info`: a missing cell gives the empty string; otherwise
   * the rules run in order. No rule can shorten a text below five characters,
   * and a text in which no rule matches comes back unchanged.
   */
  function RemoveSensitiveInfo(text: Option<string>): (r: string)
    ensures text.None? ==> r == ""
    ensures text.Some? ==> |r| >= (if |text.value| < 5 then |text.value| else 5)
  {
    match text
    case None => ""
    case Some(s) =>
      PlaceholdersAtLeastFive();
      ApplyAllLength(PiiRules(), 5, s);
      ApplyAll(PiiRules(), s)
  }

  /** A text that no pattern matches anywhere is returned as it is. */
  lemma WithoutPiiUnchanged(s: string)
    requires NoRuleMatches(PiiRules(), s)
    ensures RemoveSensitiveInfo(Some(s)) == s
  {
    ApplyAllWithoutMatch(PiiRules(), s);
  }

  /**
   * The rules run in the listed order: the date-of-birth rule sees the text
   * the five name, phone and e-mail rules left, and the plain date rule only
   * sees what the date-of-birth rule left.
   */
  lemma BirthDateRunsBeforeDate(s: string)
    ensures RemoveSensitiveInfo(Some(s)) ==
      ApplyAll(PiiRules()[7..], Apply(DateRule(), Apply(BirthDateRule(), ApplyAll(PiiRules()[..5], s))))
  {
    var rules := PiiRules();
    assert rules == rules[..5] + ([rules[5]] + ([rules[6]] + rules[7..]));
    ApplyAllAppend(rules[..5], [rules[5]] + ([rules[6]] + rules[7..]), s);
    ApplyAllAppend([rules[5]], [rules[6]] + rules[7..], ApplyAll(rules[..5], s));
    ApplyAllAppend([rules[6]], rules[7..], ApplyAll([rules[5]], ApplyAll(rules[..5], s)));
  }

  /** Running the rules is running a prefix of them and then the rest. */
  lemma RulesSplitAt(s: string, n: nat)
    requires n <= |PiiRules()|
    ensures RemoveSensitiveInfo(Some(s)) == ApplyAll(PiiRules()[n..], ApplyAll(PiiRules()[..n], s))
  {
    ApplyAllSplit(PiiRules(), n, s);
  }
}
