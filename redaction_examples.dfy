/**
 * Worked examples of `remove_sensitive_info`: a date of birth after its
 * label becomes `[DOB]` (not `DOB: [DATE]`, because the date-of-birth rule
 * runs first), and an isolated social security number becomes `[SSN]`.
 *
 * Each example text is described character by character (`DobShaped`,
 * `SsnShaped`); the matcher is worked out on any text of that shape, and
 * the literal text is tied to its shape once at the end.
 */
module RedactionExamples {
  import opened Wrappers
  import opened Chars
  import opened Regex
  import opened Matching
  import opened Redaction

  // ---------------------------------------------------------------------------
  // The fewest characters each pattern can match. None matches the empty
  // string, so every match replaces at least one character and the rules of
  // `re.sub` for empty matches never come into play.

  lemma DigitRunsMinLen()
    ensures MinLen(TwoDigits()) == 2 && MinLen(ThreeDigits()) == 3 && MinLen(FourDigits()) == 4
  {
  }

  lemma DateDigitsMinLen()
    ensures MinLen(DayOrMonth()) == 1 && MinLen(YearDigits()) == 2
  {
  }

  lemma CapWordsMinLen() ensures MinLen(CapWords()) == 2 { }
  lemma TitleMinLen() ensures MinLen(Title()) == 2 { }
  lemma MailMinLen() ensures MinLen(MailUser()) == 1 && MinLen(MailHost()) == 1 && MinLen(MailSuffix()) == 2 { }
  lemma DobLabelMinLen() ensures MinLen(DobLabel()) == 3 { }
  lemma IdLabelMinLen() ensures MinLen(IdLabel()) == 2 { }
  lemma IdCodeMinLen() ensures MinLen(IdCode()) == 5 { }
  lemma StreetWordsTail() ensures ShortestFrom(StreetWords(), 6) == 2 { }

  lemma StreetSuffixMinLen() ensures MinLen(StreetSuffix()) == 2 {
    StreetWordsTail();
  }
  lemma PolicyLabelMinLen() ensures MinLen(PolicyLabel()) == 6 { }
  lemma PolicyCodeMinLen() ensures MinLen(PolicyCode()) == 6 { }

  lemma DateBodyMinLen() ensures MinLen(DateBody()) == 6 {
    DateDigitsMinLen();
  }

  lemma TitledNameMinLen() ensures MinLen(TitledName()) == 5 {
    TitleMinLen();
    CapWordsMinLen();
  }

  lemma NameBeforeVerbMinLen() ensures MinLen(NameBeforeVerb()) == 2 {
    CapWordsMinLen();
  }

  lemma PhoneMinLen() ensures MinLen(Phone()) == 10 {
    DigitRunsMinLen();
  }

  lemma ParenPhoneMinLen() ensures MinLen(ParenPhone()) == 12 {
    DigitRunsMinLen();
  }

  lemma EmailMinLen() ensures MinLen(Email()) == 6 {
    MailMinLen();
  }

  lemma BirthDateMinLen() ensures MinLen(BirthDate()) == 9 {
    DobLabelMinLen();
    DateBodyMinLen();
  }

  lemma DateMinLen() ensures MinLen(Date()) == 6 {
    DateBodyMinLen();
  }

  lemma PatientIdMinLen() ensures MinLen(PatientId()) == 7 {
    IdLabelMinLen();
    IdCodeMinLen();
  }

  lemma AddressMinLen() ensures MinLen(Address()) == 7 {
    CapWordsMinLen();
    StreetSuffixMinLen();
  }

  lemma SsnMinLen() ensures MinLen(Ssn()) == 11 {
    DigitRunsMinLen();
  }

  lemma InsuranceMinLen() ensures MinLen(Insurance()) == 12 {
    PolicyLabelMinLen();
    PolicyCodeMinLen();
  }

  /** No rule after the date-of-birth rule can match inside a five-character placeholder. */
  lemma PlaceholderPassesLastSix(d: string)
    requires |d| <= 5
    ensures Apply(DateRule(), d) == d
    ensures ApplyAll(PiiRules()[7..], d) == d
  {
    DateMinLen();
    PatientIdMinLen();
    AddressMinLen();
    SsnMinLen();
    InsuranceMinLen();
    ShorterThanPattern(DateRule(), d);
    ShorterThanPattern(PatientIdRule(), d);
    ShorterThanPattern(AddressRule(), d);
    ShorterThanPattern(SsnRule(), d);
    ShorterThanPattern(InsuranceRule(), d);
    LastFourFixed(d);
  }

  // ---------------------------------------------------------------------------
  // Gates: what a text must offer at a position for a pattern to match there

  /** A phone number needs ten characters, the first three digits. */
  function PhoneGate(): Gate { Gate(10, [Digit, Digit, Digit], false, []) }

  /** A date needs six characters, a word boundary and a digit first. */
  function DateGate(): Gate { Gate(6, [Digit], true, []) }

  /** A date at least starts with a digit. */
  function DigitGate(): Gate { Gate(0, [Digit], false, []) }

  lemma ThreeDigitsHeads() ensures Rigid(ThreeDigits()) && Heads(ThreeDigits()) == [Digit, Digit, Digit] { }

  lemma PhoneHeads() ensures [Digit, Digit, Digit] <= Heads(Phone()) {
    ThreeDigitsHeads();
  }

  lemma PhoneGateCovers() ensures Covers(PhoneGate(), Phone()) {
    PhoneMinLen();
    PhoneHeads();
  }

  lemma DayOrMonthHeads() ensures Heads(DayOrMonth()) == [Digit] { }

  lemma DateHeads() ensures [Digit] <= Heads(Date()) && LeadsWithBoundary(Date()) {
    DayOrMonthHeads();
  }

  lemma DateGateCovers() ensures Covers(DateGate(), Date()) && Covers(DigitGate(), Date()) {
    DateMinLen();
    DateHeads();
  }

  lemma CapWordsNeedLower() ensures Lowers() in Mandatory(CapWords()) { }

  /** A name, after a title or before a verb, needs a lower-case letter. */
  lemma TitledNameNeedsLower() ensures Covers(Gate(0, [], false, [Lowers()]), TitledName()) {
    CapWordsNeedLower();
  }

  lemma NameBeforeVerbNeedsLower() ensures Covers(Gate(0, [], false, [Lowers()]), NameBeforeVerb()) {
    CapWordsNeedLower();
  }

  lemma ParenPhoneNeedsParen() ensures Covers(Gate(0, [], false, [Is('(')]), ParenPhone()) { }

  lemma EmailNeedsAt() ensures Covers(Gate(0, [], false, [Is('@')]), Email()) { }

  lemma AddressNeedsSpace() ensures Covers(Gate(0, [], false, [Space]), Address()) {
    assert Mandatory(Gaps()) == [Space];
  }

  /** The labels of the date-of-birth and the record-number patterns start with a letter. */
  function DobInitials(): CharClass { Initials(["DOB", "Date of Birth", "born on", "birthday"]) }

  function IdInitials(): CharClass { Initials(["MRN", "Patient ID", "Record #", "ID"]) }

  lemma LabelHeads()
    ensures Heads(DobLabel()) != [] && Heads(DobLabel())[0] == DobInitials()
    ensures Heads(IdLabel()) != [] && Heads(IdLabel())[0] == IdInitials()
  {
    AnyLitHeads(["DOB", "Date of Birth", "born on", "birthday"]);
    AnyLitHeads(["MRN", "Patient ID", "Record #", "ID"]);
  }

  lemma LabelGatesCover()
    ensures Covers(Gate(0, [DobInitials()], false, []), BirthDate())
    ensures Covers(Gate(0, [IdInitials()], false, []), PatientId())
  {
    LabelHeads();
  }

  lemma InitialsAreLetters() ensures LettersOnly(DobInitials()) && LettersOnly(IdInitials()) { }

  // ---------------------------------------------------------------------------
  // Rules that find nothing in texts lacking some character

  /** A gate that needs a character absent from the text lets its rule leave the text alone. */
  lemma MissingCharFixes(rule: Rule, k: CharClass, s: string)
    requires Covers(Gate(0, [], false, [k]), rule.pattern) && !PresentFrom(k, s, 0, rule.ignoreCase)
    ensures Apply(rule, s) == s
  {
    var g := Gate(0, [], false, [k]);
    AbsentShuts(g, rule.ignoreCase, s, 0, |s|);
    ShutEverywhere(rule, g, s);
  }

  /** A text without a lower-case letter holds no patient name. */
  lemma NoLowerNoName(s: string)
    requires !PresentFrom(Lowers(), s, 0, false)
    ensures Apply(TitledNameRule(), s) == s && Apply(NameBeforeVerbRule(), s) == s
  {
    TitledNameNeedsLower();
    NameBeforeVerbNeedsLower();
    MissingCharFixes(TitledNameRule(), Lowers(), s);
    MissingCharFixes(NameBeforeVerbRule(), Lowers(), s);
  }

  /** A text without an opening parenthesis holds no phone number in parentheses. */
  lemma NoParenNoParenPhone(s: string)
    requires !PresentFrom(Is('('), s, 0, false)
    ensures Apply(ParenPhoneRule(), s) == s
  {
    ParenPhoneNeedsParen();
    MissingCharFixes(ParenPhoneRule(), Is('('), s);
  }

  /** A text without an at sign holds no e-mail address. */
  lemma NoAtNoEmail(s: string)
    requires !PresentFrom(Is('@'), s, 0, false)
    ensures Apply(EmailRule(), s) == s
  {
    EmailNeedsAt();
    MissingCharFixes(EmailRule(), Is('@'), s);
  }

  /** A text without whitespace holds no street address. */
  lemma NoSpaceNoAddress(s: string)
    requires !PresentFrom(Space, s, 0, true)
    ensures Apply(AddressRule(), s) == s
  {
    AddressNeedsSpace();
    MissingCharFixes(AddressRule(), Space, s);
  }

  /** A text without letters holds no label, hence no date of birth and no patient ID. */
  lemma NoLetterNoLabel(s: string)
    requires NoLetterFrom(s, 0)
    ensures Apply(BirthDateRule(), s) == s && Apply(PatientIdRule(), s) == s
  {
    InitialsAreLetters();
    LabelGatesCover();
    var g := Gate(0, [DobInitials()], false, []);
    LettersAbsent(DobInitials(), s, 0, true);
    HeadAbsentShuts(g, true, s, 0, |s|);
    ShutEverywhere(BirthDateRule(), g, s);
    var h := Gate(0, [IdInitials()], false, []);
    LettersAbsent(IdInitials(), s, 0, true);
    HeadAbsentShuts(h, true, s, 0, |s|);
    ShutEverywhere(PatientIdRule(), h, s);
  }

  // ---------------------------------------------------------------------------
  // Running several rules

  /** Five rules that each leave a text alone leave it alone together. */
  lemma FirstFiveFixed(s: string)
    requires Apply(TitledNameRule(), s) == s && Apply(NameBeforeVerbRule(), s) == s
    requires Apply(PhoneRule(), s) == s && Apply(ParenPhoneRule(), s) == s && Apply(EmailRule(), s) == s
    ensures ApplyAll(PiiRules()[..5], s) == s
  {
    ApplyAllSteps(PiiRules()[..5], [s, s, s, s, s, s]);
  }

  lemma LastFourFixed(s: string)
    requires Apply(PatientIdRule(), s) == s && Apply(AddressRule(), s) == s
    requires Apply(SsnRule(), s) == s && Apply(InsuranceRule(), s) == s
    ensures ApplyAll(PiiRules()[7..], s) == s
  {
    ApplyAllSteps(PiiRules()[7..], [s, s, s, s, s]);
  }

  lemma FirstNineFixed(s: string)
    requires Apply(TitledNameRule(), s) == s && Apply(NameBeforeVerbRule(), s) == s
    requires Apply(PhoneRule(), s) == s && Apply(ParenPhoneRule(), s) == s && Apply(EmailRule(), s) == s
    requires Apply(BirthDateRule(), s) == s && Apply(DateRule(), s) == s
    requires Apply(PatientIdRule(), s) == s && Apply(AddressRule(), s) == s
    ensures ApplyAll(PiiRules()[..9], s) == s
  {
    ApplyAllSteps(PiiRules()[..9], [s, s, s, s, s, s, s, s, s, s]);
  }

  lemma LastTwoSteps(s: string, t: string)
    requires Apply(SsnRule(), s) == t && Apply(InsuranceRule(), t) == t
    ensures ApplyAll(PiiRules()[9..], s) == t
  {
    ApplyAllSteps(PiiRules()[9..], [s, t, t]);
  }

  // ---------------------------------------------------------------------------
  // Where the date patterns match

  /** Two digits, a separator, two digits, a separator and four digits, then a word boundary. */
  lemma DateBodyFirst(s: string, i: nat, ignoreCase: bool)
    requires i + 10 <= |s|
    requires RunOf(Digit, s, i, 2, ignoreCase) && RunOf(Digit, s, i + 3, 2, ignoreCase) && RunOf(Digit, s, i + 6, 4, ignoreCase)
    requires s[i + 2] in "-/" && s[i + 5] in "-/"
    requires AtBoundary(s, i + 10)
    ensures FirstEnd(DateBody(), s, i, ignoreCase, i + 10)
  {
    BetweenFirst(Digit, 1, 2, s, i, 2, ignoreCase);
    BetweenFirst(Digit, 1, 2, s, i + 3, 2, ignoreCase);
    BetweenFirst(Digit, 2, 4, s, i + 6, 4, ignoreCase);
    var year := Cat(YearDigits(), WordBoundary);
    CatFirst(YearDigits(), WordBoundary, s, i + 6, i + 10, i + 10, ignoreCase);
    CatFirst(DateSep(), year, s, i + 5, i + 6, i + 10, ignoreCase);
    CatFirst(DayOrMonth(), Cat(DateSep(), year), s, i + 3, i + 5, i + 10, ignoreCase);
    CatFirst(DateSep(), Cat(DayOrMonth(), Cat(DateSep(), year)), s, i + 2, i + 3, i + 10, ignoreCase);
    CatFirst(DayOrMonth(), Cat(DateSep(), Cat(DayOrMonth(), Cat(DateSep(), year))), s, i, i + 2, i + 10, ignoreCase);
  }

  /** `DOB` is the first of the four labels. */
  lemma DobLabelFirst(s: string, i: nat, ignoreCase: bool)
    requires i + 3 <= |s| && s[i] == 'D' && s[i + 1] == 'O' && s[i + 2] == 'B'
    ensures FirstEnd(DobLabel(), s, i, ignoreCase, i + 3)
  {
    AnyLitFirst(["DOB", "Date of Birth", "born on", "birthday"], 0, s, i, ignoreCase);
  }

  /** m separators after a label, then a full date. */
  lemma GapThenDateFirst(s: string, j: nat, m: nat, ignoreCase: bool)
    requires j + 10 + m <= |s|
    requires RunOf(Either(Space, Is(':')), s, j, m, ignoreCase) && StopsAt(Either(Space, Is(':')), s, j + m, ignoreCase)
    requires RunOf(Digit, s, j + m, 2, ignoreCase) && RunOf(Digit, s, j + 3 + m, 2, ignoreCase) && RunOf(Digit, s, j + 6 + m, 4, ignoreCase)
    requires s[j + 2 + m] in "-/" && s[j + 5 + m] in "-/"
    requires AtBoundary(s, j + 10 + m)
    ensures FirstEnd(Cat(LabelGap(), DateBody()), s, j, ignoreCase, j + 10 + m)
  {
    StarFirst(Either(Space, Is(':')), s, j, m, ignoreCase);
    DateBodyFirst(s, j + m, ignoreCase);
    CatFirst(LabelGap(), DateBody(), s, j, j + m, j + 10 + m, ignoreCase);
  }

  /** A label at a word boundary, then separators and a full date: the date-of-birth pattern takes all of it. */
  lemma BirthDateFirst(s: string, i: nat, e: nat, ignoreCase: bool)
    requires i + 3 <= e <= |s| && AtBoundary(s, i)
    requires FirstEnd(DobLabel(), s, i, ignoreCase, i + 3)
    requires FirstEnd(Cat(LabelGap(), DateBody()), s, i + 3, ignoreCase, e)
    ensures FirstEnd(BirthDate(), s, i, ignoreCase, e)
  {
    CatFirst(DobLabel(), Cat(LabelGap(), DateBody()), s, i, i + 3, e, ignoreCase);
    CatAfterOne(WordBoundary, Cat(DobLabel(), Cat(LabelGap(), DateBody())), s, i, i, ignoreCase);
  }

  // ---------------------------------------------------------------------------
  // "DOB: 01/02/1990"

  function DobText(): string { "DOB: 01/02/1990" }

  predicate DobShaped(s: string) {
    && |s| == 15 && s[0] == 'D' && s[1] == 'O' && s[2] == 'B' && s[3] == ':' && s[4] == ' '
    && s[5] == '0' && s[6] == '1' && s[7] == '/' && s[8] == '0' && s[9] == '2' && s[10] == '/'
    && s[11] == '1' && s[12] == '9' && s[13] == '9' && s[14] == '0'
  }

  lemma DobTextShaped() ensures DobShaped(DobText()) { }

  // What the example text lacks, checked character by character.

  lemma DobTextHasNoLower() ensures !PresentFrom(Lowers(), DobText(), 0, false) { }
  lemma DobTextHasNoParen() ensures !PresentFrom(Is('('), DobText(), 0, false) { }
  lemma DobTextHasNoAt() ensures !PresentFrom(Is('@'), DobText(), 0, false) { }
  lemma PhoneGateOnDobLabel() ensures ShutSpan(PhoneGate(), false, DobText(), 0, 6) { }

  /** Past position 5 fewer than ten characters are left. */
  lemma PhoneGateOnDobText() ensures ShutSpan(PhoneGate(), false, DobText(), 0, 15) {
    PhoneGateOnDobLabel();
    TooShortShuts(PhoneGate(), false, DobText(), 6, 15);
    ShutSpanJoin(PhoneGate(), false, DobText(), 0, 6, 15);
  }
  lemma DigitGateOnDobLabel() ensures ShutSpan(DigitGate(), false, DobText(), 0, 5) { }

  lemma DobDigits(s: string, ignoreCase: bool)
    requires DobShaped(s)
    ensures RunOf(Digit, s, 5, 2, ignoreCase) && RunOf(Digit, s, 8, 2, ignoreCase) && RunOf(Digit, s, 11, 4, ignoreCase)
    ensures s[7] in "-/" && s[10] in "-/" && AtBoundary(s, 5) && AtBoundary(s, 15)
  {
  }

  /** The colon and the space after the label, then a digit. */
  lemma DobLabelGap(s: string, ignoreCase: bool)
    requires DobShaped(s)
    ensures RunOf(Either(Space, Is(':')), s, 3, 2, ignoreCase)
  {
  }

  lemma DobGapStops(s: string, ignoreCase: bool)
    requires DobShaped(s)
    ensures StopsAt(Either(Space, Is(':')), s, 5, ignoreCase)
  {
  }

  /** `DOB` at the start, then separators and a date that run to the end. */
  lemma DobLabelledDate(s: string, ignoreCase: bool)
    requires 3 <= |s| && AtBoundary(s, 0) && s[0] == 'D' && s[1] == 'O' && s[2] == 'B'
    requires FirstEnd(Cat(LabelGap(), DateBody()), s, 3, ignoreCase, |s|)
    ensures FirstEnd(BirthDate(), s, 0, ignoreCase, |s|)
  {
    DobLabelFirst(s, 0, ignoreCase);
    BirthDateFirst(s, 0, |s|, ignoreCase);
  }

  /** Under either case setting, the date-of-birth pattern takes the whole text. */
  lemma DobMatchesBirthDate(s: string, ignoreCase: bool)
    requires DobShaped(s)
    ensures FirstEnd(BirthDate(), s, 0, ignoreCase, 15)
  {
    DobDigits(s, ignoreCase);
    DobLabelGap(s, ignoreCase);
    DobGapStops(s, ignoreCase);
    GapThenDateFirst(s, 3, 2, ignoreCase);
    assert AtBoundary(s, 0);
    DobLabelledDate(s, ignoreCase);
  }

  lemma DobIsBirthDate(s: string)
    requires DobShaped(s)
    ensures Apply(BirthDateRule(), s) == "[DOB]"
  {
    DobMatchesBirthDate(s, true);
    RuleTakesAll(BirthDateRule(), s);
  }

  lemma DobPassesFirstFive(s: string)
    requires !PresentFrom(Lowers(), s, 0, false) && !PresentFrom(Is('('), s, 0, false) && !PresentFrom(Is('@'), s, 0, false)
    requires ShutSpan(PhoneGate(), false, s, 0, |s|)
    ensures ApplyAll(PiiRules()[..5], s) == s
  {
    NoLowerNoName(s);
    PhoneGateCovers();
    ShutEverywhere(PhoneRule(), PhoneGate(), s);
    NoParenNoParenPhone(s);
    NoAtNoEmail(s);
    FirstFiveFixed(s);
  }

  /**
   * The whole rule list on a date of birth: the date-of-birth rule runs
   * before the plain date rule and takes the label with the date.
   */
  lemma DobBecomesDobPlaceholder(s: string)
    requires DobShaped(s)
    requires !PresentFrom(Lowers(), s, 0, false) && !PresentFrom(Is('('), s, 0, false) && !PresentFrom(Is('@'), s, 0, false)
    requires ShutSpan(PhoneGate(), false, s, 0, |s|)
    ensures RemoveSensitiveInfo(Some(s)) == "[DOB]"
  {
    DobPassesFirstFive(s);
    DobIsBirthDate(s);
    PlaceholderPassesLastSix("[DOB]");
    BirthDateRunsBeforeDate(s);
  }

  /** `remove_sensitive_info("DOB: 01/02/1990")` is `[DOB]`. */
  lemma DobTextRedacted()
    ensures RemoveSensitiveInfo(Some(DobText())) == "[DOB]"
  {
    DobTextShaped();
    DobTextHasNoLower();
    DobTextHasNoParen();
    DobTextHasNoAt();
    PhoneGateOnDobText();
    DobBecomesDobPlaceholder(DobText());
  }

  lemma DateAfterLabel(s: string)
    requires DobShaped(s)
    ensures FirstEnd(Date(), s, 5, false, 15)
  {
    DobDigits(s, false);
    DateBodyFirst(s, 5, false);
    CatAfterOne(WordBoundary, DateBody(), s, 5, 5, false);
  }

  /** The plain date rule on its own would keep the label: order is what makes the result `[DOB]`. */
  lemma DateRuleAloneKeepsLabel(s: string)
    requires DobShaped(s) && ShutSpan(DigitGate(), false, s, 0, 5)
    ensures Apply(DateRule(), s) == s[..5] + "[DATE]"
  {
    DateGateCovers();
    DateAfterLabel(s);
    ShutThenToEnd(Date(), DigitGate(), false, "[DATE]", s, 5);
  }

  /** `re.sub` with the plain date pattern alone on "DOB: 01/02/1990" gives "DOB: [DATE]". */
  lemma DobTextUnderDateRule()
    ensures Apply(DateRule(), DobText()) == "DOB: [DATE]"
  {
    DobTextShaped();
    DigitGateOnDobLabel();
    DateRuleAloneKeepsLabel(DobText());
    DobTextLabel();
  }

  lemma DobTextLabel() ensures DobText()[..5] == "DOB: " { }

  // ---------------------------------------------------------------------------
  // "123-45-6789"

  function SsnText(): string { "123-45-6789" }

  predicate SsnShaped(s: string) {
    && |s| == 11 && s[0] == '1' && s[1] == '2' && s[2] == '3' && s[3] == '-' && s[4] == '4' && s[5] == '5'
    && s[6] == '-' && s[7] == '6' && s[8] == '7' && s[9] == '8' && s[10] == '9'
  }

  lemma SsnTextShaped() ensures SsnShaped(SsnText()) { }

  lemma SsnTextHasNoLower() ensures !PresentFrom(Lowers(), SsnText(), 0, false) { }
  lemma SsnTextHasNoParen() ensures !PresentFrom(Is('('), SsnText(), 0, false) { }
  lemma SsnTextHasNoAt() ensures !PresentFrom(Is('@'), SsnText(), 0, false) { }
  lemma SsnTextHasNoSpace() ensures !PresentFrom(Space, SsnText(), 0, true) { }
  lemma SsnTextHasNoLetter() ensures NoLetterFrom(SsnText(), 0) { }
  lemma PhoneGateOnSsnText() ensures ShutSpan(PhoneGate(), false, SsnText(), 1, 11) { }
  lemma DateGateOnSsnText()
    ensures ShutSpan(DateGate(), false, SsnText(), 1, 4) && ShutSpan(DateGate(), false, SsnText(), 5, 11)
  {
  }

  /** Three digits, a dash and two digits: the phone pattern needs three digits after the dash. */
  lemma PhoneMissesSsnAtStart(s: string)
    requires SsnShaped(s)
    ensures Ends(Phone(), s, 0, false) == []
  {
    var tail := Cat(ThreeDigits(), Cat(PhoneSep(), Cat(FourDigits(), WordBoundary)));
    assert Ends(PhoneSep(), s, 3, false) == [4, 3];
    TimesShort(Digit, 3, s, 4, 2, false);
    TimesShort(Digit, 3, s, 3, 0, false);
    CatNone(ThreeDigits(), Cat(PhoneSep(), Cat(FourDigits(), WordBoundary)), s, 4, false);
    CatNone(ThreeDigits(), Cat(PhoneSep(), Cat(FourDigits(), WordBoundary)), s, 3, false);
    CatNoneOfTwo(PhoneSep(), tail, s, 3, 4, 3, false);
    TimesEnds(Digit, 3, s, 0, false);
    CatAfterOne(ThreeDigits(), Cat(PhoneSep(), tail), s, 0, 3, false);
    CatAfterOne(WordBoundary, Cat(ThreeDigits(), Cat(PhoneSep(), tail)), s, 0, 0, false);
  }

  lemma SsnHasNoPhone(s: string)
    requires SsnShaped(s) && ShutSpan(PhoneGate(), false, s, 1, 11)
    ensures Apply(PhoneRule(), s) == s
  {
    PhoneMissesSsnAtStart(s);
    PhoneGateCovers();
    MissThenShut(PhoneRule(), PhoneGate(), s);
  }

  /** At the start: after `12` or `1` comes a digit, not a date separator. */
  lemma DateMissesSsnAtStart(s: string)
    requires SsnShaped(s)
    ensures Ends(Date(), s, 0, false) == []
  {
    var rest := Cat(DateSep(), Cat(DayOrMonth(), Cat(DateSep(), Cat(YearDigits(), WordBoundary))));
    BetweenEnds(Digit, 1, 2, s, 0, 2, false);
    assert Desc(2, 1) == [2, 1];
    assert Ends(DateSep(), s, 2, false) == [] && Ends(DateSep(), s, 1, false) == [];
    CatNone(DateSep(), Cat(DayOrMonth(), Cat(DateSep(), Cat(YearDigits(), WordBoundary))), s, 2, false);
    CatNone(DateSep(), Cat(DayOrMonth(), Cat(DateSep(), Cat(YearDigits(), WordBoundary))), s, 1, false);
    CatNoneOfTwo(DayOrMonth(), rest, s, 0, 2, 1, false);
    CatAfterOne(WordBoundary, DateBody(), s, 0, 0, false);
  }

  /** After `45-67` comes a digit, not a date separator. */
  lemma DateTailMissesSsn(s: string)
    requires SsnShaped(s)
    ensures Ends(Cat(DayOrMonth(), Cat(DateSep(), Cat(YearDigits(), WordBoundary))), s, 7, false) == []
  {
    BetweenEnds(Digit, 1, 2, s, 7, 2, false);
    assert Desc(9, 8) == [9, 8];
    assert Ends(DateSep(), s, 9, false) == [] && Ends(DateSep(), s, 8, false) == [];
    CatNone(DateSep(), Cat(YearDigits(), WordBoundary), s, 9, false);
    CatNone(DateSep(), Cat(YearDigits(), WordBoundary), s, 8, false);
    CatNoneOfTwo(DayOrMonth(), Cat(DateSep(), Cat(YearDigits(), WordBoundary)), s, 7, 9, 8, false);
  }

  /** After the first dash: `45-67` is followed by a digit, and `4` by no separator. */
  lemma DateMissesSsnAfterDash(s: string)
    requires SsnShaped(s)
    ensures Ends(Date(), s, 4, false) == []
  {
    var second := Cat(DayOrMonth(), Cat(DateSep(), Cat(YearDigits(), WordBoundary)));
    DateTailMissesSsn(s);
    assert Ends(DateSep(), s, 6, false) == [7] && Ends(DateSep(), s, 5, false) == [];
    CatAfterOne(DateSep(), second, s, 6, 7, false);
    CatNone(DateSep(), second, s, 5, false);
    BetweenEnds(Digit, 1, 2, s, 4, 2, false);
    assert Desc(6, 5) == [6, 5];
    CatNoneOfTwo(DayOrMonth(), Cat(DateSep(), second), s, 4, 6, 5, false);
    CatAfterOne(WordBoundary, DateBody(), s, 4, 4, false);
  }

  lemma SsnHasNoDate(s: string)
    requires SsnShaped(s) && ShutSpan(DateGate(), false, s, 1, 4) && ShutSpan(DateGate(), false, s, 5, 11)
    ensures Apply(DateRule(), s) == s
  {
    DateMissesSsnAtStart(s);
    DateMissesSsnAfterDash(s);
    DateGateCovers();
    MissTwiceThenShut(DateRule(), DateGate(), s, 4);
  }

  /** Three digits, a dash, two digits, a dash and four digits between word boundaries: an SSN. */
  lemma SsnFirst(s: string, i: nat)
    requires i + 11 <= |s| && AtBoundary(s, i) && AtBoundary(s, i + 11)
    requires RunOf(Digit, s, i, 3, false) && RunOf(Digit, s, i + 4, 2, false) && RunOf(Digit, s, i + 7, 4, false)
    requires s[i + 3] == '-' && s[i + 6] == '-'
    ensures FirstEnd(Ssn(), s, i, false, i + 11)
  {
    var dash := One(Is('-'));
    TimesEnds(Digit, 3, s, i, false);
    TimesEnds(Digit, 2, s, i + 4, false);
    TimesEnds(Digit, 4, s, i + 7, false);
    CatAfterOne(FourDigits(), WordBoundary, s, i + 7, i + 11, false);
    CatAfterOne(dash, Cat(FourDigits(), WordBoundary), s, i + 6, i + 7, false);
    CatAfterOne(TwoDigits(), Cat(dash, Cat(FourDigits(), WordBoundary)), s, i + 4, i + 6, false);
    CatAfterOne(dash, Cat(TwoDigits(), Cat(dash, Cat(FourDigits(), WordBoundary))), s, i + 3, i + 4, false);
    CatAfterOne(ThreeDigits(), Cat(dash, Cat(TwoDigits(), Cat(dash, Cat(FourDigits(), WordBoundary)))), s, i, i + 3, false);
    CatAfterOne(WordBoundary, Cat(ThreeDigits(), Cat(dash, Cat(TwoDigits(), Cat(dash, Cat(FourDigits(), WordBoundary))))),
                s, i, i, false);
  }

  lemma SsnIsSsn(s: string)
    requires SsnShaped(s)
    ensures Apply(SsnRule(), s) == "[SSN]"
  {
    assert AtBoundary(s, 0) && AtBoundary(s, 11);
    assert RunOf(Digit, s, 0, 3, false) && RunOf(Digit, s, 4, 2, false) && RunOf(Digit, s, 7, 4, false);
    SsnFirst(s, 0);
    SubToEnd(Ssn(), false, "[SSN]", s, 0);
  }

  /** The whole rule list on an isolated social security number. */
  lemma SsnBecomesSsnPlaceholder(s: string)
    requires SsnShaped(s) && NoLetterFrom(s, 0)
    requires !PresentFrom(Lowers(), s, 0, false) && !PresentFrom(Is('('), s, 0, false) && !PresentFrom(Is('@'), s, 0, false)
    requires !PresentFrom(Space, s, 0, true)
    requires ShutSpan(PhoneGate(), false, s, 1, 11)
    requires ShutSpan(DateGate(), false, s, 1, 4) && ShutSpan(DateGate(), false, s, 5, 11)
    ensures RemoveSensitiveInfo(Some(s)) == "[SSN]"
  {
    NoLowerNoName(s);
    SsnHasNoPhone(s);
    NoParenNoParenPhone(s);
    NoAtNoEmail(s);
    NoLetterNoLabel(s);
    SsnHasNoDate(s);
    NoSpaceNoAddress(s);
    FirstNineFixed(s);
    SsnIsSsn(s);
    InsuranceMinLen();
    ShorterThanPattern(InsuranceRule(), "[SSN]");
    LastTwoSteps(s, "[SSN]");
    RulesSplitAt(s, 9);
  }

  /** `remove_sensitive_info("123-45-6789")` is `[SSN]`. */
  lemma SsnTextRedacted()
    ensures RemoveSensitiveInfo(Some(SsnText())) == "[SSN]"
  {
    SsnTextShaped();
    SsnTextHasNoLetter();
    SsnTextHasNoLower();
    SsnTextHasNoParen();
    SsnTextHasNoAt();
    SsnTextHasNoSpace();
    PhoneGateOnSsnText();
    DateGateOnSsnText();
    SsnBecomesSsnPlaceholder(SsnText());
  }
}
