/**
 * How `clean_qa_data` decides which columns hold the question, the answer
 * and the category: a scan over the column names in order, then positional
 * fallbacks, then an error when the question or the answer is still unknown.
 */
module Columns {
  import opened Wrappers
  import opened Chars

  datatype Role = QuestionRole | AnswerRole | CategoryRole | NoRole

  /**
   * The `if/elif` chain of the scan on `str(col).lower()`: substring tests,
   * except that "q" and "a" must be the whole name; question beats answer,
   * answer beats category.
   */
  function RoleOf(name: string): Role {
    var low := Lower(name);
    if Contains(low, "question") || low == "q" then QuestionRole
    else if Contains(low, "answer") || low == "a" || Contains(low, "ans") then AnswerRole
    else if Contains(low, "topic") || Contains(low, "category") || Contains(low, "cat") || Contains(low, "subject") then CategoryRole
    else NoRole
  }

  /** The last column whose name has the role: later matches overwrite earlier ones. */
  function LastOfRole(cols: seq<string>, role: Role): (r: Option<nat>)
    ensures r.Some? ==> r.value < |cols| && RoleOf(cols[r.value]) == role
    ensures r.Some? ==> forall j :: r.value < j < |cols| ==> RoleOf(cols[j]) != role
    ensures r.None? ==> forall j :: 0 <= j < |cols| ==> RoleOf(cols[j]) != role
    decreases |cols|
  {
    if cols == [] then None
    else if RoleOf(cols[|cols| - 1]) == role then Some(|cols| - 1)
    else LastOfRole(cols[..|cols| - 1], role)
  }

  /** The columns chosen for one run; the category column is optional. */
  datatype ColumnMap = ColumnMap(question: nat, answer: nat, category: Option<nat>)

  /** `ValueError("Could not identify question and answer columns")`. */
  datatype ConfigError = CouldNotIdentifyColumns

  /** A role found by name, else the column at position k when the table has one. */
  function OrPosition(found: Option<nat>, k: nat, width: nat): Option<nat> {
    if found.Some? then found else if k < width then Some(k) else None
  }

  /** The mapping the scan and its fallbacks produce. */
  function Resolve(cols: seq<string>): Result<ColumnMap, ConfigError> {
    var q := OrPosition(LastOfRole(cols, QuestionRole), 0, |cols|);
    var a := OrPosition(LastOfRole(cols, AnswerRole), 1, |cols|);
    var c := OrPosition(LastOfRole(cols, CategoryRole), 2, |cols|);
    if q.None? || a.None? then Failure(CouldNotIdentifyColumns)
    else Success(ColumnMap(q.value, a.value, c))
  }

  /** The column scan of `clean_qa_data`, one name at a time. */
  method InferColumns(cols: seq<string>) returns (r: Result<ColumnMap, ConfigError>)
    ensures r == Resolve(cols)
    ensures r.Success? ==> r.value.question < |cols| && r.value.answer < |cols|
    ensures r.Success? && r.value.category.Some? ==> r.value.category.value < |cols|
  {
    var question: Option<nat> := None;
    var answer: Option<nat> := None;
    var category: Option<nat> := None;
    var i := 0;
    while i < |cols|
      invariant 0 <= i <= |cols|
      invariant question == LastOfRole(cols[..i], QuestionRole)
      invariant answer == LastOfRole(cols[..i], AnswerRole)
      invariant category == LastOfRole(cols[..i], CategoryRole)
    {
      var role := RoleOf(cols[i]);
      LastOfRoleSnoc(cols, i, role, QuestionRole);
      LastOfRoleSnoc(cols, i, role, AnswerRole);
      LastOfRoleSnoc(cols, i, role, CategoryRole);
      if role == QuestionRole {
        question := Some(i);
      } else if role == AnswerRole {
        answer := Some(i);
      } else if role == CategoryRole {
        category := Some(i);
      }
      i := i + 1;
    }
    assert cols[..|cols|] == cols;
    if question.None? && |cols| > 0 {
      question := Some(0);
    }
    if answer.None? && |cols| > 1 {
      answer := Some(1);
    }
    if category.None? && |cols| > 2 {
      category := Some(2);
    }
    if question.None? || answer.None? {
      return Failure(CouldNotIdentifyColumns);
    }
    r := Success(ColumnMap(question.value, answer.value, category));
  }

  /** One more column: it is the last of its role, and the other roles keep their columns. */
  lemma LastOfRoleSnoc(cols: seq<string>, i: nat, found: Role, role: Role)
    requires i < |cols| && RoleOf(cols[i]) == found
    ensures LastOfRole(cols[..i + 1], role) == if found == role then Some(i) else LastOfRole(cols[..i], role)
  {
    assert cols[..i + 1][..i] == cols[..i];
  }

  /** The run is refused exactly when there is no column, or no answer column by name and only one column. */
  lemma ResolveFailsIff(cols: seq<string>)
    ensures Resolve(cols).Failure? <==>
      |cols| == 0 || (|cols| < 2 && forall j :: 0 <= j < |cols| ==> RoleOf(cols[j]) != AnswerRole)
  {
  }

  /**
   * Each role found by name goes to the last column with that role, so a
   * question column is never taken as the answer or the category by name;
   * a role found by no name falls back to its position.
   */
  lemma ResolveRoles(cols: seq<string>, role: Role, j: nat)
    requires Resolve(cols).Success?
    requires j < |cols| && RoleOf(cols[j]) == role
    ensures role == QuestionRole ==> j <= Resolve(cols).value.question && RoleOf(cols[Resolve(cols).value.question]) == QuestionRole
    ensures role == AnswerRole ==> j <= Resolve(cols).value.answer && RoleOf(cols[Resolve(cols).value.answer]) == AnswerRole
    ensures role == CategoryRole ==>
      (Resolve(cols).value.category.Some? &&
       j <= Resolve(cols).value.category.value &&
       RoleOf(cols[Resolve(cols).value.category.value]) == CategoryRole)
  {
  }

  /**
   * The fallbacks do not check that the columns differ: with a notes column
   * first and the question column second, the question column is also taken
   * as the answer.
   */
  lemma FallbackMayReuseQuestionColumn()
    ensures Resolve(["Notes", "Question"]) == Success(ColumnMap(1, 1, None))
  {
    var cols := ["Notes", "Question"];
    NotesHasNoRole();
    QuestionIsQuestion();
    assert LastOfRole(cols, QuestionRole) == Some(1);
    assert LastOfRole(cols, AnswerRole) == None;
    assert LastOfRole(cols, CategoryRole) == None;
  }

  lemma QuestionIsQuestion()
    ensures RoleOf("Question") == QuestionRole
  {
    assert Lower("Question") == "question";
  }

  lemma NotesHasNoRole()
    ensures RoleOf("Notes") == NoRole
  {
    assert Lower("Notes") == "notes";
    assert !Contains("notes", "question") && !Contains("notes", "answer") && !Contains("notes", "ans");
    assert !Contains("notes", "topic") && !Contains("notes", "category");
    assert !Contains("notes", "cat") && !Contains("notes", "subject");
  }
}
