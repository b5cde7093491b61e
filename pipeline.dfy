/**
 * The record loop of `clean_qa_data`: every row is normalised, given a
 * category, validated, redacted, rephrased and checked against the questions
 * already accepted; five counters record what happened to the rows.
 */
module Pipeline {
  import opened Wrappers
  import opened Normalize
  import opened Columns
  import opened Redaction
  import opened Rephrasing
  import opened Similarity
  import opened Aibot
  import opened Chars

  /** One spreadsheet row, cell by column position; None is a missing or NaN cell. */
  type Row = seq<Option<string>>

  /** The uploaded sheet: its header names and its rows. */
  datatype Table = Table(columns: seq<string>, rows: seq<Row>)

  /** The `stats` dict. */
  datatype Stats = Stats(
    originalCount: nat,
    duplicatesRemoved: nat,
    issuesFixed: nat,
    sensitiveInfoRemoved: nat,
    questionsRephrased: nat)

  /** One entry of `cleaned_data`. */
  datatype CleanedRecord = CleanedRecord(category: string, question: string, answer: string)

  /** What the loop has built so far: `cleaned_data`, `seen_questions` and `stats`. */
  datatype RunState = RunState(records: seq<CleanedRecord>, seen: seq<string>, stats: Stats)

  /** What a successful call returns. */
  datatype Output = Output(records: seq<CleanedRecord>, stats: Stats)

  /** `row[col]`; a position past the end of a short row reads as a missing cell. */
  function Cell(row: Row, k: nat): (c: Option<string>)
    ensures k >= |row| ==> c.None?
  {
    if k < |row| then row[k] else None
  }

  /** `category_col and category_col in df.columns and pd.notna(row[category_col])`. */
  predicate HasCategoryCell(row: Row, cols: seq<string>, m: ColumnMap) {
    m.category.Some? && m.category.value < |cols| && cols[m.category.value] != "" && Cell(row, m.category.value).Some?
  }

  /**
   * The category of a row: the cleaned category cell when there is a category
   * column with a non-empty name and the cell is present; otherwise a service
   * reply, and "General" without one.
   */
  function CategoryOf(row: Row, cols: seq<string>, m: ColumnMap, useLlm: bool): (c: string)
    ensures HasCategoryCell(row, cols, m) ==> c == CleanText(Cell(row, m.category.value))
    ensures !HasCategoryCell(row, cols, m) ==> c == "General"
  {
    if HasCategoryCell(row, cols, m) then
      CleanText(Cell(row, m.category.value))
    else
      match Reply(useLlm)
      case Some(reply) => if reply != "" then reply else "General"
      case None => "General"
  }

  /** Some element of xs passes the test p. */
  predicate AnyOf(xs: seq<string>, p: string -> bool) {
    exists j :: 0 <= j < |xs| && p(xs[j])
  }

  /**
   * The three text helpers the loop calls on a valid row: `remove_sensitive_info`
   * on both texts, `rephrase_question` on the question and `is_similar_question`
   * against each accepted question. The row functions take them as values, so
   * what is proved about the loop rests only on what is stated about them.
   */
  datatype Helpers = Helpers(redact: string -> string, rephrase: string -> string, similar: (string, string) -> bool)

  /** The helpers as the code calls them, with the assistant unavailable and the threshold 0.8. */
  function Offline(useLlm: bool): Helpers {
    Helpers(s => RemoveSensitiveInfo(Some(s)), q => RephraseQuestion(q, useLlm), (q1, q2) => IsSimilarQuestion(q1, q2, 4, 5, useLlm))
  }

  /** The test "q is similar to it" on the accepted questions. */
  function SimilarTo(hs: Helpers, q: string): string -> bool {
    s => hs.similar(q, s)
  }

  /** The new question is similar to some accepted question. */
  predicate SimilarToAny(hs: Helpers, q: string, seen: seq<string>) {
    AnyOf(seen, SimilarTo(hs, q))
  }

  /**
   * What the record properties need of the helpers: redaction leaves at
   * least five characters of a longer text, rephrasing ends a non-empty
   * question with `?` and leaves at least seven characters of a longer one.
   */
  ghost predicate Keeps(hs: Helpers) {
    && (forall s :: |hs.redact(s)| >= (if |s| < 5 then |s| else 5))
    && (forall q :: q != [] ==> EndsWithQuestionMark(hs.rephrase(q)))
    && (forall q :: |hs.rephrase(q)| >= (if |q| < 7 then |q| else 7))
  }

  /** Two sets of helpers that agree on every input. */
  ghost predicate Agree(hs1: Helpers, hs2: Helpers) {
    && (forall s :: hs1.redact(s) == hs2.redact(s))
    && (forall q :: hs1.rephrase(q) == hs2.rephrase(q))
    && (forall q1, q2 :: hs1.similar(q1, q2) == hs2.similar(q1, q2))
  }

  /** A row dropped by validation: only `issues_fixed` moves. */
  function Reject(st: RunState): RunState {
    st.(stats := st.stats.(issuesFixed := st.stats.issuesFixed + 1))
  }

  /** A valid row: redact both texts, rephrase the question, then drop it as a duplicate or accept it. */
  function Admit(st: RunState, category: string, question: string, answer: string, hs: Helpers, useLlm: bool): RunState {
    var q1 := hs.redact(question);
    var a1 := hs.redact(answer);
    var q2 := hs.rephrase(q1);
    var stats := st.stats.(
      sensitiveInfoRemoved := st.stats.sensitiveInfoRemoved + (if q1 != question || a1 != answer then 1 else 0),
      questionsRephrased := st.stats.questionsRephrased + (if q2 != q1 then 1 else 0));
    if SimilarToAny(hs, q2, st.seen) then
      RunState(st.records, st.seen, stats.(duplicatesRemoved := stats.duplicatesRemoved + 1))
    else
      RunState(st.records + [CleanedRecord(category, q2, a1)], st.seen + [q2], stats)
  }

  /** One pass of the loop body over one row. */
  function Step(st: RunState, row: Row, cols: seq<string>, m: ColumnMap, hs: Helpers, useLlm: bool): RunState {
    var question := CleanText(Cell(row, m.question));
    var answer := CleanText(Cell(row, m.answer));
    var category := CategoryOf(row, cols, m, useLlm);
    if question == "" || answer == "" then Reject(st)
    else if |question| < 3 || |answer| < 3 then Reject(st)
    else Admit(st, category, question, answer, hs, useLlm)
  }

  /** The state before the first row. */
  function Initial(n: nat): RunState {
    RunState([], [], Stats(n, 0, 0, 0, 0))
  }

  /** The loop body applied to the rows in order, starting from Initial(n). */
  function RunRows(rows: seq<Row>, cols: seq<string>, m: ColumnMap, hs: Helpers, useLlm: bool, n: nat): RunState
    decreases |rows|
  {
    if rows == [] then Initial(n)
    else Step(RunRows(rows[..|rows| - 1], cols, m, hs, useLlm, n), rows[|rows| - 1], cols, m, hs, useLlm)
  }

  /** `clean_qa_data`: the column scan, then the rows; no usable columns is an error. */
  function CleanQa(table: Table, useLlmOverride: Option<bool>): Result<Output, ConfigError> {
    match Resolve(table.columns)
    case Failure(e) => Failure(e)
    case Success(m) =>
      var useLlm := EffectiveFlag(useLlmOverride);
      var st := RunRows(table.rows, table.columns, m, Offline(useLlm), useLlm, |table.rows|);
      Success(Output(st.records, st.stats))
  }

  // ---------------------------------------------------------------------------
  // The loops

  /** The elements of xs in order, stopping at the first one that passes p. */
  method FirstOf(xs: seq<string>, p: string -> bool) returns (found: bool, at: nat)
    ensures found <==> AnyOf(xs, p)
    ensures found ==> at < |xs| && p(xs[at]) && forall j :: 0 <= j < at ==> !p(xs[j])
    ensures !found ==> at == |xs|
  {
    found := false;
    at := 0;
    while at < |xs|
      invariant 0 <= at <= |xs|
      invariant forall j :: 0 <= j < at ==> !p(xs[j])
    {
      if p(xs[at]) {
        found := true;
        break;
      }
      at := at + 1;
    }
  }

  /**
   * The duplicate scan: the accepted questions in order, stopping at the
   * first one the new question is similar to.
   */
  method FindSimilar(hs: Helpers, q: string, seen: seq<string>) returns (isDuplicate: bool, at: nat)
    ensures isDuplicate <==> SimilarToAny(hs, q, seen)
    ensures isDuplicate ==> at < |seen| && hs.similar(q, seen[at])
    ensures isDuplicate ==> forall j :: 0 <= j < at ==> !hs.similar(q, seen[j])
    ensures !isDuplicate ==> at == |seen|
  {
    isDuplicate, at := FirstOf(seen, SimilarTo(hs, q));
  }

  lemma RunRowsSnoc(rows: seq<Row>, i: nat, cols: seq<string>, m: ColumnMap, hs: Helpers, useLlm: bool, n: nat)
    requires i < |rows|
    ensures RunRows(rows[..i + 1], cols, m, hs, useLlm, n) == Step(RunRows(rows[..i], cols, m, hs, useLlm, n), rows[i], cols, m, hs, useLlm)
  {
    assert rows[..i + 1][..i] == rows[..i];
  }

  /** The body of the row loop: one row's effect on `cleaned_data`, `seen_questions` and `stats`. */
  method CleanRow(cleaned: seq<CleanedRecord>, seen: seq<string>, stats: Stats, row: Row, cols: seq<string>, m: ColumnMap,
                  hs: Helpers, useLlm: bool)
    returns (cleaned': seq<CleanedRecord>, seen': seq<string>, stats': Stats)
    ensures RunState(cleaned', seen', stats') == Step(RunState(cleaned, seen, stats), row, cols, m, hs, useLlm)
  {
    cleaned', seen', stats' := cleaned, seen, stats;
    var question := CleanText(Cell(row, m.question));
    var answer := CleanText(Cell(row, m.answer));
    var category := CategoryOf(row, cols, m, useLlm);
    if question == "" || answer == "" {
      stats' := stats'.(issuesFixed := stats'.issuesFixed + 1);
      StepRejects(RunState(cleaned, seen, stats), row, cols, m, hs, useLlm);
      return;
    }
    if |question| < 3 || |answer| < 3 {
      stats' := stats'.(issuesFixed := stats'.issuesFixed + 1);
      StepRejects(RunState(cleaned, seen, stats), row, cols, m, hs, useLlm);
      return;
    }
    StepAdmits(RunState(cleaned, seen, stats), row, cols, m, hs, useLlm);
    cleaned', seen', stats' := AdmitRow(cleaned, seen, stats, category, question, answer, hs, useLlm);
  }

  /**
   * The second half of the loop body, for a row that passed validation:
   * redaction, rephrasing, the duplicate scan and the append.
   */
  method AdmitRow(cleaned: seq<CleanedRecord>, seen: seq<string>, stats: Stats, category: string, question: string, answer: string,
                  hs: Helpers, useLlm: bool)
    returns (cleaned': seq<CleanedRecord>, seen': seq<string>, stats': Stats)
    ensures RunState(cleaned', seen', stats') == Admit(RunState(cleaned, seen, stats), category, question, answer, hs, useLlm)
  {
    cleaned', seen', stats' := cleaned, seen, stats;
    var q := hs.redact(question);
    var a := hs.redact(answer);
    if q != question || a != answer {
      stats' := stats'.(sensitiveInfoRemoved := stats'.sensitiveInfoRemoved + 1);
    }
    var rephrased := hs.rephrase(q);
    if rephrased != q {
      stats' := stats'.(questionsRephrased := stats'.questionsRephrased + 1);
      q := rephrased;
    }
    var isDuplicate, _ := FindSimilar(hs, q, seen);
    if isDuplicate {
      stats' := stats'.(duplicatesRemoved := stats'.duplicatesRemoved + 1);
      return;
    }
    seen' := seen + [q];
    cleaned' := cleaned + [CleanedRecord(category, q, a)];
  }

  /**
   * The row loop of `clean_qa_data`, updating the counters and the two lists
   * in place; hs stands for the redaction and rephrasing it calls.
   */
  method CleanRows(rows: seq<Row>, cols: seq<string>, m: ColumnMap, hs: Helpers, useLlm: bool)
    returns (cleaned: seq<CleanedRecord>, seen: seq<string>, stats: Stats)
    ensures RunState(cleaned, seen, stats) == RunRows(rows, cols, m, hs, useLlm, |rows|)
  {
    stats := Stats(|rows|, 0, 0, 0, 0);
    cleaned := [];
    seen := [];
    var i := 0;
    while i < |rows|
      invariant 0 <= i <= |rows|
      invariant RunState(cleaned, seen, stats) == RunRows(rows[..i], cols, m, hs, useLlm, |rows|)
    {
      RunRowsSnoc(rows, i, cols, m, hs, useLlm, |rows|);
      cleaned, seen, stats := CleanRow(cleaned, seen, stats, rows[i], cols, m, hs, useLlm);
      i := i + 1;
    }
    assert rows[..i] == rows;
  }

  /** `clean_qa_data`: the column scan, then the row loop with the offline services. */
  method CleanQaData(table: Table, useLlmOverride: Option<bool>) returns (r: Result<Output, ConfigError>)
    ensures r == CleanQa(table, useLlmOverride)
  {
    var useLlm := EffectiveFlag(useLlmOverride);
    var columns := InferColumns(table.columns);
    if columns.Failure? {
      return Failure(columns.error);
    }
    var cleaned, _, stats := CleanRows(table.rows, table.columns, columns.value, Offline(useLlm), useLlm);
    return Success(Output(cleaned, stats));
  }

  // ---------------------------------------------------------------------------
  // One row

  /** A row whose question or answer is empty or shorter than three characters is dropped and counted as an issue. */
  lemma StepRejects(st: RunState, row: Row, cols: seq<string>, m: ColumnMap, hs: Helpers, useLlm: bool)
    requires |CleanText(Cell(row, m.question))| < 3 || |CleanText(Cell(row, m.answer))| < 3
    ensures Step(st, row, cols, m, hs, useLlm) == Reject(st)
  {
  }

  /** A row whose question and answer both have three characters or more goes on to redaction. */
  lemma StepAdmits(st: RunState, row: Row, cols: seq<string>, m: ColumnMap, hs: Helpers, useLlm: bool)
    requires |CleanText(Cell(row, m.question))| >= 3 && |CleanText(Cell(row, m.answer))| >= 3
    ensures Step(st, row, cols, m, hs, useLlm)
         == Admit(st, CategoryOf(row, cols, m, useLlm), CleanText(Cell(row, m.question)), CleanText(Cell(row, m.answer)), hs, useLlm)
  {
  }

  /** One row moves the state in exactly one of three ways; `original_count` never moves. */
  predicate Advances(st: RunState, r: RunState) {
    && r.stats.originalCount == st.stats.originalCount
    && (|| r == Reject(st)
        || Dropped(st, r)
        || Accepted(st, r))
  }

  /** `sensitive_info_removed` and `questions_rephrased` each moved by at most one. */
  predicate Bumped(s: Stats, t: Stats) {
    && (t.sensitiveInfoRemoved == s.sensitiveInfoRemoved || t.sensitiveInfoRemoved == s.sensitiveInfoRemoved + 1)
    && (t.questionsRephrased == s.questionsRephrased || t.questionsRephrased == s.questionsRephrased + 1)
  }

  /** A valid row dropped as a duplicate: only `duplicates_removed` and the two bumped counters move. */
  predicate Dropped(st: RunState, r: RunState) {
    && r.records == st.records && r.seen == st.seen
    && r.stats.duplicatesRemoved == st.stats.duplicatesRemoved + 1
    && r.stats.issuesFixed == st.stats.issuesFixed
    && Bumped(st.stats, r.stats)
  }

  /** A valid row accepted: one record appended, its question appended to the seen list. */
  predicate Accepted(st: RunState, r: RunState) {
    && |r.records| == |st.records| + 1 && r.records[..|st.records|] == st.records
    && r.seen == st.seen + [r.records[|st.records|].question]
    && r.stats.duplicatesRemoved == st.stats.duplicatesRemoved
    && r.stats.issuesFixed == st.stats.issuesFixed
    && Bumped(st.stats, r.stats)
  }

  lemma AdmitAdvances(st: RunState, category: string, question: string, answer: string, hs: Helpers, useLlm: bool)
    ensures Dropped(st, Admit(st, category, question, answer, hs, useLlm)) || Accepted(st, Admit(st, category, question, answer, hs, useLlm))
  {
  }

  /** Each row is counted once: as an issue, as a duplicate, or as an accepted record. */
  lemma StepAdvances(st: RunState, row: Row, cols: seq<string>, m: ColumnMap, hs: Helpers, useLlm: bool)
    ensures Advances(st, Step(st, row, cols, m, hs, useLlm))
  {
    if |CleanText(Cell(row, m.question))| < 3 || |CleanText(Cell(row, m.answer))| < 3 {
      StepRejects(st, row, cols, m, hs, useLlm);
    } else {
      StepAdmits(st, row, cols, m, hs, useLlm);
      AdmitAdvances(st, CategoryOf(row, cols, m, useLlm), CleanText(Cell(row, m.question)), CleanText(Cell(row, m.answer)), hs, useLlm);
    }
  }

  // ---------------------------------------------------------------------------
  // The whole run

  /**
   * The counters after k rows: `original_count` is the table length, every
   * row so far is an accepted record, a duplicate or an issue, only rows that
   * passed validation are counted as redacted or rephrased, and the seen list
   * holds the accepted questions in order.
   */
  predicate Balanced(st: RunState, k: nat, n: nat) {
    && st.stats.originalCount == n
    && |st.records| + st.stats.duplicatesRemoved + st.stats.issuesFixed == k
    && st.stats.sensitiveInfoRemoved + st.stats.issuesFixed <= k
    && st.stats.questionsRephrased + st.stats.issuesFixed <= k
    && |st.seen| == |st.records|
    && forall j :: 0 <= j < |st.seen| ==> st.seen[j] == st.records[j].question
  }

  lemma {:induction false} RunRowsBalanced(rows: seq<Row>, cols: seq<string>, m: ColumnMap, hs: Helpers, useLlm: bool, n: nat)
    ensures Balanced(RunRows(rows, cols, m, hs, useLlm, n), |rows|, n)
    decreases |rows|
  {
    if rows != [] {
      var prefix := rows[..|rows| - 1];
      var st := RunRows(prefix, cols, m, hs, useLlm, n);
      RunRowsBalanced(prefix, cols, m, hs, useLlm, n);
      StepAdvances(st, rows[|rows| - 1], cols, m, hs, useLlm);
      AdvancesKeepBalance(st, Step(st, rows[|rows| - 1], cols, m, hs, useLlm), |prefix|, n);
    }
  }

  lemma AdvancesKeepBalance(st: RunState, r: RunState, k: nat, n: nat)
    requires Balanced(st, k, n) && Advances(st, r)
    ensures Balanced(r, k + 1, n)
  {
    if Accepted(st, r) {
      forall j | 0 <= j < |r.seen|
        ensures r.seen[j] == r.records[j].question
      {
        if j < |st.seen| {
          assert r.records[j] == r.records[..|st.records|][j];
        }
      }
    }
  }

  /** What one row's step leaves of the earlier state: the records and the seen list only grow at the end. */
  lemma AdvancesExtend(st: RunState, r: RunState)
    requires Advances(st, r)
    ensures st.records <= r.records && st.seen <= r.seen
  {
    if Accepted(st, r) {
      assert r.records == r.records[..|st.records|] + [r.records[|st.records|]];
    }
  }

  /** An accepted record keeps its place: the records after k rows begin the records after all of them. */
  lemma {:induction false} RunRowsExtends(rows: seq<Row>, k: nat, cols: seq<string>, m: ColumnMap, hs: Helpers, useLlm: bool, n: nat)
    requires k <= |rows|
    ensures RunRows(rows[..k], cols, m, hs, useLlm, n).records <= RunRows(rows, cols, m, hs, useLlm, n).records
    ensures RunRows(rows[..k], cols, m, hs, useLlm, n).seen <= RunRows(rows, cols, m, hs, useLlm, n).seen
    decreases |rows|
  {
    if k == |rows| {
      assert rows[..k] == rows;
    } else {
      var prefix := rows[..|rows| - 1];
      assert prefix[..k] == rows[..k];
      RunRowsExtends(prefix, k, cols, m, hs, useLlm, n);
      var st := RunRows(prefix, cols, m, hs, useLlm, n);
      StepAdvances(st, rows[|rows| - 1], cols, m, hs, useLlm);
      AdvancesExtend(st, Step(st, rows[|rows| - 1], cols, m, hs, useLlm));
    }
  }

  // ---------------------------------------------------------------------------
  // No near-duplicates

  /** No question in the list is similar to one before it. */
  predicate NoneSimilar(hs: Helpers, seen: seq<string>) {
    forall i, j :: 0 <= i < j < |seen| ==> !hs.similar(seen[j], seen[i])
  }

  lemma AdmitKeepsNoneSimilar(st: RunState, category: string, question: string, answer: string, hs: Helpers, useLlm: bool)
    requires NoneSimilar(hs, st.seen)
    ensures NoneSimilar(hs, Admit(st, category, question, answer, hs, useLlm).seen)
  {
    var q2 := hs.rephrase(hs.redact(question));
    if !SimilarToAny(hs, q2, st.seen) {
      var seen := st.seen + [q2];
      forall i, j | 0 <= i < j < |seen|
        ensures !hs.similar(seen[j], seen[i])
      {
        if j == |st.seen| {
          assert !SimilarTo(hs, q2)(st.seen[i]);
        }
      }
    }
  }

  lemma StepKeepsNoneSimilar(st: RunState, row: Row, cols: seq<string>, m: ColumnMap, hs: Helpers, useLlm: bool)
    requires NoneSimilar(hs, st.seen)
    ensures NoneSimilar(hs, Step(st, row, cols, m, hs, useLlm).seen)
  {
    if |CleanText(Cell(row, m.question))| < 3 || |CleanText(Cell(row, m.answer))| < 3 {
      StepRejects(st, row, cols, m, hs, useLlm);
    } else {
      StepAdmits(st, row, cols, m, hs, useLlm);
      AdmitKeepsNoneSimilar(st, CategoryOf(row, cols, m, useLlm), CleanText(Cell(row, m.question)), CleanText(Cell(row, m.answer)), hs, useLlm);
    }
  }

  /** No accepted question is similar to a question accepted before it. */
  lemma {:induction false} RunRowsNoneSimilar(rows: seq<Row>, cols: seq<string>, m: ColumnMap, hs: Helpers, useLlm: bool, n: nat)
    ensures NoneSimilar(hs, RunRows(rows, cols, m, hs, useLlm, n).seen)
    decreases |rows|
  {
    if rows != [] {
      var prefix := rows[..|rows| - 1];
      RunRowsNoneSimilar(prefix, cols, m, hs, useLlm, n);
      StepKeepsNoneSimilar(RunRows(prefix, cols, m, hs, useLlm, n), rows[|rows| - 1], cols, m, hs, useLlm);
    }
  }

  // ---------------------------------------------------------------------------
  // The shape of a record

  /**
   * An accepted record: a question ending in `?` and an answer, both of at
   * least three characters, and a category in the shape `clean_text` gives.
   */
  predicate WellFormed(rec: CleanedRecord) {
    && EndsWithQuestionMark(rec.question) && |rec.question| >= 3
    && |rec.answer| >= 3
    && Canonical(rec.category)
  }

  predicate AllWellFormed(records: seq<CleanedRecord>) {
    forall k :: 0 <= k < |records| ==> WellFormed(records[k])
  }

  lemma GeneralIsCanonical()
    ensures Canonical("General")
  {
    var g := "General";
    assert forall k :: 0 <= k < |g| ==> !IsSpace(g[k]);
  }

  /** The category is the cleaned category cell or "General", so it is in the shape `clean_text` gives. */
  lemma CategoryCanonical(row: Row, cols: seq<string>, m: ColumnMap, useLlm: bool)
    ensures Canonical(CategoryOf(row, cols, m, useLlm))
  {
    GeneralIsCanonical();
  }

  lemma AdmitKeepsWellFormed(st: RunState, category: string, question: string, answer: string, hs: Helpers, useLlm: bool)
    requires Keeps(hs) && AllWellFormed(st.records)
    requires |question| >= 3 && |answer| >= 3 && Canonical(category)
    ensures AllWellFormed(Admit(st, category, question, answer, hs, useLlm).records)
  {
    var q1 := hs.redact(question);
    var q2 := hs.rephrase(q1);
    assert |q1| >= 3 && |hs.redact(answer)| >= 3;
    assert |q2| >= 3 && EndsWithQuestionMark(q2);
  }

  lemma StepKeepsWellFormed(st: RunState, row: Row, cols: seq<string>, m: ColumnMap, hs: Helpers, useLlm: bool)
    requires Keeps(hs) && AllWellFormed(st.records)
    ensures AllWellFormed(Step(st, row, cols, m, hs, useLlm).records)
  {
    if |CleanText(Cell(row, m.question))| < 3 || |CleanText(Cell(row, m.answer))| < 3 {
      StepRejects(st, row, cols, m, hs, useLlm);
    } else {
      StepAdmits(st, row, cols, m, hs, useLlm);
      CategoryCanonical(row, cols, m, useLlm);
      AdmitKeepsWellFormed(st, CategoryOf(row, cols, m, useLlm), CleanText(Cell(row, m.question)), CleanText(Cell(row, m.answer)), hs, useLlm);
    }
  }

  /** With helpers that keep their guarantees, every accepted record is well formed. */
  lemma {:induction false} RunRowsWellFormed(rows: seq<Row>, cols: seq<string>, m: ColumnMap, hs: Helpers, useLlm: bool, n: nat)
    requires Keeps(hs)
    ensures AllWellFormed(RunRows(rows, cols, m, hs, useLlm, n).records)
    decreases |rows|
  {
    if rows != [] {
      var prefix := rows[..|rows| - 1];
      RunRowsWellFormed(prefix, cols, m, hs, useLlm, n);
      StepKeepsWellFormed(RunRows(prefix, cols, m, hs, useLlm, n), rows[|rows| - 1], cols, m, hs, useLlm);
    }
  }

  lemma OfflineRedacts(useLlm: bool, s: string)
    ensures |Offline(useLlm).redact(s)| >= (if |s| < 5 then |s| else 5)
  {
  }

  lemma OfflineRephrases(useLlm: bool, q: string)
    ensures q != [] ==> EndsWithQuestionMark(Offline(useLlm).rephrase(q))
    ensures |Offline(useLlm).rephrase(q)| >= (if |q| < 7 then |q| else 7)
  {
    RephraseIgnoresFlag(q, useLlm);
  }

  /** The offline helpers keep the guarantees the record properties need. */
  lemma OfflineKeeps(useLlm: bool)
    ensures Keeps(Offline(useLlm))
  {
    forall s
      ensures |Offline(useLlm).redact(s)| >= (if |s| < 5 then |s| else 5)
    {
      OfflineRedacts(useLlm, s);
    }
    forall q
      ensures q != [] ==> EndsWithQuestionMark(Offline(useLlm).rephrase(q))
      ensures |Offline(useLlm).rephrase(q)| >= (if |q| < 7 then |q| else 7)
    {
      OfflineRephrases(useLlm, q);
    }
  }

  // ---------------------------------------------------------------------------
  // The override flag

  lemma AdmitAgree(st: RunState, category: string, question: string, answer: string, hs1: Helpers, hs2: Helpers, useLlm1: bool, useLlm2: bool)
    requires Agree(hs1, hs2)
    ensures Admit(st, category, question, answer, hs1, useLlm1) == Admit(st, category, question, answer, hs2, useLlm2)
  {
    var q2 := hs1.rephrase(hs1.redact(question));
    assert q2 == hs2.rephrase(hs2.redact(question));
    forall j | 0 <= j < |st.seen|
      ensures SimilarTo(hs1, q2)(st.seen[j]) == SimilarTo(hs2, q2)(st.seen[j])
    {
    }
  }

  lemma StepAgree(st: RunState, row: Row, cols: seq<string>, m: ColumnMap, hs1: Helpers, hs2: Helpers, useLlm1: bool, useLlm2: bool)
    requires Agree(hs1, hs2)
    ensures Step(st, row, cols, m, hs1, useLlm1) == Step(st, row, cols, m, hs2, useLlm2)
  {
    if |CleanText(Cell(row, m.question))| < 3 || |CleanText(Cell(row, m.answer))| < 3 {
      StepRejects(st, row, cols, m, hs1, useLlm1);
      StepRejects(st, row, cols, m, hs2, useLlm2);
    } else {
      StepAdmits(st, row, cols, m, hs1, useLlm1);
      StepAdmits(st, row, cols, m, hs2, useLlm2);
      assert CategoryOf(row, cols, m, useLlm1) == CategoryOf(row, cols, m, useLlm2);
      AdmitAgree(st, CategoryOf(row, cols, m, useLlm1), CleanText(Cell(row, m.question)), CleanText(Cell(row, m.answer)), hs1, hs2, useLlm1, useLlm2);
    }
  }

  /** Helpers that agree on every input give the same run, whatever the flag. */
  lemma {:induction false} RunRowsAgree(rows: seq<Row>, cols: seq<string>, m: ColumnMap, hs1: Helpers, hs2: Helpers, useLlm1: bool, useLlm2: bool, n: nat)
    requires Agree(hs1, hs2)
    ensures RunRows(rows, cols, m, hs1, useLlm1, n) == RunRows(rows, cols, m, hs2, useLlm2, n)
    decreases |rows|
  {
    if rows != [] {
      var prefix := rows[..|rows| - 1];
      RunRowsAgree(prefix, cols, m, hs1, hs2, useLlm1, useLlm2, n);
      StepAgree(RunRows(prefix, cols, m, hs1, useLlm1, n), rows[|rows| - 1], cols, m, hs1, hs2, useLlm1, useLlm2);
    }
  }

  lemma OfflineRephraseAgree(useLlm1: bool, useLlm2: bool, q: string)
    ensures Offline(useLlm1).rephrase(q) == Offline(useLlm2).rephrase(q)
  {
    RephraseIgnoresFlag(q, useLlm1);
    RephraseIgnoresFlag(q, useLlm2);
  }

  lemma OfflineSimilarAgree(useLlm1: bool, useLlm2: bool, q1: string, q2: string)
    ensures Offline(useLlm1).similar(q1, q2) == Offline(useLlm2).similar(q1, q2)
  {
    SimilarityIgnoresFlag(q1, q2, 4, 5, useLlm1);
    SimilarityIgnoresFlag(q1, q2, 4, 5, useLlm2);
  }

  /** With the assistant unavailable, the flag changes none of the three helpers. */
  lemma OfflineAgree(useLlm1: bool, useLlm2: bool)
    ensures Agree(Offline(useLlm1), Offline(useLlm2))
  {
    forall q
      ensures Offline(useLlm1).rephrase(q) == Offline(useLlm2).rephrase(q)
    {
      OfflineRephraseAgree(useLlm1, useLlm2, q);
    }
    forall q1, q2
      ensures Offline(useLlm1).similar(q1, q2) == Offline(useLlm2).similar(q1, q2)
    {
      OfflineSimilarAgree(useLlm1, useLlm2, q1, q2);
    }
  }

  // ---------------------------------------------------------------------------
  // `clean_qa_data` as a whole

  /** The call is refused exactly when the table has no column, or one column and no answer column by name. */
  lemma CleanQaRefusedIff(table: Table, useLlmOverride: Option<bool>)
    ensures CleanQa(table, useLlmOverride).Failure? <==>
      |table.columns| == 0 || (|table.columns| < 2 && forall j :: 0 <= j < |table.columns| ==> RoleOf(table.columns[j]) != AnswerRole)
  {
    ResolveFailsIff(table.columns);
  }

  /**
   * `original_count` is the number of rows; every row ends up as a record, a
   * removed duplicate or a fixed issue; a row dropped as an issue is neither
   * redacted nor rephrased.
   */
  lemma CleanQaCounts(table: Table, useLlmOverride: Option<bool>)
    requires CleanQa(table, useLlmOverride).Success?
    ensures var out := CleanQa(table, useLlmOverride).value;
      && out.stats.originalCount == |table.rows|
      && |out.records| + out.stats.duplicatesRemoved + out.stats.issuesFixed == |table.rows|
      && out.stats.sensitiveInfoRemoved + out.stats.issuesFixed <= |table.rows|
      && out.stats.questionsRephrased + out.stats.issuesFixed <= |table.rows|
  {
    var m := Resolve(table.columns).value;
    var useLlm := EffectiveFlag(useLlmOverride);
    RunRowsBalanced(table.rows, table.columns, m, Offline(useLlm), useLlm, |table.rows|);
  }

  /**
   * Every record has a question ending in `?` and an answer, both of three
   * characters or more, and no record's question shares four fifths of its
   * words with an earlier record's question.
   */
  lemma CleanQaRecords(table: Table, useLlmOverride: Option<bool>)
    requires CleanQa(table, useLlmOverride).Success?
    ensures var records := CleanQa(table, useLlmOverride).value.records;
      && AllWellFormed(records)
      && forall i, j :: 0 <= i < j < |records| ==> !SimilarByWords(records[j].question, records[i].question, 4, 5)
  {
    var m := Resolve(table.columns).value;
    var useLlm := EffectiveFlag(useLlmOverride);
    var hs := Offline(useLlm);
    var st := RunRows(table.rows, table.columns, m, hs, useLlm, |table.rows|);
    OfflineKeeps(useLlm);
    RunRowsWellFormed(table.rows, table.columns, m, hs, useLlm, |table.rows|);
    RunRowsBalanced(table.rows, table.columns, m, hs, useLlm, |table.rows|);
    RunRowsNoneSimilar(table.rows, table.columns, m, hs, useLlm, |table.rows|);
    forall i, j | 0 <= i < j < |st.records|
      ensures !SimilarByWords(st.records[j].question, st.records[i].question, 4, 5)
    {
      assert !hs.similar(st.seen[j], st.seen[i]);
      SimilarityIgnoresFlag(st.seen[j], st.seen[i], 4, 5, useLlm);
    }
  }

  /** With the assistant unavailable, `use_llm_override` makes no difference to the result. */
  lemma CleanQaIgnoresOverride(table: Table, override1: Option<bool>, override2: Option<bool>)
    ensures CleanQa(table, override1) == CleanQa(table, override2)
  {
    if Resolve(table.columns).Success? {
      var u1 := EffectiveFlag(override1);
      var u2 := EffectiveFlag(override2);
      OfflineAgree(u1, u2);
      RunRowsAgree(table.rows, table.columns, Resolve(table.columns).value, Offline(u1), Offline(u2), u1, u2, |table.rows|);
    }
  }
}
