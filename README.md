# Healthcare Q&A cleaner — a verified model of the offline pipeline

This project models the data-cleaning core of `app.py`, the back end of a
small web tool. The tool takes a spreadsheet of healthcare questions and
answers and returns a cleaned list of records plus five counters.

The model runs the cleaner as it behaves without language-model
credentials. At start-up `aibot_available` and `USE_LLM` are then false.
`call_aibot` returns `None`, and every augmented branch falls back to its
rules. What remains is deterministic:

* `clean_text` canonicalises whitespace (module `Normalize`).
* The column scan picks the question, answer and category columns, or
  refuses the table (module `Columns`).
* `remove_sensitive_info` runs eleven `re.sub` calls in a fixed order
  (module `Redaction`). The patterns are written out in full, as regex
  syntax trees (module `Regex`). They are matched by a small backtracking
  matcher with Python's leftmost, first-alternative-wins semantics.
  Module `Matching` holds the reasoning kit for that matcher, and
  `RedactionExamples` works two texts through all eleven rules.
* The rule branch of `rephrase_question` runs twelve case-insensitive
  rewrites in dict order, upper-cases the first character and appends a
  missing `?` (modules `Rephrasing` and `RephrasingExamples`).
* The rule branch of `is_similar_question` is Jaccard similarity on word
  sets, at the pipeline's threshold of 0.8 (module `Similarity`).
* The record loop of `clean_qa_data` runs, per row: normalise, category,
  validate, redact, rephrase, duplicate scan, accept (module `Pipeline`).
  It is written as the source writes it, as methods with loops that update
  `cleaned_data`, `seen_questions` and `stats`. Each method is proved equal
  to a fold (`RunRows`), and the counting, ordering and no-near-duplicate
  properties are proved about that fold.

Module `Aibot` fixes the service as unavailable. Module `Chars` holds
Python's whitespace set and ASCII case mapping. Module `Wrappers` holds
`Option` and `Result`.

Where a prose description of the system and `app.py` differ, the model
follows `app.py`:

* Column names are matched by substring (`'question' in`, `'ans' in`,
  `'cat' in`, ...), except `q` and `a`, which must be the whole name.
* A later matching column overwrites an earlier one, so the last match
  wins, not the first.
* The positional fallbacks do not check that the chosen columns differ.
  `Columns.FallbackMayReuseQuestionColumn` shows a table whose question
  column is also taken as its answer column.
* The first rewrite pattern of `rephrase_question` has no closing `\b`.
* `q_lower` in `rephrase_question` is computed and never used. The
  rewrites run on the original question, with `re.IGNORECASE`.

## Model

| member | source | states |
|---|---|---|
| Normalize.TrimStart | app.py:177 | `lstrip`: the result is a suffix of the text, everything removed is whitespace, and it does not start with whitespace |
| Normalize.TrimEnd | app.py:177 | `rstrip`: the result is a prefix of the text, everything removed is whitespace, and it does not end with whitespace |
| Normalize.CollapseShape | app.py:174 | `re.sub(r'\s+', ' ', ...)` leaves only single spaces, keeps every visible character in order, and starts with whitespace exactly when its input does |
| Normalize.StripShape | app.py:177 | stripping a single-spaced text gives a canonical text with the same visible characters |
| Normalize.CleanText | app.py:166-185 | a missing cell gives ""; otherwise the result is canonical: no leading or trailing whitespace, no line break or tab, no two whitespace characters in a row, and the same visible characters as the cell |
| Normalize.LaterStepsChangeNothing | app.py:179-183 | after the collapse and the strip, the three line-break replacements and `re.sub(r' +', ' ', ...)` change nothing |
| Normalize.CollapseSingleSpaced | app.py:174 | the collapse leaves an already single-spaced text unchanged |
| Normalize.CleanTextIdempotent | app.py:166-185 | cleaning a cleaned text gives it back unchanged |
| Normalize.NothingVisibleIff | app.py:166-185 | a text has no visible character exactly when every character is whitespace |
| Normalize.BlankCellCleansToEmpty | app.py:166-185 | a whitespace-only cell cleans to "", so its row is later dropped as an issue |
| Chars.Lower | app.py:248 | `str.lower()`: same length, each character mapped by the ASCII lower-casing |
| Chars.LowerIdempotent | app.py:211 | lower-casing twice is lower-casing once |
| Chars.ContainsIff | app.py:249-253 | the `in` test used by the column scan holds exactly when some slice of the name equals the keyword |
| Columns.LastOfRole | app.py:247-254 | the found column has the role and no later column has it; nothing is found exactly when no column has the role |
| Columns.LastOfRoleSnoc | app.py:247-254 | one more column either becomes the column of its role or leaves that role's column as it was |
| Columns.InferColumns | app.py:240-265 | the scan loop with its reassigned variables, then the fallbacks and the error, returns `Resolve(cols)`; any chosen column index is inside the table |
| Columns.ResolveFailsIff | app.py:256-265 | the `ValueError` is raised exactly when there is no column, or there is one column and it is not an answer column by name |
| Columns.ResolveRoles | app.py:247-262 | a role found by name goes to the last column with that role; the `elif` order means that column's role is exactly that role, so a question column is never taken by name as answer or category |
| Columns.FallbackMayReuseQuestionColumn | app.py:256-262 | with columns "Notes" and "Question", the question column is chosen both as question and, by position, as answer |
| Columns.NotesHasNoRole | app.py:248-254 | "Notes" matches none of the keyword tests |
| Regex.EndsWithin | app.py:81-105 | every match of a pattern stays inside the text and consumes at least the pattern's minimum length |
| Regex.SubWithoutMatch | app.py:81-105 | `re.sub` leaves a text without a match unchanged |
| Regex.SubLength | app.py:81-105 | `re.sub` either changes nothing or leaves at least one whole replacement |
| Regex.ApplyAllAppend | app.py:152-154 | running two rule lists in turn is running their concatenation |
| Regex.ApplyAllSplit | app.py:81-105 | running a rule list is running its first n rules and then the rest |
| Regex.ApplyAllWithoutMatch | app.py:81-105 | a rule list none of whose patterns matches leaves the text unchanged |
| Regex.ApplyAllLength | app.py:81-105 | a rule list never shortens a text below the shortest replacement, or below its own length if shorter |
| Redaction.PlaceholdersAtLeastFive | app.py:81-105 | every placeholder has at least five characters |
| Redaction.RemoveSensitiveInfo | app.py:73-107 | a missing text gives ""; otherwise the result is no shorter than five characters, or than the text itself if shorter |
| Redaction.WithoutPiiUnchanged | app.py:78-107 | a text in which none of the eleven patterns matches is returned unchanged |
| Redaction.BirthDateRunsBeforeDate | app.py:92-93 | the date-of-birth substitution runs on what the five name, phone and e-mail rules left, and the plain date substitution runs on its output |
| Redaction.RulesSplitAt | app.py:81-105 | the eleven substitutions are a prefix of them followed by the rest |
| RedactionExamples.SsnMinLen | app.py:102 | the SSN pattern needs at least eleven characters |
| RedactionExamples.BirthDateMinLen | app.py:92 | the date-of-birth pattern needs at least nine characters |
| RedactionExamples.PlaceholderPassesLastSix | app.py:93-105 | a placeholder of five characters or fewer passes the plain date rule and the last four rules unchanged |
| RedactionExamples.DobBecomesDobPlaceholder | app.py:81-107 | any text spelling "DOB: 01/02/1990" is redacted to "[DOB]" |
| RedactionExamples.DobTextRedacted | app.py:92-93 | `remove_sensitive_info("DOB: 01/02/1990")` is "[DOB]", not "DOB: [DATE]" |
| RedactionExamples.DateRuleAloneKeepsLabel | app.py:93 | the plain date rule alone on such a text replaces only the date and keeps the five-character label |
| RedactionExamples.DobTextUnderDateRule | app.py:93 | the plain date substitution alone turns "DOB: 01/02/1990" into "DOB: [DATE]", so the order of the two date rules decides the result |
| RedactionExamples.SsnBecomesSsnPlaceholder | app.py:81-107 | any text spelling "123-45-6789" passes the nine earlier rules unchanged and is redacted to "[SSN]" |
| RedactionExamples.SsnTextRedacted | app.py:102 | `remove_sensitive_info("123-45-6789")` is "[SSN]" |
| Rephrasing.ReplacementsAtLeastSeven | app.py:137-150 | every canonical phrase has at least seven characters |
| Rephrasing.Capitalize | app.py:157-158 | same length; a non-empty text gets its first character upper-cased and keeps the rest |
| Rephrasing.EnsureQuestionMark | app.py:161-162 | a non-empty result ends with `?`; the text is kept as a prefix, and one character is added exactly when the text is non-empty and lacks the `?` |
| Rephrasing.Finish | app.py:156-162 | an empty text stays empty; otherwise the result ends with `?`, does not start with a lower-case letter, and is at most one character longer |
| Rephrasing.Rewrite | app.py:152-154 | the rewrites never shorten a question below seven characters, or below its own length if shorter |
| Rephrasing.Rephrased | app.py:132-164 | the rule branch returns an empty question unchanged; otherwise the result ends with `?` and does not start with a lower-case letter |
| Rephrasing.RephraseIgnoresFlag | app.py:109-131 | with the service unavailable, `use_llm_for_request` makes no difference: the rules decide |
| Rephrasing.RunRewrites | app.py:152-154 | the loop over the replacements returns the ordered fold of the twelve substitutions |
| Rephrasing.FinishSteps | app.py:156-162 | the two `if` steps compute `Finish` |
| Rephrasing.RephraseByRules | app.py:132-164 | the rule branch, step by step, equals `Rephrased` |
| Rephrasing.QuestionMarkOnlyWhenAbsent | app.py:160-162 | a `?` is appended exactly when the capitalised text lacks one, so the result ends in "??" only if the rewritten text already did |
| Rephrasing.FinishIdempotent | app.py:156-162 | capitalising and completing the `?` twice gives the same as once |
| Rephrasing.FinishedUnchanged | app.py:156-162 | a text already capitalised and ending in `?` is finished as it is |
| Rephrasing.PlainQuestionUnchanged | app.py:137-164 | a capitalised question ending in `?` that no rewrite matches comes back unchanged |
| RephrasingExamples.BabyShapedBecomesAChild | app.py:148-164 | any text spelling "my baby" is rephrased to "A child?" |
| RephrasingExamples.BabyBecomesAChild | app.py:148-164 | `rephrase_question("my baby")` is "A child?" |
| Similarity.KeepWordsAndSpaces | app.py:211-212 | `re.sub(r'[^\w\s]', '', ...)` keeps only word characters and whitespace |
| Similarity.Word | app.py:215-216 | a word is the leading run of non-whitespace and stops at whitespace |
| Similarity.Split | app.py:215-216 | `str.split()` yields no empty word |
| Similarity.SimilarityIgnoresFlag | app.py:187-208 | with the service unavailable, the flag makes no difference: the word test decides |
| Similarity.SimilarNeedsWordsAndIsSymmetric | app.py:218-225 | two questions are never similar when either has no word, and similarity does not depend on argument order |
| Similarity.SameWordsAreSimilar | app.py:218-225 | a question with at least one word is similar to itself, and to any question with the same word set, at every threshold up to 1 |
| Similarity.FourFifthsThreshold | app.py:218-225 | at threshold 0.8 the test is: both word sets non-empty and 5·\|intersection\| ≥ 4·\|union\| |
| Similarity.HasWordsIff | app.py:211-219 | a question has a word exactly when it has a letter, a digit or an underscore |
| Similarity.QuestionMarkIgnored | app.py:211-216 | the `?` the rephraser appends does not change a question's word set |
| Similarity.CaseIgnored | app.py:211-212 | lower-casing a question does not change its word set |
| Aibot.CallAibot | app.py:36-39 | with the service unavailable there is never a reply |
| Aibot.Reply | app.py:114-117 | an augmented step never receives a reply |
| Pipeline.Cell | app.py:272-273 | a column beyond a short row reads as a missing cell |
| Pipeline.CategoryOf | app.py:275-291 | the category is the cleaned category cell when there is a category column and the cell is present (possibly "" for a blank cell), and "General" otherwise |
| Pipeline.CategoryCanonical | app.py:275-291 | every category has the shape `clean_text` produces |
| Pipeline.FirstOf | app.py:320-325 | the scan finds an element exactly when one passes the test, and stops at the first one |
| Pipeline.FindSimilar | app.py:319-325 | the duplicate scan reports a duplicate exactly when the new question is similar to an accepted one; it stops at the first such one, and none before it is similar |
| Pipeline.StepRejects | app.py:293-301 | a row whose cleaned question or answer is empty or shorter than three characters only increments `issues_fixed` |
| Pipeline.StepAdmits | app.py:293-308 | a row whose cleaned question and answer have three characters or more goes on to redaction with its category |
| Pipeline.AdmitRow | app.py:303-335 | redaction, rephrasing, the duplicate scan and the two appends, step by step, equal the specification `Admit` |
| Pipeline.CleanRow | app.py:271-335 | the loop body on one row equals one `Step` |
| Pipeline.CleanRows | app.py:267-335 | the row loop equals the fold `RunRows` over the rows, starting with `original_count` as the number of rows |
| Pipeline.CleanQaData | app.py:227-337 | the whole function equals `CleanQa`: the column error, or the records and counters of the fold |
| Pipeline.AdmitAdvances | app.py:303-335 | a valid row is either dropped as a duplicate or appended, with `sensitive_info_removed` and `questions_rephrased` each moved by at most one |
| Pipeline.StepAdvances | app.py:293-335 | every row is counted once: as an issue, as a duplicate, or as an accepted record |
| Pipeline.RunRowsBalanced | app.py:232-335 | after k rows, records + duplicates + issues = k, `original_count` is the table length, redaction and rephrase counts stay within the valid rows, and `seen_questions` equals the record questions in order |
| Pipeline.RunRowsExtends | app.py:327-335 | records and accepted questions are only ever appended: the lists after k rows begin the final lists |
| Pipeline.AdmitKeepsNoneSimilar | app.py:319-335 | appending a question that the scan found similar to none keeps the accepted list free of near-duplicates |
| Pipeline.RunRowsNoneSimilar | app.py:319-335 | no accepted question is similar to an earlier accepted question |
| Pipeline.RunRowsWellFormed | app.py:293-335 | with helpers that keep their length and `?` guarantees, every record has a question ending in `?`, a question and an answer of three or more characters, and a canonical category |
| Pipeline.OfflineRedacts | app.py:307-308 | the redaction the loop calls never shortens a text below five characters, or below its own length if shorter |
| Pipeline.OfflineRephrases | app.py:314 | the rephrasing the loop calls ends every non-empty question with `?` and never shortens it below seven characters |
| Pipeline.OfflineAgree | app.py:230 | with the service unavailable, the three helpers are the same whatever the request flag |
| Pipeline.RunRowsAgree | app.py:271-335 | helpers that agree on every input give the same run |
| Pipeline.CleanQaRefusedIff | app.py:256-265 | `clean_qa_data` raises exactly when there is no column, or one column that is not an answer column by name |
| Pipeline.CleanQaCounts | app.py:232-337 | `original_count` is the number of rows and equals records + `duplicates_removed` + `issues_fixed`; only valid rows are counted as redacted or rephrased |
| Pipeline.CleanQaRecords | app.py:293-337 | every record is well formed, and no record's question is similar at 0.8 to an earlier record's question |
| Pipeline.CleanQaIgnoresOverride | app.py:227-230 | with the service unavailable, `use_llm_override` makes no difference to the result |

## Left out

- The Flask routes `upload_file` and `download_excel`, CORS, the upload folder, environment loading and the start-up prints: HTTP, file and console I/O.
- `call_aibot` and every augmented branch: network calls with nondeterministic replies. The model fixes `aibot_available` to false, so these branches are shown to fall through to the rules.
- pandas (`read_excel`, `DataFrame`, `iterrows`, NaN detection): a table is a list of column names and rows of optional strings, and `None` stands for a missing or NaN cell. Columns are addressed by position.
- `str(...)` of non-string cells: every present cell is already a string.
- `category_col in df.columns` always holds for a resolved column. `category_col and ...` is modelled as a non-empty column name.
- All of `script.js`: browser UI, downloads and local storage.
- Unicode: `\s` and `str.isspace` are Python's exact whitespace set, but `\w`, `\d`, `lower()`, `upper()` and `re.IGNORECASE` are modelled on ASCII letters and digits only.
- `Regex.Sub` models `re.sub` only for patterns that cannot match the empty string, which is what `MatchesAt` requires of a match. None of the twenty-three patterns can: the `*MinLen` lemmas show this for the eleven redaction patterns, and every rewrite pattern contains a literal word. Python's rules for empty matches are not modelled.
- The float division `intersection / union >= threshold` is replaced by the exact comparison `5 * |I| >= 4 * |U|`. Floating-point rounding is not modelled.
- Redaction.RemoveSensitiveInfo: states only the missing-cell case and a length bound. The general claim that no matched span survives is not proved. Two worked texts (`DobTextRedacted`, `SsnTextRedacted`) show the placeholders and the rule order, and `WithoutPiiUnchanged` shows that a text without a match is kept.
- Rephrasing.Rephrased: idempotence of the whole rule branch is not proved, because a rewritten text may in principle start another pattern. Idempotence is proved for the finishing steps (`FinishIdempotent`), and a text that no rule matches is shown to be kept.
- Pipeline.RunRowsWellFormed: proved for any helpers that keep the length and `?` guarantees (`Keeps`); `OfflineRedacts` and `OfflineRephrases` show that the offline helpers do.
- The spreadsheet writer, and its round trip through a reader, is not part of this model.
