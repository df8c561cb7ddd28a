# grade-lens grading core in Dafny

This project models the deterministic core of grade-lens, a tool that grades student
submissions with a language model. The model covers these parts:

- **Assignment and grade records.** `AssignmentConfig` covers the assignment configuration, its rubric and its answer key. `GradingResult` covers per-question and per-assignment grades, their totals, percentages, letter grades and flat export rows.
- **Prompts.** `PromptBuilder` builds the grading prompts in their three modes.
- **Answer extraction and grading.** `AnswerExtraction` pulls answers out of a submission document. `QaGrading` grades question-answer submissions, validates and parses the model's replies, and falls back when a reply is unusable.
- **Reports and output.** `ReportGenerator` produces the feedback report. `OutputManager` builds the results table, orders its columns and computes the summary statistics and grade distribution.
- **Code submissions.** `CodeExtraction` gathers code files, detects their language and checks their syntax shape. `CodeEvaluation` runs test cases through an interpreter oracle and combines the verdicts.
- **Configuration generation.** `ConfigGenerator` completes and validates a configuration drafted by the language model.
- **Students and files.** `SubmissionGrouper` parses submission file names and groups files by student. `StudentIds` holds the three student-name and student-id extractors, both as written and as corrected.
- **Workflows.** `CliWorkflow` is the command-line grading pipeline. `LegacyWorkflow` is the earlier script pipeline: its grading agent and its CSV manager.

Helper modules:

- `Json` models Python's JSON values, with truthiness, `len`, iteration, `in` and indexing as Python defines them.
- `PyDict` models insertion-ordered dictionaries as pair lists where the last write wins.
- `Text` models the string builtins the program uses.
- `Seqs` and `Sorting` hold sequence lemmas and stable sorting.
- `Wrappers` holds `Option` and `Result`.

Everything outside the program's own logic is a parameter of the operation that needs it: the language model, PDF and image reading, `json.loads`, file reads and the Python interpreter. Each module's `Services` datatype holds these as oracle functions. The model proves what the program does with their answers, whatever those answers are.

Two behaviours of the code differ from the project's own description of it. The model follows the code in both:

- **Blank answers.** In the per-question grading path a blank answer is replaced by "No answer provided" and still sent to the language model; no zero grade is produced without asking it.
- **Omitted `total_points`.** An assignment whose configuration omits `total_points` keeps it absent, because the validator that sums the question points does not run on an omitted field. The error and empty grades for such an assignment cannot be built (`QaGrading.ErrorGrade` and `QaGrading.EmptyGrade` return nothing), and `CliWorkflow.ProcessFile` then fails as the program's batch does.

## Model

| member | source | states |
|---|---|---|
| Json.BraceSpan | backend/src/agents/qa_grading_agent.py:354-357 | the greedy brace match runs from the first "{" to the last "}" with none outside it, and there is none exactly when no "{" comes before a "}" |
| Json.ParseModelJson | backend/src/agents/qa_grading_agent.py:329-363 | a reply that decodes whole is taken as it is; otherwise the fenced block, then the brace span; the parse fails exactly when all three candidates fail |
| AssignmentConfig.DefaultRubric | backend/src/models/assignment_config.py:14-38 | a rubric built with no fields has a no-submission amount of 0 and no criteria, tier amounts, instructions or custom scoring |
| AssignmentConfig.SumPointsBounds | backend/src/models/assignment_config.py:115-116 | the sum of positive question points is positive and at least every single question's points |
| AssignmentConfig.ResolveTotalPoints | backend/src/models/assignment_config.py:111-117 | the "before" validator fills in the points sum only for an explicit null: an omitted total stays absent, a given total is kept, and a filled-in total is positive and covers every question |
| AssignmentConfig.MakeAssignment | backend/src/models/assignment_config.py:44-104 | a configuration loads exactly when it has at least one question and every question is worth more than zero points; the loaded one keeps the questions, and an omitted total stays absent |
| AssignmentConfig.GetQuestionRubric | backend/src/models/assignment_config.py:119-124 | an unknown id has no rubric; otherwise the first question with that id decides: its own rubric if it has one, else the general rubric |
| GradingResult.MakeQuestionGrade | src/models/grading_result.py:11-39 | a question grade is built exactly when the score is at least 0 and the maximum above 0, and keeps its id, score and maximum |
| GradingResult.ScoreAboveMaxAccepted | src/models/grading_result.py:33-39 | the score-versus-maximum validator runs before the maximum is validated, so a score of 12 out of 10 is accepted |
| GradingResult.SumsOfAcceptedGrades | src/models/grading_result.py:15-16 | accepted question grades sum to a non-negative score and, when there is at least one, to a positive maximum |
| GradingResult.MakeAssignmentGrade | src/models/grading_result.py:49-123 | an assignment grade is built exactly when the total is at least 0, the maximum above 0 and there is at least one question; a mismatched question sum is not rejected; the built grade keeps the given fields and has no strengths |
| GradingResult.ZeroMaximumRejected | src/models/grading_result.py:65 | a grade whose maximum is 0 cannot be built |
| GradingResult.Percentage | src/models/grading_result.py:41-43 | with a positive maximum the percentage times the maximum is 100 times the score, and lies within 0 to 100 for a score within range; otherwise it is 0 |
| GradingResult.RoundHalfEven | src/models/grading_result.py:161 | Python's `round` to an integer: within one half of the input, and even when the input is exactly halfway |
| GradingResult.RoundHalfEvenUnique | src/models/grading_result.py:161 | any integer that is within one half and even on a tie is the rounded value, so rounding is fully pinned down |
| GradingResult.Round2 | src/models/grading_result.py:161 | `round(x, 2)` is a whole number of hundredths, the rounded value of 100x, and within 0.005 of x |
| GradingResult.Round2Keeps | src/models/grading_result.py:161 | rounding a value already in hundredths keeps it |
| GradingResult.ThirdRounded | src/models/grading_result.py:176 | a score of 1 out of 3 is exported as 33.33 percent |
| GradingResult.BestEntry | src/models/grading_result.py:142-144 | the entry chosen from the first n entries is reached by the percentage, has the highest reached threshold and is the earliest with that threshold; there is none exactly when no threshold is reached |
| GradingResult.LetterGrade | src/models/grading_result.py:129-145 | "F" when the percentage reaches no threshold; otherwise the letter of the highest threshold it reaches, the earliest one among equal thresholds (the stable sort) |
| GradingResult.DefaultScaleBands | src/models/grading_result.py:131-145 | under the default scale the letter is A from 90, B from 80, C from 70, D from 60 and F below |
| GradingResult.SummaryCells | src/models/grading_result.py:153-169 | the summary cells carry exactly the fifteen summary column names, in order |
| GradingResult.FlatRow | src/models/grading_result.py:151-180 | the flat row names each column once, and holds exactly the summary columns and the columns of the question cells |
| GradingResult.FlatRowSummaryValue | src/models/grading_result.py:153-180 | a summary column that no question cell writes keeps its summary value in the flat row |
| GradingResult.FlatRowPercentage | src/models/grading_result.py:161 | unless a question writes it, the row's "percentage" is the grade's percentage rounded to two decimals |
| GradingResult.QuestionIdCanOverwriteSummary | src/models/grading_result.py:171-178 | a question whose id is "total" writes its score over the summary's `total_score` column |
| OutputManager.AddNew | src/utils/output_manager.py:109-112 | adding a row's keys to the column list keeps the earlier columns as a prefix, adds exactly the missing keys and keeps columns distinct |
| OutputManager.AddNewFresh | src/utils/output_manager.py:109-112 | keys that are all new and distinct are appended in their own order |
| OutputManager.Columns | src/utils/output_manager.py:109-112 | the table's columns are distinct and are exactly the keys of some row |
| OutputManager.FirstRowLeads | src/utils/output_manager.py:109-112 | the first row's keys are the first columns, in their order |
| OutputManager.JoinedBlocksPermute | src/utils/output_manager.py:128-129 | the priority block and the rest block together hold every column exactly once |
| OutputManager.BlocksCount | src/utils/output_manager.py:128-129 | chosen members in a lead order followed by the unchosen rest are a permutation of the columns |
| OutputManager.OrderColumns | src/utils/output_manager.py:115-131 | the reordered columns are exactly the original ones, and no priority column follows a non-priority one |
| OutputManager.OrderColumnsPermutes | src/utils/output_manager.py:128-131 | for distinct columns the reordering is a permutation without repeats |
| OutputManager.OrderColumnsKeepsOrder | src/utils/output_manager.py:128-129 | the priority columns appear in their fixed order and the other columns in their original order |
| OutputManager.CsvHeader | src/utils/output_manager.py:106-131 | the CSV header names each column once, and holds exactly the columns of some grade's flat row |
| OutputManager.PriorityColumnsAreSummary | src/utils/output_manager.py:115-122 | each priority column is one of the summary columns of a flat row |
| OutputManager.PriorityColumnsPresent | src/utils/output_manager.py:115-128 | with at least one grade every priority column is present in the table |
| OutputManager.HeaderStartsWithPriority | src/utils/output_manager.py:115-131 | with at least one grade the header starts with the six priority columns in their fixed order |
| OutputManager.PriorityBlock | src/utils/output_manager.py:128-129 | a sequence whose priority members lead, and are exactly the priority columns in order, starts with them |
| OutputManager.CountFor | src/utils/output_manager.py:191 | the distribution has an entry exactly for A, B, C, D and F |
| OutputManager.Tally | src/utils/output_manager.py:190-192 | counting a letter adds one to its own entry and to the total, leaves every other entry alone, and drops a letter outside the keys |
| OutputManager.Distribution | src/utils/output_manager.py:185-194 | each entry is the number of grades with that letter; the counts add up to at most the number of letters, and exactly that when every letter is a key |
| OutputManager.LetterIsCounted | src/utils/output_manager.py:190 | under the default scale every grade's letter is one of the distribution's keys |
| OutputManager.GradeDistribution | src/utils/output_manager.py:185-194 | each letter's entry is the number of grades with that letter, and the entries add up to the number of grades |
| OutputManager.TotalBounds | src/utils/output_manager.py:157 | the sum of n scores within bounds lies within n times the bounds |
| OutputManager.Highest | src/utils/output_manager.py:159 | `max` is one of the scores and at least every score |
| OutputManager.Lowest | src/utils/output_manager.py:160 | `min` is one of the scores and at most every score |
| OutputManager.SortedRank | src/utils/output_manager.py:158 | in ascending order at most k elements lie below the k-th and at most the remaining ones above it |
| OutputManager.Median | src/utils/output_manager.py:158 | `sorted(scores)[len // 2]` is one of the scores, with at most half of the scores below it and fewer than the other half above it |
| OutputManager.Average | src/utils/output_manager.py:157 | the average times the count is the sum |
| OutputManager.AverageBounds | src/utils/output_manager.py:157 | the average lies between any bounds of the scores |
| OutputManager.StatsOf | src/utils/output_manager.py:154-168 | the statistics count the scores; lowest, highest and median are scores, and lowest and highest bound every score and the average; the average percentage is the average over the maximum; the zero count is 0 exactly when no score is 0 and the full count is the count exactly when every score reaches the maximum |
| OutputManager.FirstMatch | src/utils/output_manager.py:217-221 | the inner loop takes a submission's first entry for the question id, or none when it has no entry |
| OutputManager.Matches | src/utils/output_manager.py:216-221 | one entry per grade that has the question id, all with that id: as many as grades exactly when every grade has it, and some exactly when some grade has it |
| OutputManager.QuestionStats | src/utils/output_manager.py:212-235 | a used question id counts between one and all grades, all of them exactly when every grade has the question |
| OutputManager.QuestionStatistics | src/utils/output_manager.py:196-237 | one entry per question id any grade uses, and none without grades |
| OutputManager.Flagged | src/utils/output_manager.py:171-179 | the flagged list holds exactly an entry for each grade that requires human review |
| OutputManager.FlaggedAppend | src/utils/output_manager.py:171-179 | the flagged list keeps grade order: flagging a concatenation flags each part in turn |
| OutputManager.ReviewCountIsFlagged | src/utils/output_manager.py:273 | the console's review count equals the length of the summary file's flagged list |
| OutputManager.BatchStats | src/utils/output_manager.py:147-168 | the batch statistics count every grade against the first grade's maximum, and their full, zero, lowest and highest figures match the total scores |
| OutputManager.SummaryStats | src/utils/output_manager.py:239-274 | the console summary is the empty one exactly without grades; otherwise it counts every grade against the first grade's maximum, and the review count is the number of flagged grades |
| OutputManager.SummaryFile | src/utils/output_manager.py:136-183 | the summary file keeps the assignment id; it is the empty one exactly without grades, and otherwise takes the first grade's assignment name |
| OutputManager.SummaryFileAgrees | src/utils/output_manager.py:136-274 | the summary file and the console summary report the same statistics and review count; the distribution counts every grade once; the question statistics cover every question id |
| PromptBuilder.NormalizeMode | backend/src/utils/prompt_builder.py:27-36 | "basic" and "standard" are kept and every other mode string becomes full |
| PromptBuilder.ModeName | backend/src/utils/prompt_builder.py:31 | each mode's name passes the constructor's check as that same mode |
| PromptBuilder.FormatRubric | backend/src/utils/prompt_builder.py:144-186 | criteria and additional instructions appear only outside basic mode and only when present; full credit is the rubric's own amount, else the question's non-zero points, else absent; the other scoring amounts and the custom rules are shown in every mode |
| PromptBuilder.DefaultRubricBlock | backend/src/utils/prompt_builder.py:144-186 | a rubric left at its defaults is shown the same way in every mode: a zero for no submission, full credit exactly when the question's points are non-zero, and nothing else |
| PromptBuilder.EffectiveRubric | backend/src/utils/prompt_builder.py:84 | a question's own rubric wins, else the general rubric |
| PromptBuilder.FormatQuestion | backend/src/utils/prompt_builder.py:69-87 | a question keeps its id, text and points; its answer key is shown exactly in full mode when non-empty; it has a rubric exactly when it or the assignment has one |
| PromptBuilder.FormatQuestions | backend/src/utils/prompt_builder.py:69-87 | one block per question, in order |
| PromptBuilder.BuildSystemPrompt | backend/src/utils/prompt_builder.py:38-115 | one block per question; the general rubric is shown on its own exactly when there is one and no question has its own; the answer-key document exactly in full mode when non-empty; the course code exactly when non-empty |
| PromptBuilder.BuildQuestionPrompt | backend/src/utils/prompt_builder.py:386-478 | the single-question prompt shows the question block as the whole-assignment prompt does, and the answer; a non-empty context is shown, cut to its first 500 characters followed by "..." when longer |
| PromptBuilder.RubricDisclosureNested | backend/src/utils/prompt_builder.py:144-186 | a mode that discloses more shows every rubric piece a lesser mode shows, with the same content |
| PromptBuilder.QuestionDisclosureNested | backend/src/utils/prompt_builder.py:69-87 | the same nesting holds for one question's block |
| PromptBuilder.SystemDisclosureNested | backend/src/utils/prompt_builder.py:38-115 | basic shows no more than standard, and standard no more than full, in the whole-assignment prompt |
| PromptBuilder.QuestionPromptDisclosureNested | backend/src/utils/prompt_builder.py:386-478 | the same nesting holds for the single-question prompt, whose context and answer do not depend on the mode |
| PromptBuilder.AnswerKeysOnlyInFull | backend/src/utils/prompt_builder.py:77-81 | outside full mode no answer key of any kind reaches the prompt |
| PromptBuilder.BasicShowsNoCriteria | backend/src/utils/prompt_builder.py:150-178 | basic mode shows no criteria and no rubric instructions anywhere |
| AnswerExtraction.KeepLarge | backend/src/agents/answer_extraction_agent.py:152-200 | the kept embedded images are exactly the decodable ones larger than 100 pixels in both directions |
| AnswerExtraction.LastPage | backend/src/agents/answer_extraction_agent.py:225 | the last page rendered is `min(page_count, max_pages)` for a non-zero budget and the page count otherwise |
| AnswerExtraction.ConvertPages | backend/src/agents/answer_extraction_agent.py:202-247 | no pages for a PDF that cannot be opened or has more than 20 pages; any pages rendered are pages 1 to the last page of a PDF of at most 20 pages |
| AnswerExtraction.HybridImages | backend/src/agents/answer_extraction_agent.py:119-150 | the large embedded images when there are any, else at most ten rendered pages; the flag is set exactly when images were found |
| AnswerExtraction.ShrinkToFit | backend/src/agents/answer_extraction_agent.py:343-345 | an image larger than 2000 pixels in a direction is scaled to fit a 2000-pixel box, a non-empty image stays non-empty, and a small one is untouched |
| AnswerExtraction.Scaled | backend/src/agents/answer_extraction_agent.py:345 | a scaled side is at most 2000 pixels and non-zero for a non-zero side |
| AnswerExtraction.EncodeAll | backend/src/agents/answer_extraction_agent.py:339-354 | there are at most as many encodings as images |
| AnswerExtraction.EncodeAllKeepsSuccesses | backend/src/agents/answer_extraction_agent.py:341-354 | the encodings are exactly the successful encodings of the shrunk images, in image order; an image whose encoding fails is skipped |
| AnswerExtraction.EncodeAllEveryImage | backend/src/agents/answer_extraction_agent.py:341-354 | when every image encodes, the i-th encoding is the i-th image's; when none does, there are none |
| AnswerExtraction.EncodeAllAppend | backend/src/agents/answer_extraction_agent.py:341-354 | encoding two runs of images gives the first run's encodings followed by the second's |
| AnswerExtraction.TranscribeImages | backend/src/agents/answer_extraction_agent.py:320-400 | at most the first ten images are encoded; with none encoded there is no text; a failed vision call keeps the encoded images but gives no text |
| AnswerExtraction.TranscribeImagesSendsFirstTen | backend/src/agents/answer_extraction_agent.py:335-354 | the images sent for transcription are exactly the successful encodings among the first ten images, in their order; when each of those encodes, min(number of images, 10) are sent |
| AnswerExtraction.Combine | backend/src/agents/answer_extraction_agent.py:281-284 | without image text the content is the document text; with it, the content starts with the text, holds the image header and ends with the image text |
| AnswerExtraction.QuestionPreviews | backend/src/agents/answer_extraction_agent.py:418-422 | the mapping call sees each question's id with the first 200 characters of its text |
| AnswerExtraction.PerQuestion | backend/src/agents/answer_extraction_agent.py:485-493 | a comprehension over the questions has one entry per question id, all holding the same value |
| AnswerExtraction.Lookup | backend/src/agents/answer_extraction_agent.py:474-478 | for a decoded object, an id it holds gives its entry and a missing id the empty low-confidence entry |
| AnswerExtraction.LookupAll | backend/src/agents/answer_extraction_agent.py:472-480 | for a decoded object the lookup succeeds, with one pair per question in question order |
| AnswerExtraction.MapQuestions | backend/src/agents/answer_extraction_agent.py:402-493 | whatever the model replies, the mapping has exactly one entry per question id |
| AnswerExtraction.MappingFailureFallback | backend/src/agents/answer_extraction_agent.py:482-493 | when the mapping call fails, a single-question assignment gets the whole content and every question of a larger one gets empty text, with low confidence |
| AnswerExtraction.ExtractionNotes | backend/src/agents/answer_extraction_agent.py:295-301 | the notes are absent exactly when there are no images and the text is not blank; with images they start with "Processed "; a blank text without images gives "No text answer found" |
| AnswerExtraction.Attach | backend/src/agents/answer_extraction_agent.py:290-301 | attaching metadata succeeds exactly for an object entry whose text is absent or a string; the answer is marked as from images exactly when there were images, carries the notes for its text, and has no images when there were none |
| AnswerExtraction.FirstAttachError | backend/src/agents/answer_extraction_agent.py:291-301 | there is no error exactly when every entry takes its metadata |
| AnswerExtraction.AttachAll | backend/src/agents/answer_extraction_agent.py:290-303 | the metadata pass succeeds exactly when no entry raises, and then keeps the keys in order with each entry's own answer |
| AnswerExtraction.ErrorEntries | backend/src/agents/answer_extraction_agent.py:305-316 | the error entries have one entry per question id, each with empty text, no images and the note |
| AnswerExtraction.MapContent | backend/src/agents/answer_extraction_agent.py:249-318 | the answers have exactly one entry per question id, and none is marked as from images unless there were images |
| AnswerExtraction.ImagesFor | backend/src/agents/answer_extraction_agent.py:84-92 | no images are looked for unless image processing is on and the path ends in ".pdf" in any letter case |
| AnswerExtraction.ExtractAnswers | backend/src/agents/answer_extraction_agent.py:53-117 | extraction never raises and returns exactly one entry per question id; when reading the document fails, every entry is empty and notes the error |
| QaGrading.ShownAnswer | backend/src/agents/qa_grading_agent.py:530-536 | a blank answer is replaced by "No answer provided" and any other is kept, so the model never sees a blank answer |
| QaGrading.AskedPrompt | backend/src/agents/qa_grading_agent.py:529-546 | the model is asked with the question's block and the answer, or the placeholder for a blank answer |
| QaGrading.StrField | backend/src/agents/qa_grading_agent.py:570-573 | a missing string field takes its default; a present one validates exactly when it is a string, and then is that string |
| QaGrading.FloatField | backend/src/agents/qa_grading_agent.py:571-572 | a missing number field takes its default, and a present one is its `float()` conversion |
| QaGrading.OptStrField | backend/src/agents/qa_grading_agent.py:574 | an optional text field is absent exactly when missing or null, is the string when it holds one, and fails validation for any other value |
| QaGrading.Strings | backend/src/agents/qa_grading_agent.py:575-576 | a list validates as a list of strings exactly when every item is a string, keeping them in order |
| QaGrading.OptStrListField | backend/src/agents/qa_grading_agent.py:575-576 | an optional string-list field is absent exactly when missing or null, and otherwise comes from a list of strings |
| QaGrading.OptFloatDictField | backend/src/agents/qa_grading_agent.py:577 | an optional deductions field is absent exactly when missing or null; otherwise it comes from an object and keeps its keys, each value converted by `float()` |
| QaGrading.ConvertQuestionGrade | backend/src/agents/qa_grading_agent.py:568-580 | only an object reply converts; a converted grade is valid, carries the extraction flags, and takes the reply's id, score and maximum, or the configured id, 0 and the question's points when the reply leaves them out |
| QaGrading.ErrorQuestionGrade | backend/src/agents/qa_grading_agent.py:594-619 | the error grade earns 0 of the question's points, with the fixed reasoning and feedback, and carries the extraction flags |
| QaGrading.GradeSingleQuestion | backend/src/agents/qa_grading_agent.py:509-592 | the grade is always valid and carries the extraction flags; an unreachable model, an unparsable reply or an empty one gives the error grade; a reply that converts gives its converted grade; any other grade comes from an object reply |
| QaGrading.ContextLine | backend/src/agents/qa_grading_agent.py:664 | a context line starts with the other question's id and ": ", ends with "...", and shows at most 100 characters of the answer |
| QaGrading.OtherLines | backend/src/agents/qa_grading_agent.py:663-667 | the context lines come only from answers to other questions, one for each extracted answer when the question itself has none |
| QaGrading.OtherLinesAreOthers | backend/src/agents/qa_grading_agent.py:663-667 | the context lines are exactly the lines of the other questions' answers, in extraction order |
| QaGrading.ContextFor | backend/src/agents/qa_grading_agent.py:660-668 | there is no context exactly for a single-question assignment |
| QaGrading.ContextShowsFirstOthers | backend/src/agents/qa_grading_agent.py:660-668 | with several questions the context is the lines of the first three other answers (fewer if there are fewer), joined by newlines |
| QaGrading.GradeQuestion | backend/src/agents/qa_grading_agent.py:650-688 | each question's grade is valid; it carries the extracted answer's image flag, or no image flag and the "not found" note when the extraction has no entry for it |
| QaGrading.GradeAll | backend/src/agents/qa_grading_agent.py:650-688 | one valid grade per configured question, in order |
| QaGrading.GradeSubmissionWithExtraction | backend/src/agents/qa_grading_agent.py:621-719 | for a validated configuration one grade per question in order, the totals are the sums of the question scores and maxima (non-negative and positive), there is no comment yet and no review flag |
| QaGrading.ZeroGrades | backend/src/agents/qa_grading_agent.py:440-449 | one zero grade per configured question at its points, with the given reasoning and feedback |
| QaGrading.ZeroGradesSum | backend/src/agents/qa_grading_agent.py:440-449 | zero grades at the configured points sum to 0 out of the points sum |
| QaGrading.ErrorGrade | backend/src/agents/qa_grading_agent.py:421-464 | the error grade exists exactly when the configured total is positive; it scores 0 out of that total, is flagged for review with the fixed reason and comment, and grades every question 0 |
| QaGrading.EmptyGrade | backend/src/agents/qa_grading_agent.py:466-507 | the empty-submission grade exists exactly when the configured total is positive; it scores 0 out of that total, is not flagged, and grades every question 0 |
| QaGrading.FixedGradesQuestionsSum | backend/src/agents/qa_grading_agent.py:440-507 | the fixed grades' question maxima add up to the points sum, whatever total they report |
| QaGrading.ModelUnavailableScoresZero | backend/src/agents/qa_grading_agent.py:588-592 | when the model cannot be reached every question gets the error grade, and the submission scores 0 out of the points sum |
| ReportGenerator.CountPerfect | backend/src/agents/report_generator.py:152 | the number of full-mark questions is at most the number of questions |
| ReportGenerator.CountZero | backend/src/agents/report_generator.py:153 | the number of zero-score questions is at most the number of questions |
| ReportGenerator.Statistics | backend/src/agents/report_generator.py:121-168 | the totals are the sums of scores and maxima, the percentage is their ratio (0 for a non-positive maximum), the counts are the full-mark and zero counts, and no grades give all zeros |
| ReportGenerator.AllZeroCounts | backend/src/agents/report_generator.py:152-153 | when every valid grade scored nothing, every question counts as a zero and none as full marks |
| ReportGenerator.QuestionLabel | backend/src/agents/report_generator.py:192-201 | a note is labelled with the first 50 characters of the first configured question with the grade's id, or with the id itself when there is none |
| ReportGenerator.QuestionNote | backend/src/agents/report_generator.py:189-237 | a question is a strength exactly from 90 percent, or from 75 percent with some criteria met; it is an area for improvement exactly below 60 percent, or below 75 percent with some criteria missed; every note starts with its label, and a 60-75 note ends with the first missed criterion |
| ReportGenerator.Strengths | backend/src/agents/report_generator.py:189-237 | the strengths are exactly the strength notes of the list |
| ReportGenerator.Weaknesses | backend/src/agents/report_generator.py:189-237 | the areas for improvement are exactly the improvement notes of the list |
| ReportGenerator.AllStrengths | backend/src/agents/report_generator.py:185-237 | before truncation the strengths are exactly the strength notes of the questions |
| ReportGenerator.AllWeaknesses | backend/src/agents/report_generator.py:185-237 | before truncation the areas for improvement are exactly the improvement notes of the questions |
| ReportGenerator.StrengthsAndWeaknesses | backend/src/agents/report_generator.py:170-243 | each list keeps the first five of its notes in question order, and all of them when there are at most five |
| ReportGenerator.BandsAlwaysNoted | backend/src/agents/report_generator.py:204-230 | a question at 90 percent or more is always a strength before truncation, and one under 60 percent always an area for improvement |
| ReportGenerator.CleanComment | backend/src/agents/report_generator.py:306-310 | the model's comment is stripped, and one pair of surrounding double quotes is removed; a lone quote becomes empty; anything else is kept as stripped |
| ReportGenerator.CommentBand | backend/src/agents/report_generator.py:318-329 | the fallback opening is chosen by the bands 90, 80, 70 and 60 percent |
| ReportGenerator.CommentBandMonotone | backend/src/agents/report_generator.py:318-329 | a higher percentage never gets a harsher opening |
| ReportGenerator.FallbackComment | backend/src/agents/report_generator.py:314-329 | the fallback comment starts with its band's opening and " Score: ", and ends with the percentage to one decimal and "%)" |
| ReportGenerator.OverallComment | backend/src/agents/report_generator.py:245-329 | a model reply gives its cleaned comment, and a failed call the fallback comment |
| ReportGenerator.CountImageIssues | backend/src/agents/report_generator.py:356-361 | the image-issue count is positive exactly when some question from images has "error" in its notes |
| ReportGenerator.CountUnclearZeros | backend/src/agents/report_generator.py:366-368 | the unclear-zero count is positive exactly when some question scored 0 with reasoning under 50 characters |
| ReportGenerator.ReviewReasons | backend/src/agents/report_generator.py:346-372 | each of the four reasons is listed exactly when its condition holds, in the fixed order, with the counted reasons carrying their counts |
| ReportGenerator.ReasonTexts | backend/src/agents/report_generator.py:346-372 | one reason text per reason, in order |
| ReportGenerator.ReviewCheck | backend/src/agents/report_generator.py:331-377 | a grade is flagged exactly when more than half the questions scored zero, or it is above 95 percent without every question full, or some question has an image issue or an unclear zero; the reason is given exactly when flagged, as the reasons joined by "; " |
| ReportGenerator.AllZeroFlagged | backend/src/agents/report_generator.py:349-350 | a submission whose valid grades all scored nothing is always flagged |
| ReportGenerator.ReportOnError | backend/src/agents/report_generator.py:104-119 | the error report recomputes both sums, has no lists, and is flagged with the error in the reason |
| ReportGenerator.GenerateReport | backend/src/agents/report_generator.py:42-102 | the report's totals are the sums, it has at most five notes of each kind, and its review flag and reason are the review rule's |
| ConfigGenerator.OrDefault | backend/src/agents/config_generator_agent.py:187-188 | a present, non-empty course code or term is kept; a missing or empty one takes the default |
| ConfigGenerator.ItemValue | backend/src/agents/config_generator_agent.py:200-202 | one question contributes its points, 0 when it has none, and summing raises for a question that is not a mapping or whose points are not a number |
| ConfigGenerator.SumItemPoints | backend/src/agents/config_generator_agent.py:200-202 | the total of a question list exists exactly when every question contributes a value |
| ConfigGenerator.SumPoints | backend/src/agents/config_generator_agent.py:199-202 | an empty list totals 0, a list totals its questions' points, and a value that cannot be iterated raises |
| ConfigGenerator.CompletionShape | backend/src/agents/config_generator_agent.py:184-207 | the completed configuration keeps the given id and name, defaults course and term, keeps a truthy total and otherwise uses the sum of the questions' points; it fails exactly when the question count or the sum cannot be taken |
| ConfigGenerator.Request | backend/src/agents/config_generator_agent.py:61-72 | the request carries the name and questions text, and the answer-key text exactly when a non-empty key path gives non-empty text |
| ConfigGenerator.GenerateFailures | backend/src/agents/config_generator_agent.py:61-63 | generation raises when the questions document yields no text, and when the reply parses to nothing or to a falsy value |
| ConfigGenerator.GenerateSuccess | backend/src/agents/config_generator_agent.py:35-209 | generation succeeds exactly when there is questions text and the reply parses to a non-empty object whose completion succeeds, and then gives that completion |
| ConfigGenerator.Message | backend/src/agents/config_generator_agent.py:254-270 | a missing-field issue reads "Missing required field: ..." and every per-question issue starts with "Question " |
| ConfigGenerator.MissingFields | backend/src/agents/config_generator_agent.py:251-254 | the missing fields are distinct and are exactly the required fields the configuration lacks |
| ConfigGenerator.AtMostZero | backend/src/agents/config_generator_agent.py:269 | the comparison with 0 is defined exactly for numbers and booleans, and for a number is whether it is at most 0 |
| ConfigGenerator.Inspect | backend/src/agents/config_generator_agent.py:263-270 | checking a question raises exactly when membership cannot be tested or present points cannot be compared with 0; otherwise it records which fields are present and whether present points are at most 0 |
| ConfigGenerator.InspectAll | backend/src/agents/config_generator_agent.py:261-270 | a question list can be checked exactly when each question can, and the result has one check per question in order |
| ConfigGenerator.InspectQuestions | backend/src/agents/config_generator_agent.py:258-261 | the questions value can be checked only when it can be iterated; the checks are empty exactly when its length is 0 |
| ConfigGenerator.QuestionIssues | backend/src/agents/config_generator_agent.py:263-270 | every issue of question n is about question n |
| ConfigGenerator.QuestionIssuesReport | backend/src/agents/config_generator_agent.py:263-270 | a question is reported for a missing id, text or points exactly when it lacks them, and for invalid points exactly when it has points at most 0 |
| ConfigGenerator.IssueLists | backend/src/agents/config_generator_agent.py:261 | one issue list per question, numbered consecutively from the first number |
| ConfigGenerator.QuestionsIssuesAt | backend/src/agents/config_generator_agent.py:261-270 | an issue appears among a run of questions' issues exactly when it names one of those questions and is among that question's own issues |
| ConfigGenerator.ListIssuesReport | backend/src/agents/config_generator_agent.py:257-270 | the question checks report no missing field, report an empty list exactly when it is empty, and report about question n exactly what its own check finds |
| ConfigGenerator.MissingIssues | backend/src/agents/config_generator_agent.py:251-254 | each required field the configuration lacks is reported exactly once, and nothing else is reported |
| ConfigGenerator.ValidateConfig | backend/src/agents/config_generator_agent.py:241-273 | validation raises exactly when the questions value cannot be checked; otherwise the configuration is valid exactly when no issue is found |
| ConfigGenerator.ValidateConfigMissingFields | backend/src/agents/config_generator_agent.py:250-254 | the validation's issues name each missing required field once and no other field |
| ConfigGenerator.ValidateConfigNoQuestions | backend/src/agents/config_generator_agent.py:257-259 | an empty question list is reported exactly when the configuration has a questions value of length 0 |
| ConfigGenerator.ValidateConfigQuestion | backend/src/agents/config_generator_agent.py:261-270 | question n is reported for an issue exactly when it exists and its own check finds that issue; without questions no question is reported |
| ConfigGenerator.GeneratedValidation | backend/src/agents/config_generator_agent.py:184-196 | a generated configuration has every required field, so validating it reports only what its question list gives |
| ConfigGenerator.TextPreview | backend/src/agents/config_generator_agent.py:321-324 | text of at most 100 characters is shown whole and longer text as its first 100 followed by "..."; the preview raises exactly for a value without a length or a list or object of over 100 entries |
| StudentIds.QaIdOfTokens | backend/src/agents/qa_grading_agent.py:757-790 | the grading agent's id is "unknown" or one of the tokens after the name: the token after a LATE marker, or else a digit token of at least four characters |
| StudentIds.CsvIdOfTokens | csv_manager.py:98-121 | the CSV manager's id is "unknown" for a name without `_`, otherwise the second token, or the third after a LATE marker |
| StudentIds.StemsOfJoin | backend/src/agents/qa_grading_agent.py:768-772 | a name joined from plain tokens plus an extension splits back into the same tokens under both stem rules, so both id extractors see exactly those tokens |
| StudentIds.LateTokens | csv_manager.py:106-109 | after a LATE second token both the grading agent and the CSV manager take the third token |
| StudentIds.IdExtractorsAgreeOnComposed | backend/src/agents/qa_grading_agent.py:757-790 | on a file name the submission system composes, the grading agent, the CSV manager and the grouper all return the composed student id |
| StudentIds.TokensAfterName | csv_manager.py:106-113 | a numeric second token is the id for both the grading agent and the CSV manager |
| StudentIds.LateTokenUnchecked | backend/src/agents/qa_grading_agent.py:774-777 | after `_LATE_` the grading agent and the CSV manager return the next token even when it is not numeric, while the grouper marks the file late and reports "unknown" |
| StudentIds.CsvTakesSecondToken | csv_manager.py:110-113 | a non-numeric, non-LATE second token is the CSV manager's id, while the grading agent and the grouper skip it and return the numeric id after it |
| StudentIds.CsvLateAlone | csv_manager.py:106-113 | a bare `_LATE` marker is returned as the id by the CSV manager, while the grading agent and the grouper report "unknown" |
| StudentIds.QaNameAsWritten | backend/src/agents/qa_grading_agent.py:722-754 | the grading agent's name extraction as written never returns a name holding `_` |
| StudentIds.QaName | backend/src/agents/qa_grading_agent.py:722-754 | the corrected name extraction runs the same seven passes in the same order, except that course and homework markers keep the `_` that follows them and `_LATE`/`_complete` match only whole tokens; it never returns a name holding `_` |
| StudentIds.QaNameFirstToken | backend/src/agents/qa_grading_agent.py:745-752 | when the stem's first `_`-token holds no copy marker, the corrected extraction returns that token stripped, whatever follows it |
| StudentIds.QaNameAgreesUntriggered | backend/src/agents/qa_grading_agent.py:733-754 | when, at each of the four underscore-led passes, the corrected pattern matches exactly where the written one does, the corrected and the as-written extractions return the same name |
| StudentIds.QaNameCopyBeforeId | backend/src/agents/qa_grading_agent.py:733-754 | for `name-copy_id` (as in `alice-2_12345.pdf`) both extractions delete the trailing id and then the copy number, giving `name` |
| StudentIds.QaNameGluesCourseMarker | backend/src/agents/qa_grading_agent.py:733-752 | as written, deleting `_CS<digits>_` glues the next token onto the name: `name_CS361_next` gives `namenext` |
| StudentIds.QaNameSkipsCourseMarker | backend/src/agents/qa_grading_agent.py:722-754 | the corrected extraction returns the name before a course marker |
| StudentIds.QaNameCutsLatex | backend/src/agents/qa_grading_agent.py:733-752 | as written, `_LATE` matched ignoring case cuts into `_latex`: `jo_latex.pdf` gives `jox` |
| StudentIds.QaNameKeepsLatex | backend/src/agents/qa_grading_agent.py:722-754 | the corrected extraction returns `jo` for `jo_latex.pdf` |
| StudentIds.QaNameAgreesWithGrouper | backend/src/agents/qa_grading_agent.py:722-754 | on composed file names without copy markers, the corrected name extraction and the grouper return the same student name |
| StudentIds.LegacyNameAsWritten | grading_agent.py:107-125 | the first-generation name extraction as written never returns a name holding `_` |
| StudentIds.LegacyName | grading_agent.py:107-125 | the corrected first-generation name extraction never returns a name holding `_` |
| StudentIds.LegacyNameGluesId | grading_agent.py:110-124 | as written, deleting `_2` glues an id starting with 2 onto the name: `bo_2024.py` gives `bo024` |
| StudentIds.LegacyNameKeepsName | grading_agent.py:107-125 | the corrected extraction returns `bo` for `bo_2024.py` |
| StudentIds.LegacyNameAgreesWithGrouper | grading_agent.py:107-125 | on composed file names without copy markers, the corrected first-generation extraction and the grouper return the same student name |
| SubmissionGrouper.FirstId | backend/src/processors/submission_grouper.py:82-92 | the position found holds an id token (all digits, at least four) and no earlier token is one; none is found exactly when no token is one |
| SubmissionGrouper.ScanTokensAccounting | backend/src/processors/submission_grouper.py:82-100 | the loop places every token after the name exactly once: as the student id, as the submission id or in the remainder |
| SubmissionGrouper.ScanTokensIds | backend/src/processors/submission_grouper.py:82-92 | the loop's student and submission ids are the first and second id tokens read from the front |
| SubmissionGrouper.ScanIdsAreIds | backend/src/processors/submission_grouper.py:86-92 | the loop records only id tokens, and records a submission id only after a student id |
| SubmissionGrouper.ParseTail | backend/src/processors/submission_grouper.py:64-110 | the parsed student id is an id token or "unknown", and a submission id is an id token found only after a student id |
| SubmissionGrouper.ParseFilename | backend/src/processors/submission_grouper.py:18-122 | parsing keeps the extension and the original name, gives a name without `_`, and the id guarantees of the tail parse |
| SubmissionGrouper.ParseWithoutUnderscore | backend/src/processors/submission_grouper.py:52-62 | a stem without `_` is the whole name, not late, with an unknown id, no submission id and no remainder |
| SubmissionGrouper.ParsedNameIsStemPrefix | backend/src/processors/submission_grouper.py:47-65 | the parsed name is the stem up to its first underscore |
| SubmissionGrouper.ParseComposeRoundTrip | backend/src/processors/submission_grouper.py:18-41 | parsing a name composed as `name[_LATE]_studentId_submissionId_rest.ext` recovers each part |
| SubmissionGrouper.LateFilenameExample | backend/src/processors/submission_grouper.py:23-39 | `lawfordjack_LATE_101445_22007124_HW8.py` parses to the documented fields |
| SubmissionGrouper.StudentKeyInjective | backend/src/processors/submission_grouper.py:124-136 | for names and ids without `_`, two keys are equal exactly when both the names and the ids are |
| SubmissionGrouper.ItemsWithKey | backend/src/processors/submission_grouper.py:152-159 | the items with one key keep input order and all carry that key |
| SubmissionGrouper.GroupsAreFilters | backend/src/processors/submission_grouper.py:138-173 | each group holds exactly the files with its key, in input order; a key without files has no group, and keys are distinct |
| SubmissionGrouper.GroupingKeepsEveryItem | backend/src/processors/submission_grouper.py:152-159 | the groups together hold as many files as were given |
| SubmissionGrouper.AllAgree | backend/src/processors/submission_grouper.py:226-235 | the loop accepts exactly when every remaining file agrees with the first |
| SubmissionGrouper.ConsistentGroup | backend/src/processors/submission_grouper.py:207-235 | a group is consistent exactly when every file parses to the first file's name and id |
| SubmissionGrouper.SameKeySameStudent | backend/src/processors/submission_grouper.py:124-136 | files with the same key parse to the same name and id |
| SubmissionGrouper.GroupsAreConsistent | backend/src/processors/submission_grouper.py:138-235 | every group the grouper builds passes the consistency check |
| SubmissionGrouper.GetStudentInfo | backend/src/processors/submission_grouper.py:175-205 | the file count is the group's size; an empty group gives the unknown record, otherwise name and id come from the first file |
| SubmissionGrouper.GroupInfoDescribesEveryFile | backend/src/processors/submission_grouper.py:175-205 | for a group the grouper built, the info read from the first file names the student of every file |
| SubmissionGrouper.SortFilesByName | backend/src/processors/submission_grouper.py:237-247 | the result is a permutation of the paths ordered by file name |
| SubmissionGrouper.ItemsOfKind | backend/src/processors/submission_grouper.py:269-277 | every item in a category has that category's kind |
| SubmissionGrouper.KindsPartition | backend/src/processors/submission_grouper.py:264-279 | the three categories together hold every path exactly once |
| SubmissionGrouper.CategorizeFilesByType | backend/src/processors/submission_grouper.py:249-279 | the code, document and other lists split the paths, each holding only files of its kind |
| SubmissionGrouper.UpperCaseCodeExample | backend/src/processors/submission_grouper.py:270-273 | the extension is compared lower-cased: `Helper.JAVA` is code |
| SubmissionGrouper.DocumentExample | backend/src/processors/submission_grouper.py:267-275 | `readme.pdf` is a document |
| SubmissionGrouper.OtherExample | backend/src/processors/submission_grouper.py:276-277 | `diagram.png` is neither code nor document |
| CodeExtraction.LanguageOfExtension | backend/src/agents/code_extraction_agent.py:279-288 | a known language is returned exactly for its own extension; any other extension gives unknown |
| CodeExtraction.LanguageOfOwnExtension | backend/src/agents/code_extraction_agent.py:279-288 | looking up a language's own extension gives that language back |
| CodeExtraction.DetectLanguage | backend/src/agents/code_extraction_agent.py:275-288 | the language is the one whose extension equals the file's lower-cased extension, and unknown when none does |
| CodeExtraction.DetectExtension | backend/src/agents/code_extraction_agent.py:277 | a file named with a known language's extension, in lower or upper case, is detected as that language |
| CodeExtraction.AnalyzeSyntax | backend/src/agents/code_extraction_agent.py:175-213 | Python is valid exactly when it compiles, Java exactly when it declares a class, anything else exactly when it is not blank; a valid file has no errors and there is at most one |
| CodeExtraction.ExtractStructure | backend/src/agents/code_extraction_agent.py:215-273 | only Python and Java files are inspected; any other file has no functions, classes, imports or main |
| CodeExtraction.Purpose | backend/src/agents/code_extraction_agent.py:290-332 | the purpose is missing exactly when the model call raises; otherwise it is the stripped reply, cut to at most 200 characters |
| CodeExtraction.BreakIndex | backend/src/agents/code_extraction_agent.py:107 | the first line ends at the first character `str.splitlines` breaks at (`\n`, `\r`, vertical tab, form feed, `\x1c`–`\x1e`, `\x85`, U+2028, U+2029), or at the end of the text |
| CodeExtraction.LineCount | backend/src/agents/code_extraction_agent.py:107 | `len(splitlines())`: no lines exactly for empty text, and never more lines than characters |
| CodeExtraction.LineCountOneLine | backend/src/agents/code_extraction_agent.py:107 | a non-empty text without line breaks is one line |
| CodeExtraction.LineCountConsLine | backend/src/agents/code_extraction_agent.py:107 | a line ended by `\n` or `\r\n` adds exactly one line to the count of what follows |
| CodeExtraction.LineCountConsBreak | backend/src/agents/code_extraction_agent.py:107 | a line ended by any single break character other than `\r` adds exactly one line to the count of what follows |
| CodeExtraction.LineCountUnicodeBreaks | backend/src/agents/code_extraction_agent.py:107 | a next-line character (`\x85`, which the Latin-1 fallback makes from byte 0x85), a line separator or a paragraph separator between two characters makes two lines |
| CodeExtraction.MakeFile | backend/src/agents/code_extraction_agent.py:71-108 | a file entry has the file's base name and content, the detected language, the syntax verdict and the line count, and a purpose of at most 200 characters only when the submission has several files |
| CodeExtraction.Rule | backend/src/agents/code_extraction_agent.py:163-167 | the banner rule is 70 `=` characters |
| CodeExtraction.HeaderShape | backend/src/agents/code_extraction_agent.py:163-167 | a banner opens with a rule and the file name, closes with a rule and a blank line, and shows the purpose line only for a non-empty purpose |
| CodeExtraction.ConcatenateAppend | backend/src/agents/code_extraction_agent.py:142-173 | concatenating two lists of files concatenates their texts |
| CodeExtraction.ConcatenateAt | backend/src/agents/code_extraction_agent.py:157-171 | each file's banner and content appear between the text of the files before it and the text of the files after it |
| CodeExtraction.SortedNamesOrdered | backend/src/agents/code_extraction_agent.py:356 | the listed language names are strictly increasing |
| CodeExtraction.SortedNamesMembers | backend/src/agents/code_extraction_agent.py:356 | the listed language names are exactly the names of the languages found |
| CodeExtraction.FunctionTotal | backend/src/agents/code_extraction_agent.py:372-375 | the function total is positive exactly when some file has a function |
| CodeExtraction.ClassTotal | backend/src/agents/code_extraction_agent.py:373-375 | the class total is positive exactly when some file has a class |
| CodeExtraction.Analyze | backend/src/agents/code_extraction_agent.py:334-381 | the summary counts the files, lists their languages in order, lists file names only for several files, warns exactly when some file is invalid, and shows the structure line exactly when some file has a function or class |
| CodeExtraction.FirstFailure | backend/src/agents/code_extraction_agent.py:65-140 | there is an error exactly when some path cannot be read, and the error is that of such a path |
| CodeExtraction.SortedPaths | backend/src/agents/code_extraction_agent.py:71 | the paths are read in sorted order: the same paths, each as often |
| CodeExtraction.ReadFiles | backend/src/agents/code_extraction_agent.py:71-111 | one entry per path, in order, built from that path's content |
| CodeExtraction.ExtractUnreadable | backend/src/agents/code_extraction_agent.py:130-140 | when some file cannot be read the result has no files, no text, no languages and no lines, and its analysis reports the error |
| CodeExtraction.ExtractEveryFile | backend/src/agents/code_extraction_agent.py:41-128 | when every file can be read, the result has one entry per path in sorted order, their joined text, their languages, their line total and their summary |
| CodeExtraction.TotalLinesAppend | backend/src/agents/code_extraction_agent.py:111 | the line total of two lists of files is the sum of their totals |
| CodeEvaluation.ParseEvaluation | backend/src/agents/code_evaluation_agent.py:442-464 | a decodable brace span is the review; without a span the reply is kept under "evaluation" with "See evaluation" for the four dimensions; an undecodable span keeps the reply and the decoder's message |
| CodeEvaluation.ReplyKept | backend/src/agents/code_evaluation_agent.py:448-464 | a reply that does not decode is never lost: it is kept under "evaluation" |
| CodeEvaluation.AiEvaluate | backend/src/agents/code_evaluation_agent.py:116-160 | a reply is parsed; a call that raises gives the fixed error review holding the error and no strengths or improvements |
| CodeEvaluation.SkipSpaces | backend/src/agents/code_evaluation_agent.py:272-280 | the whitespace run from a position ends at the first non-space character or the end |
| CodeEvaluation.GreedyAgrees | backend/src/agents/code_evaluation_agent.py:283-284 | for patterns whose words start with a non-space character, matching each whitespace run whole agrees with the backtracking regular-expression match |
| CodeEvaluation.DangerousPatternsSolid | backend/src/agents/code_evaluation_agent.py:271-281 | every dangerous pattern's words are non-empty and start with a non-space character |
| CodeEvaluation.FirstFound | backend/src/agents/code_evaluation_agent.py:283-290 | the pattern reported is the first in order that matches, and none is reported exactly when no pattern matches |
| CodeEvaluation.MatchContainsWords | backend/src/agents/code_evaluation_agent.py:283-284 | a pattern's match contains each of its words |
| CodeEvaluation.NotFoundWithout | backend/src/agents/code_evaluation_agent.py:283-284 | a pattern is not found in code lacking one of its words |
| CodeEvaluation.NoKeywordNoBlocker | backend/src/agents/code_evaluation_agent.py:271-290 | code mentioning none of import, eval, exec and compile is never blocked |
| CodeEvaluation.ImportOsBlocked | backend/src/agents/code_evaluation_agent.py:271-290 | `import` and `os` separated by any non-empty whitespace block the run, wherever they appear |
| CodeEvaluation.ExecuteTest | backend/src/agents/code_evaluation_agent.py:244-331 | a test passes exactly when the code is not blocked, its input can be piped, the run finishes and the stripped output equals the stripped expected text; blocked code reports the pattern and no output; the limit is 5 seconds |
| CodeEvaluation.BlockedNeverRuns | backend/src/agents/code_evaluation_agent.py:283-290 | blocked code fails every test, whatever the interpreter would do |
| CodeEvaluation.CountPassed | backend/src/agents/code_evaluation_agent.py:226-229 | no more tests pass than were run |
| CodeEvaluation.CountPassedAppend | backend/src/agents/code_evaluation_agent.py:224-229 | one more entry adds one to the pass count exactly when it passed |
| CodeEvaluation.Tally | backend/src/agents/code_evaluation_agent.py:218-229 | one entry per test case in order, passes plus failures equal the entries, and the loop stops exactly at the first test case that is not an object |
| CodeEvaluation.RunPythonTests | backend/src/agents/code_evaluation_agent.py:201-242 | a file-writing error fails the run before any test; otherwise the run completes exactly when every test case is an object, each entry is its test case's result, and the counts add up |
| CodeEvaluation.RunTestCases | backend/src/agents/code_evaluation_agent.py:162-199 | no files is an error, a non-Python first file is unsupported with a language-specific message and no results, and a Python first file runs the tests |
| CodeEvaluation.SliceText | backend/src/agents/code_evaluation_agent.py:473-474 | a string is cut to its first n characters; slicing raises exactly for a value that is neither a string nor a list |
| CodeEvaluation.FirstThree | backend/src/agents/code_evaluation_agent.py:489-499 | at most three items, the first characters of a string or the first items of a list; anything else raises |
| CodeEvaluation.Section | backend/src/agents/code_evaluation_agent.py:489-499 | a list entry adds nothing when falsy, otherwise its heading followed by at most three bullets |
| CodeEvaluation.AssessEmpty | backend/src/agents/code_evaluation_agent.py:466-501 | the assessment has no parts exactly when the review mentions neither correctness, strengths nor improvements and no run completed |
| CodeEvaluation.AssessBounds | backend/src/agents/code_evaluation_agent.py:472-499 | at most ten parts, a string correctness cut to 200 characters, and a correctness part first exactly when correctness is mentioned |
| CodeEvaluation.AssessRaises | backend/src/agents/code_evaluation_agent.py:473-499 | the assessment raises exactly when correctness, strengths or improvements holds a truthy value that is neither a string nor a list |
| CodeEvaluation.AssessmentText | backend/src/agents/code_evaluation_agent.py:501 | no parts give "Code evaluation completed"; a single part is that part's text |
| CodeEvaluation.EvaluateCode | backend/src/agents/code_evaluation_agent.py:49-114 | the review is kept, tests run exactly when execution is enabled and there are test cases, are skipped exactly when there are test cases but execution is disabled, and an assessment that raises gives the error result |
| CliWorkflow.LoadConfig | backend/cli.py:87-128 | loading fails exactly when the configuration is missing or a named answer-key file does not exist; a readable answer key replaces the answer-key text and nothing else changes |
| CliWorkflow.OutputId | backend/cli.py:310-315 | the output id is the assignment id in full mode and otherwise the assignment id, `_` and the mode |
| CliWorkflow.OutputIdsSeparateModes | backend/cli.py:310-315 | runs in different modes never share an output id |
| CliWorkflow.ApplyReport | backend/cli.py:258-263 | the report's comment, strengths, areas for improvement and review flag and reason are written over the grade, and nothing else changes |
| CliWorkflow.GradeWithReport | backend/cli.py:213-263 | a graded file's totals are the sums over its questions, it has one grade per configured question, carries the name extracted from the file name, and its review flag is the report's check on its questions |
| CliWorkflow.ProcessFile | backend/cli.py:189-293 | an empty file, or one with no non-blank extracted answer, gets the empty grade (0 points, not flagged) unless the assignment has no positive total, when the file raises out of the batch; any other file gets the three-stage grade |
| CliWorkflow.CollectGrades | backend/cli.py:188-293 | one grade per file in order, and none at all exactly when some file raises |
| CliWorkflow.ProcessAllSubmissions | backend/cli.py:156-299 | no configuration or no submissions directory gives no grades; otherwise one grade per file in order, unless some file raises out of the batch |
| CliWorkflow.Run | backend/cli.py:337-362 | the run succeeds exactly when the configuration loads, the directory exists, there are files, none raises, and saving under the output id succeeds |
| CliWorkflow.EmptyFileNeedsTotal | backend/cli.py:200-211 | without a configured total a single empty file fails the whole batch; with a positive total no file does |
| LegacyWorkflow.Scores | grading_agent.py:102-104 | one score per value, in order |
| LegacyWorkflow.TotalScore | grading_agent.py:99-105 | a total exists only for a grading that is an object |
| LegacyWorkflow.TotalScoreSkip | grading_agent.py:103 | an item that is not an object holding "score" does not change the total |
| LegacyWorkflow.TotalScoreAdd | grading_agent.py:103-104 | an object holding "score" adds its score to the total of the rest, and raises when the score is not a number |
| LegacyWorkflow.ItemsTotalIsTotal | grading_agent.py:101-105 | adding item by item from the front gives the sum of the scores of the scored items |
| LegacyWorkflow.CalculateTotalScore | grading_agent.py:99-105 | the loop's result is the sum of the scores of the items that are objects holding "score", and raises exactly when such a score is not a number or the grading is not an object |
| LegacyWorkflow.UniformGradingShape | main.py:115-130 | the empty and error gradings hold exactly one entry per question, each a zero score with the fixed reasoning, and add up to 0 |
| LegacyWorkflow.GradeSubmission | grading_agent.py:57-87 | the grading is the decoded reply, whatever JSON value it is, and the default grading when the call raises or the reply does not decode |
| LegacyWorkflow.DefaultGradingZero | grading_agent.py:89-97 | the default grading names every question once and adds up to 0 |
| LegacyWorkflow.GradeFileRecords | main.py:56-103 | each file is recorded under its own name with a total that is exactly what its details add up to: the empty grading for blank text, the graded result when it adds up, and the error grading otherwise |
| LegacyWorkflow.LinkNamesStudent | csv_manager.py:22 | the SpeedGrader link's address gives back the student id it was built from |
| LegacyWorkflow.NewEntryFields | csv_manager.py:16-32 | an entry keeps the name, file name, total and details it was given, takes its id from the file name, and links to that id |
| LegacyWorkflow.AddGradingResult | csv_manager.py:32 | adding a result appends exactly one entry and leaves the earlier ones untouched |
| LegacyWorkflow.EntryAddsUp | main.py:56-103 | every entry the batch records has a total equal to what its details add up to |
| LegacyWorkflow.DetailPairs | csv_manager.py:52-58 | two columns per question, in order: its score column and its reasoning column |
| LegacyWorkflow.DetailColumnsDistinct | csv_manager.py:52-58 | with distinct questions no detail column is named twice |
| LegacyWorkflow.RowDetailCells | csv_manager.py:52-58 | each question's score cell is the detail's score (0 if missing) and its reasoning cell the detail's reasoning ("" if missing) when the detail is an object, and 0 with "Error in grading" otherwise |
| LegacyWorkflow.RowBaseCells | csv_manager.py:42-47 | the name, file name, id and link columns keep the entry's values |
| LegacyWorkflow.RowTotalCell | csv_manager.py:42-58 | the total column keeps the entry's total unless a question is named "total" |
| LegacyWorkflow.TotalQuestionShadowsTotal | csv_manager.py:42-58 | a question named "total" overwrites the total column with its own score |
| LegacyWorkflow.TotalScores | csv_manager.py:85 | one total per result, in order |
| LegacyWorkflow.SummaryStats | csv_manager.py:79-96 | no statistics exactly when there are no results; otherwise the count of results |
| LegacyWorkflow.SummaryStatsExtremes | csv_manager.py:90-91 | the highest and lowest are totals that bound every total |
| LegacyWorkflow.SummaryStatsCounts | csv_manager.py:92-93 | the zero count is 0 exactly when no total is 0, and the full-marks count is the number of results exactly when every total is at least 1 |
| LegacyWorkflow.SummaryStatsAverage | csv_manager.py:89 | the average times the count is the sum of the totals |
| LegacyWorkflow.SummaryStatsConsistent | csv_manager.py:79-96 | the average lies between the extremes, and no total counts both as zero and as full marks |
| LegacyWorkflow.RecordAll | main.py:56-103 | one entry per file, in order |
| LegacyWorkflow.Report | csv_manager.py:35-96 | one flattened row per entry, in order, and the statistics of those entries |
| LegacyWorkflow.ProcessAllSubmissions | main.py:43-113 | nothing without files; otherwise one entry per file in order, each adding up, and the report of those entries |
| Text.Strip | backend/src/agents/code_extraction_agent.py:204 | `str.strip()` as used to test a file for code: the result is the infix of the input framed by whitespace on both sides and neither starts nor ends with whitespace |
| Text.Split | grading_agent.py:122 | `str.split` on one separator character: there is always at least one part and no part contains the separator |
| Text.BeforeFirstDot | grading_agent.py:110 | `filename.split(".")[0]`: a dot-free prefix of the name, followed in the name by a dot unless it is the whole name |
| Text.BeforeFirstDotIsFirstSplit | csv_manager.py:102 | the dot-free prefix is exactly the first part of splitting the name on `.` |
| Text.BeforeLastDot | backend/src/agents/qa_grading_agent.py:733 | `filename.rsplit(".", 1)[0]`: a prefix of the name that is the whole name when it has no dot, and otherwise stops at the last dot |
| Text.Basename | backend/cli.py:191 | `os.path.basename`: a suffix of the path containing no `/`, preceded by a `/` when it is not the whole path |
| Text.SplitExt | backend/src/agents/code_extraction_agent.py:277 | `os.path.splitext`: the two parts concatenate back to the path, and the extension is empty or one leading dot with no further dot or `/` |
| Text.SplitExtOfStem | backend/src/agents/code_extraction_agent.py:277 | a dot-free stem followed by an empty or one-dot extension splits back into exactly that stem and extension |
| Text.Ellipsize | backend/src/agents/config_generator_agent.py:322-323 | a text no longer than the limit is kept whole; a longer one becomes its first characters up to the limit followed by `...` |

## Left out

- CliWorkflow.GradeWithReport: records the student name from the corrected `StudentIds.QaName`. The program calls `QAGradingAgent.extract_student_name`, which is `StudentIds.QaNameAsWritten` (see Findings). The two differ only where a course or homework marker, or a `_late…`/`_complete…` prefix of a longer token, glues text onto the name: for "alice_CS361_HW5.pdf" the program records "aliceHW5" and the model "alice". Everywhere else they agree (`StudentIds.QaNameAgreesUntriggered`), including copy numbers such as "alice-2_12345.pdf" (`StudentIds.QaNameCopyBeforeId`).
- CliWorkflow.ProcessFile: uses the corrected `StudentIds.QaName` in place of the as-written extractor, for the same reason as `CliWorkflow.GradeWithReport`.
- CliWorkflow.ProcessAllSubmissions: inherits the corrected `StudentIds.QaName` through `CliWorkflow.ProcessFile`.
- CliWorkflow.Run: inherits the corrected `StudentIds.QaName` through `CliWorkflow.ProcessAllSubmissions`.
- LegacyWorkflow.GradeFileRecords: records the student name from the corrected `StudentIds.LegacyName`. The program's `extract_student_name` in grading_agent.py is `StudentIds.LegacyNameAsWritten`, so for "bo_2024.py" the program records "bo024" where the model records "bo".
- LegacyWorkflow.EntryAddsUp: inherits the corrected `StudentIds.LegacyName` through `LegacyWorkflow.GradeFile`.
- LegacyWorkflow.ProcessAllSubmissions: inherits the corrected `StudentIds.LegacyName` through `LegacyWorkflow.GradeFile`.
- Text.IsSpace: only ASCII whitespace counts. Python's `str.strip` is Unicode-aware: `"\u00a0x".strip()` gives "x" in Python, while here the no-break space stays. This carries over to `Text.Strip` and every member built on it.
- Text.IsDigit: only '0' to '9' count. Python's `str.isdigit` also accepts other Unicode digits, and this carries over to `Text.IsDigits` and the student-id checks in `StudentIds` and `SubmissionGrouper`.
- Text.Lower: maps only 'A' to 'Z'. Python's `str.lower` and `re.IGNORECASE` fold all of Unicode, so the case-insensitive matches in `StudentIds` and `SubmissionGrouper` are ASCII-only here.
- Text.Upper: maps only 'a' to 'z', for the same reason as `Text.Lower`.
- GradingResult.Round2: rounds the exact rational value half to even. Python rounds the binary float, so an input such as 2.675, stored just below its decimal value, gives 2.67 in Python and 2.68 here.
- Floating point: every Python `float` is an exact `real`, so sums, averages and percentages carry no binary rounding error. The integer-valued Python results (counts and letter-grade thresholds) are the same.
- AnswerExtraction.Scaled: divides with floor. Pillow's `thumbnail` rounds to the nearest size that keeps the aspect ratio, so a 3000×1999 page becomes 2000×1333 in Pillow and 2000×1332 here.
- LegacyWorkflow.GradeFile: a document whose text extraction raises is modelled as extracting "", so it gets the empty grading instead of the error grading.
- The language model is a function of its request. Retries, sampling temperature and network failures other than an error reply are not modelled.
- File I/O is not modelled: writing JSON, CSV and text files, timestamps in file names, logging and console output, `export_for_lms`, `save_config` and the interactive `preview_config` beyond its per-question text line.
- Prompt text is not modelled: the wording of `build_user_prompt`, `build_extraction_prompt`, `get_json_schema`, the image-extraction prompt and the code-evaluation prompts. The model keeps only the structure the grading logic depends on.
- `_set_resource_limits`, `list_assignments`, `create_assignment_template`, `generate_config_from_pdf` and the command-line `main` entry points only do process control and file handling, so they are not modelled.

## Findings

| source | as written | input that shows it | evidently intended | confidence | as-written member | corrected member |
|---|---|---|---|---|---|---|
| backend/src/agents/qa_grading_agent.py:733-752 | `extract_student_name` deletes each pattern with `re.sub(pattern, "", name, flags=re.IGNORECASE)`. Deleting `_CS\d+_` or `_HW\d+_` also deletes the `_` that separates the next token, gluing that token onto the name. The case-insensitive `_LATE` also matches the first five characters of a `_latex` token, gluing its `x` onto the name | "alice_CS361_HW5.pdf" gives "aliceHW5"; "jo_latex.pdf" gives "jox" | the name is the first token, so "alice" and "jo" | not executed | StudentIds.QaNameAsWritten, with StudentIds.QaNameGluesCourseMarker and StudentIds.QaNameCutsLatex | StudentIds.QaName, with StudentIds.QaNameSkipsCourseMarker, StudentIds.QaNameKeepsLatex and StudentIds.QaNameAgreesUntriggered |
| grading_agent.py:110-124 | `extract_student_name` removes "_2" with `replace`, which also cuts the year inside "_2024" | "bo_2024.py" gives "bo024" | the name before the id, "bo" | not executed | StudentIds.LegacyNameAsWritten, with StudentIds.LegacyNameGluesId | StudentIds.LegacyName, with StudentIds.LegacyNameKeepsName |
