# GuruCool core logic in Dafny

This project models, and proves properties of, the self-contained logic of
the GuruCool learning platform (HackXplore). It covers four parts.

- **The Aura rating** (`src/components/Aura.jsx`). This is an Elo-style
  update after a quiz, an assignment or an attendance event.
  - The expected performance is `1 / (1 + 10^((ref - own) / 400))`.
  - The outcome falls in one of three buckets.
  - The gain is `32 * weight * (R - E)`, rounded with `Math.round`.
  - Three writes follow, in order: the user's rating, an audit entry in the
    subject's collection, and a two-slot list of recent changes.
  - Modules: `Elo` (the arithmetic) and `AuraStore` (the Firestore
    collections as maps in a `Database` object).
- **The LLM-output parsers and the chunker.**
  - `chunk_content` and `doc_chunking` (`Chunking`).
  - The line-oriented parsers `extract_questions_from_response` and
    `extract_mcq_from_response` (`QuizParser`).
  - The generation loops `generate_quiz_using_llm` and
    `generate_mcq_quiz_using_llm` (`QuizGeneration`).
  - The regex-based `parse_question_and_answer` and the response check of
    the assignment generators (`AssignmentParser`).
  - Python's string operations that these use (`Text`).
  - These functions are copied into several API and script files. Each copy
    is modelled once; the table below cites every copy next to the member
    that models it.
- **The course planner.**
  - `ensure_topic_count`, `inject_review_and_exploration` and the
    post-processing of `generate_topics_using_llm` (`CoursePolicy`, with a
    `TopicList` object for a list changed in place).
  - `group_topics_into_lectures`, `generate_schedule` and the lecture-count
    arithmetic (`LecturePlan`).
- **The resource inventory** (`Inventory`). This covers the admin handlers
  (add, edit, delete, approve, reject, delete a request) and the
  request-side handlers of the teacher and student pages (the expiry
  sweep, submit, delete, fetch and partition). They run on one `Store`
  object holding the `resources`, `resourceRequests` and `users`
  collections.
- **The download loop of `download_files`** in the archived API
  (`Downloads`): its file-name rule, and the `OSError` from `open`
  that ends it.

The model does not perform any I/O. The language model, the HTTP fetch, whether `open` succeeds,
`Math.pow(10, ·)`, `random`, the clock and the holiday calendar are all
parameters. Dates are day ordinals as `date.toordinal()` counts them.
Exceptions are `Err` values of `Wrappers.Result`.

## Model

| member | source | states |
|---|---|---|
| Elo.ExpectedBounds | src/components/Aura.jsx:5-7 | The expected performance lies strictly between 0 and 1. |
| Elo.ExpectedEven | src/components/Aura.jsx:5-7 | Equal ratings expect exactly one half. |
| Elo.ExpectedBelowHalf | src/components/Aura.jsx:5-7 | E < 1/2 exactly when own < opponent, and E > 1/2 exactly when own > opponent. |
| Elo.ExpectedSymmetric | src/components/Aura.jsx:5-7 | E(a, b) + E(b, a) = 1. |
| Elo.Exp10Witness | src/components/Aura.jsx:6 | The properties assumed of 10^x (positive, 1 at 0, reciprocal at opposite arguments, strictly increasing) are met by some function. |
| Elo.Outcome | src/components/Aura.jsx:52 | The outcome R is always 0, 1/2 or 1. |
| Elo.OutcomeBuckets | src/components/Aura.jsx:52-124 | Quiz and assignment: R = 1 iff score > 80, R = 1/2 iff 50 ≤ score ≤ 80, R = 0 iff score < 50. Attendance: R = 1 iff the rate is exactly 100; R = 1/2 iff it is ≥ 75 and not 100 (above 100 included); R = 0 iff it is < 75. |
| Elo.GainBounds | src/components/Aura.jsx:51-54 | The raw gain 32·w·(R − E) lies strictly inside (−32w, 32w): (−16, 16), (−9.6, 9.6) and (−6.4, 6.4). |
| Elo.GainSign | src/components/Aura.jsx:51-54 | A win always gains, a loss always loses, and a draw gains exactly when own < reference. |
| Elo.Round | src/components/Aura.jsx:58 | `Math.round` gives the integer n with n − 1/2 ≤ x < n + 1/2. |
| Elo.RoundShift | src/components/Aura.jsx:55-58 | Rounding commutes with adding an integer. |
| Elo.AuraChangeShape | src/components/Aura.jsx:54-69 | The logged gain `Math.round(gain)` lies in [−16, 16], [−10, 10] or [−6, 6] by kind. For an integer rating, the stored rating minus the old one equals the logged gain. |
| Elo.AuraChangeDirection | src/components/Aura.jsx:51-58 | For an integer rating, a win never lowers the stored rating and a loss never raises it. |
| AuraStore.PushedShape | src/components/Aura.jsx:16-29 | The new entry comes last. With two or more entries, exactly the oldest is dropped; otherwise nothing is dropped. The others keep their order, and a list of at most two becomes the last two changes. |
| AuraStore.Database.UpdateRecentAuras | src/components/Aura.jsx:9-34 | A missing user means no write. Otherwise the user's list becomes the shifted-and-pushed list and is written back. Nothing else changes, and every list keeps at most two entries. |
| AuraStore.Database.CalculateElo | src/components/Aura.jsx:36-70 | A missing user, activity or subject document means no write at all. Otherwise: the rating becomes `Math.round(current + gain)`, the rounded gain is appended to the subject's audit log, and the recent list is updated. The journal records the rating, audit and recent writes in that order. |
| AuraStore.Database.CalculateEloForQuiz | src/components/Aura.jsx:36-70 | Quiz rating update. A missing user, quiz or subject document means no write: users, audit logs and journal are unchanged. Otherwise the logged gain is within ±16, the user gets the rounded rating and the pushed recent list, the audit entry is appended, and the three writes come in order. Activities and subjects never change, and at most two recent entries per user are kept. |
| AuraStore.Database.CalculateEloForAssignment | src/components/Aura.jsx:72-106 | The same full new state for an assignment, with the logged gain within ±10. |
| AuraStore.Database.CalculateEloForAttendance | src/components/Aura.jsx:108-142 | The same full new state for attendance, with the logged gain within ±6. |
| Chunking.Chunks | GuruCool-API/utils/helpers.py:61-62 | The chunks concatenate back to the input. Every chunk but the last has exactly `size` characters, and the last has 1 to `size`. |
| Chunking.ChunkCount | GuruCool-API/utils/helpers.py:62 | There are ceil(len / size) chunks, so empty content gives no chunks. |
| Chunking.ChunkAt | GuruCool-API/utils/helpers.py:62 | Chunk k is the slice `content[k*size : k*size+size]`. |
| Chunking.ChunksNonEmpty | GuruCool-API/utils/helpers.py:62 | No chunk is empty. |
| Chunking.ChunkPrefix | GuruCool-API/utils/helpers.py:62 | The first c chunks concatenate to the first min(c·size, len) characters. |
| Chunking.ChunkContent | GuruCool-API/utils/helpers.py:61-62 | A chunk size of 0 raises ValueError. A negative size gives no chunks. A positive size gives chunks that concatenate to the input, and ceil(len / size) of them. The same code is copied at GuruCool-ML/API/API_quiz.py:35-36, GuruCool-ML/API/API_teacher_quiz_mcq.py:37-38, GuruCool-ML/Scripts/QuizGuru/QuizGuru.py:25-26, GuruCool-API/archive/GuruCoolAPI.py:320-321. |
| Chunking.DocChunking | GuruCool-API/utils/helpers.py:64-85 | An empty document list gives `{}`, not a list. Otherwise the chunks concatenate to the pages joined with "\n\n", and all but the last have 1000 characters. |
| QuizParser.Field | GuruCool-API/utils/quiz.py:49-52 | Taking the field raises IndexError exactly when the line has no ':'. Otherwise the field is stripped and colon-free. |
| QuizParser.FieldOfTagged | GuruCool-API/utils/quiz.py:49 | The field of `tag + ": " + value` is the value, for a colon-free tag and a stripped, colon-free value. |
| QuizParser.AnswerNotQuestion | GuruCool-API/utils/quiz.py:46-51 | A line starting with "answer" is never taken for a question or an option. |
| QuizParser.CommitQa | GuruCool-API/utils/quiz.py:47-48 | A pair is stored only when both the question and the answer are non-empty. |
| QuizParser.LastAnswerWins | GuruCool-API/utils/quiz.py:51-52 | Of two answer lines in a row, the second replaces the first. |
| QuizParser.UnansweredQuestionDropped | GuruCool-API/utils/quiz.py:46-50 | A question followed directly by another question is never stored, and the answer is reset. |
| QuizParser.QaRunPair | GuruCool-API/utils/quiz.py:46-52 | A question line followed by an answer line commits what was pending and holds the new pair. |
| QuizParser.ExtractQuestionsFromResponse | GuruCool-API/utils/quiz.py:37-57 | The loop computes the fold of the line state machine, or the IndexError it raises. The same code is copied at GuruCool-ML/API/API_quiz.py:76-96, GuruCool-ML/Scripts/QuizGuru/QuizGuru.py:66-86, GuruCool-API/archive/GuruCoolAPI.py:361-381. |
| QuizParser.QaRunKeepsInvariant | GuruCool-API/utils/quiz.py:44-52 | Every stored key and value is non-empty, stripped and colon-free throughout the loop. |
| QuizParser.StoredPairsAreClean | GuruCool-API/utils/quiz.py:37-57 | Every question and answer in a parsed dict is non-empty, stripped and colon-free. |
| QuizParser.QaRunFailsIff | GuruCool-API/utils/quiz.py:49-52 | The loop raises exactly when some question or answer line lacks a ':', and then it raises IndexError. |
| QuizParser.ExtractFailsIffColonMissing | GuruCool-API/utils/quiz.py:44-52 | The parser raises IndexError exactly when some stripped line starts with "question" or "answer" and has no ':'. |
| QuizParser.NoQuestionNoPairs | GuruCool-API/utils/quiz.py:51-55 | Text without a question line gives `{}`: answers before any question are discarded. |
| QuizParser.ExtractQuestionsOfReply | GuruCool-API/utils/quiz.py:37-57 | Round trip: a reply in the prompt's "Question n: … / Answer n: …" format parses to those pairs, a later question overwriting an earlier equal one. |
| QuizParser.CommitMcq | GuruCool-API/utils/quiz.py:110-114 | An entry is stored only with a non-empty question, a non-empty option list and a non-empty answer. |
| QuizParser.OptionKind | GuruCool-API/utils/quiz.py:118-125 | A stripped line starting with a) to d) (any case) is an option kept whole. |
| QuizParser.McqRunOptions | GuruCool-API/utils/quiz.py:118-125 | Option lines are appended to the current options in order. |
| QuizParser.McqItemRun | GuruCool-API/utils/quiz.py:109-127 | A question line resets the options and the answer; its options and answer then make up the pending entry. |
| QuizParser.ExtractMcqFromResponse | GuruCool-API/utils/quiz.py:99-135 | The loop computes the fold of the multiple-choice state machine, or the IndexError it raises. The same code is copied at GuruCool-ML/API/API_teacher_quiz_mcq.py:80-116. |
| QuizParser.McqRunKeepsInvariant | GuruCool-API/utils/quiz.py:107-127 | Stored entries keep a clean question, a clean answer and a non-empty list of whole option lines. |
| QuizParser.StoredMcqsAreClean | GuruCool-API/utils/quiz.py:99-135 | Every parsed entry has a clean question and answer and a non-empty list of option lines. |
| QuizParser.McqRunFailsIff | GuruCool-API/utils/quiz.py:115-127 | The loop raises exactly when some question or answer line lacks a ':', and then it raises IndexError. |
| QuizParser.ExtractMcqFailsIffColonMissing | GuruCool-API/utils/quiz.py:107-127 | The multiple-choice parser raises IndexError exactly when a question line, or an answer line that is not an option, has no ':'. |
| QuizParser.ExtractMcqOfReply | GuruCool-API/utils/quiz.py:99-135 | Round trip: a reply in the prompt's multiple-choice format parses to its entries. |
| QuizGeneration.RoundCount | GuruCool-API/utils/quiz.py:27 | The loop runs min(num_questions, #chunks) times, or not at all for a non-positive count. |
| QuizGeneration.AskRounds | GuruCool-API/utils/quiz.py:22-35 | The loop's dict is the merge of the rounds, or `{}` after the first exception. |
| QuizGeneration.GenerateQuizUsingLlm | GuruCool-API/utils/quiz.py:21-35 | The generator computes the quiz of the chunked documents. |
| QuizGeneration.GenerateMcqQuizUsingLlm | GuruCool-API/utils/quiz.py:79-97 | The generator computes the multiple-choice quiz, and `{}` for no documents. The same code is copied at GuruCool-ML/API/API_teacher_quiz_mcq.py:58-78. |
| QuizGeneration.CopiesAgree | GuruCool-ML/API/API_quiz.py:54-74 | The copy's own empty-documents test and `chunk_content` call compute the same quiz as `doc_chunking`. The copies at GuruCool-ML/Scripts/QuizGuru/QuizGuru.py:44-64, GuruCool-API/archive/GuruCoolAPI.py:339-359 agree in the same way. |
| QuizGeneration.NothingToAsk | GuruCool-API/utils/quiz.py:23-27 | No documents or a non-positive count give `{}`. |
| QuizGeneration.RoundsNext | GuruCool-API/utils/quiz.py:27-29 | One round either fails (model call or parse) or merges its dict into the accumulated one. |
| QuizGeneration.RoundsErrPersists | GuruCool-API/utils/quiz.py:22-35 | Once a round fails, the loop never recovers. |
| QuizGeneration.RoundsFailIff | GuruCool-API/utils/quiz.py:22-35 | The loop fails exactly when one of its rounds fails. |
| QuizGeneration.RoundsKeys | GuruCool-API/utils/quiz.py:29 | A key is in the merged dict exactly when some round produced it. |
| QuizGeneration.RoundsLastWins | GuruCool-API/utils/quiz.py:29 | A merged key holds the value from round `LastRound`, which produced it, and no later round produces it. |
| QuizGeneration.GeneratedQuizClean | GuruCool-API/utils/quiz.py:21-35 | Every question and answer in a generated quiz is non-empty, stripped and colon-free. |
| QuizGeneration.PromptedContent | GuruCool-API/utils/quiz.py:23-28 | The model is shown exactly the first 1000·rounds characters of the joined documents, in order. |
| AssignmentParser.ParseQuestionAndAnswer | GuruCool-API/utils/assignment.py:24-27 | The result always has exactly the keys "question" and "answer". |
| AssignmentParser.FindShape | GuruCool-API/utils/assignment.py:9-22 | No match gives "". There is no match exactly when no position matches. A found value is stripped and has no line break. |
| AssignmentParser.SearchIsLeftmost | GuruCool-API/utils/assignment.py:9-10 | The search returns the leftmost match. |
| AssignmentParser.SearchIsFirstMatch | GuruCool-API/utils/assignment.py:9-10 | A matching position with no match before it is what the search returns. |
| AssignmentParser.ParseOfReply | GuruCool-API/utils/assignment.py:5-27 | Round trip: a "Question n: q / Answer n: a" reply gives back q and a, provided q does not itself contain "answer". |
| AssignmentParser.ParseOfAnswerFirst | GuruCool-API/utils/assignment.py:9-10 | The two searches are independent: answer-first order gives the same pair. |
| AssignmentParser.BlankQuestionTakesNextLine | GuruCool-API/utils/assignment.py:6-13 | The `\s*` after the colon skips line breaks, so an empty question takes the next line. |
| AssignmentParser.GeneratedText | GuruCool-API/utils/assignment.py:43-47 | A missing or empty generations list raises ValueError. |
| AssignmentParser.GenerateAnswerQuestion | GuruCool-API/utils/assignment.py:29-72 | A missing or empty generations list raises ValueError; otherwise the result is a dict with the keys "question" and "answer". The short-answer generator behaves the same. |
| AssignmentParser.GenerateOfReply | GuruCool-API/utils/assignment.py:41-50 | Generated text in the prompt's format parses to its question and answer. |
| CoursePolicy.PyPrefix | GuruCool-API/utils/coursepolicy.py:63 | Python's `s[:n]`: the first n items, or all but the last −n for a negative n. |
| CoursePolicy.Padded | GuruCool-API/utils/coursepolicy.py:61-62 | Padding keeps the topics as a prefix and fills with "Review or assignment session" up to n. |
| CoursePolicy.EnsuredShape | GuruCool-API/utils/coursepolicy.py:60-63 | For n ≥ 0: exactly n topics, the given ones first in order, then review sessions. A negative n drops topics from the end. |
| CoursePolicy.EnsuredIdempotent | GuruCool-API/utils/coursepolicy.py:60-63 | Ensuring the count twice changes nothing. |
| CoursePolicy.TopicList.EnsureTopicCount | GuruCool-API/utils/coursepolicy.py:60-63 | The caller's list is padded in place, and a new list of the ensured topics is returned. The same code is copied at GuruCool-ML/API/utils/coursePolicy.py:104-107. |
| CoursePolicy.TopicList.EnsureTopicCountScript | GuruCool-ML/Scripts/GuruCoursePlanner/CoursePolicy.py:86-98 | The result is the ensured list. A shorter or equal list is padded in place and returned as the same object; a longer one gives a new prefix copy. |
| CoursePolicy.Draw | GuruCool-API/utils/coursepolicy.py:9-16 | Every `random.choice` gives one of the two review topics. |
| CoursePolicy.Insert | GuruCool-API/utils/coursepolicy.py:13 | `list.insert` adds exactly one item. |
| CoursePolicy.TopicList.InjectReviewAndExploration | GuruCool-API/utils/coursepolicy.py:8-18 | A negative count makes `random.sample` raise ValueError before any change. Otherwise the list gets the inserts and padding in place, and the result is its prefix of length n. The same code is copied at GuruCool-ML/API/utils/coursePolicy.py:49-59, GuruCool-ML/Scripts/GuruCoursePlanner/CoursePolicy.py:28-40. |
| CoursePolicy.InjectedShape | GuruCool-API/utils/coursepolicy.py:8-18 | Exactly n topics. A prefix of the originals appears in order with only review topics between (all of them when they fit). Every item is an original or a review topic. |
| CoursePolicy.EmbedsInsertAll | GuruCool-API/utils/coursepolicy.py:12-13 | Inserting review topics keeps the original topics in order. |
| CoursePolicy.EmbedsPrefix | GuruCool-API/utils/coursepolicy.py:18 | The final slice keeps a prefix of the originals in order. |
| CoursePolicy.CleanTopics | GuruCool-API/utils/coursepolicy.py:39 | The split model output has only non-blank, stripped, single-line topics. |
| CoursePolicy.GeneratedTopicsShape | GuruCool-API/utils/coursepolicy.py:38-49 | Whatever the model returns, the result has exactly n non-blank, stripped, single-line topics. The same code is copied at GuruCool-ML/API/utils/coursePolicy.py:80-91, GuruCool-ML/Scripts/GuruCoursePlanner/CoursePolicy.py:54-69. |
| CoursePolicy.EnsuredLines | GuruCool-API/utils/coursepolicy.py:47 | Ensuring the count keeps topics single-line and non-blank. |
| LecturePlan.Width | GuruCool-API/utils/coursepolicy.py:66 | The group width `max(2, len // n)` is at least 2. |
| LecturePlan.MergeDownShape | GuruCool-API/utils/coursepolicy.py:69-70 | Merging leaves min(#groups, n) groups with the same concatenation, and folds the overflow into group n − 1. |
| LecturePlan.PadGroupsShape | GuruCool-API/utils/coursepolicy.py:72-73 | Padding appends `["Review or assignment session"]` groups up to n and keeps the rest. |
| LecturePlan.GroupsCount | GuruCool-API/utils/coursepolicy.py:65-75 | For n ≥ 1: exactly n groups, none empty. |
| LecturePlan.GroupsFlatten | GuruCool-API/utils/coursepolicy.py:65-75 | The groups concatenate to the topics followed by one review session per padding group. |
| LecturePlan.GroupsSlices | GuruCool-API/utils/coursepolicy.py:66-67 | Each group before the last is the slice of width `max(2, len // n)`. |
| LecturePlan.GroupsOverflow | GuruCool-API/utils/coursepolicy.py:69-70 | With more slices than lectures, the last group is everything from slice n − 1 on. |
| LecturePlan.GroupTopicsIntoLectures | GuruCool-API/utils/coursepolicy.py:65-75 | The grouping, with ZeroDivisionError for n = 0 and IndexError for a negative n. The same code is copied at GuruCool-ML/API/utils/coursePolicy.py:110-120. |
| LecturePlan.GroupTopicsIntoLecturesLoop | GuruCool-ML/Scripts/GuruCoursePlanner/CoursePolicy.py:100-117 | The script's explicit loop computes the same grouping and errors. |
| LecturePlan.SliceLoop | GuruCool-ML/Scripts/GuruCoursePlanner/CoursePolicy.py:105-108 | The slicing loop yields the fixed-width chunks. |
| LecturePlan.MergeAndPad | GuruCool-API/utils/coursepolicy.py:69-73 | The two while loops merge down, then pad to n (IndexError for a negative n). |
| LecturePlan.Weekday | GuruCool-API/utils/coursepolicy.py:84 | `weekday()` lies in 0..6. |
| LecturePlan.LectureDaysShape | GuruCool-API/utils/coursepolicy.py:83-90 | The lecture days are exactly the non-Sunday, non-holiday days in [start, end], in strictly increasing order. |
| LecturePlan.LectureDaysPrefix | GuruCool-API/utils/coursepolicy.py:83-90 | A longer date range extends the list of lecture days. |
| LecturePlan.ScheduleShape | GuruCool-API/utils/coursepolicy.py:77-92 | The schedule has min(n, #lecture days) entries (none for n ≤ 0). Dates strictly increase within [start, end], skip Sundays and holidays, and entry i carries group i. |
| LecturePlan.EmptySchedule | GuruCool-API/utils/coursepolicy.py:83 | An end before the start gives an empty schedule. |
| LecturePlan.GenerateSchedule | GuruCool-API/utils/coursepolicy.py:77-92 | The loop computes the schedule, or IndexError when the groups run out. The same code is copied at GuruCool-ML/API/utils/coursePolicy.py:123-138, GuruCool-ML/Scripts/GuruCoursePlanner/CoursePolicy.py:119-137. |
| LecturePlan.NumLecturesWeeks | GuruCool-ML/Scripts/GuruCoursePlanner/CoursePolicy.py:149-151 | The lecture count is the whole weeks between the dates (floored) times the hours per week. |
| LecturePlan.PlanShape | GuruCool-ML/Scripts/GuruCoursePlanner/CoursePolicy.py:146-165 | A count of 0 raises ZeroDivisionError and a negative count IndexError. Otherwise the schedule has min(count, #lecture days) entries, each with a non-empty group. |
| Inventory.LendReturn | src/modules/admin/pages/AdminResource.jsx:162-175 | Lending and returning q units are inverse and keep available + borrowed. Under their guards they keep the counts consistent. |
| Inventory.FirstOfType | src/modules/admin/pages/AdminResource.jsx:148-154 | The index of the first resource of the type, or None exactly when there is none. |
| Inventory.Without | src/modules/admin/pages/AdminResource.jsx:275 | Filtering removes every copy of the id and keeps the others (as a multiset). |
| Inventory.WithoutAppend | src/modules/admin/pages/AdminResource.jsx:275 | Filtering distributes over concatenation, so the order is kept. |
| Inventory.WithoutAbsent | GuruCool/src/modules/teacher/pages/TeacherResources.jsx:240 | Filtering out an absent id changes nothing. |
| Inventory.DueAsMinutes | GuruCool/src/modules/teacher/pages/TeacherResources.jsx:62-68 | The (hour, minute) test is "now ≥ the return time" in minutes of the day; the date is ignored. |
| Inventory.StepSettles | GuruCool/src/modules/teacher/pages/TeacherResources.jsx:82-104 | A sweep step keeps the ids, types, quantities and totals of the resources. A status only moves from Approved to Completed. Consistent counts stay consistent. |
| Inventory.SweepSettles | GuruCool/src/modules/teacher/pages/TeacherResources.jsx:52-115 | Over the whole sweep, the resources keep their ids, types, quantities and totals, statuses only move from Approved to Completed, and consistent counts stay consistent. The student page (src/modules/student/pages/StudentResource.jsx:56-111) runs the same sweep. |
| Inventory.SweepStepUnchanged | GuruCool/src/modules/teacher/pages/TeacherResources.jsx:72-77 | A request that is not approved, not due, of an unknown type, or would drive borrowed below 0 changes nothing. The student page (src/modules/student/pages/StudentResource.jsx:70-76) has the same guards. |
| Inventory.WithStatus | src/modules/admin/pages/AdminResource.jsx:243-251 | A filtered list holds exactly the requests of that status and role. |
| Inventory.PartitionCounts | src/modules/admin/pages/AdminResource.jsx:243-251 | The four status lists of a role together are as long as the role's requests. The teacher page's lists (GuruCool/src/modules/teacher/pages/TeacherResources.jsx:156-159) are the same partition. |
| Inventory.Fetched | GuruCool/src/modules/teacher/pages/TeacherResources.jsx:150-153 | Only existing request documents among the ids are kept, with their data. |
| Inventory.FetchedComplete | src/modules/student/pages/StudentResource.jsx:131-140 | Every existing request among the ids is fetched. |
| Inventory.FetchedAppend | src/modules/student/pages/StudentResource.jsx:131-140 | Fetching follows the order of the ids. |
| Inventory.NewRequest | GuruCool/src/modules/teacher/pages/TeacherResources.jsx:187-193 | A new request is Pending, has the page's role, and has the typed name in place of "Other". |
| Inventory.Store.AddResource | src/modules/admin/pages/AdminResource.jsx:54-74 | A quantity ≤ 0 is refused with no write. Otherwise a resource with available = quantity and borrowed = 0 is inserted at its place in the id-ordered listing, and the others keep their order. Consistency is kept. |
| Inventory.Store.AddNewResource | src/modules/admin/pages/AdminResource.jsx:198-225 | A blank name, description or quantity is refused first, then a quantity ≤ 0. Otherwise the resource is inserted at its place in the listing. |
| Inventory.Store.DeleteResource | src/modules/admin/pages/AdminResource.jsx:76-82 | The resource with that id is gone and the others stay in order. |
| Inventory.Store.UpdateResource | src/modules/admin/pages/AdminResource.jsx:84-116 | A quantity ≤ 0, a negative borrowed count or borrowed > quantity is refused. Otherwise the resource gets available = quantity − borrowed; an unknown id fails. Consistency is kept. |
| Inventory.Store.RequestApproval | src/modules/admin/pages/AdminResource.jsx:135-182 | A missing request or resource fails before any write. Too few available units are refused with no change. Otherwise the first resource of the type lends the units and the request becomes Approved, whatever its previous status. |
| Inventory.Store.RequestRejection | src/modules/admin/pages/AdminResource.jsx:186-195 | An existing request becomes Rejected whatever its status; a missing one fails. |
| Inventory.Store.DeleteRequest | src/modules/admin/pages/AdminResource.jsx:253-285 | The request is deleted and its id is filtered out of every user's list. |
| Inventory.Store.CheckForExpiredRequests | GuruCool/src/modules/teacher/pages/TeacherResources.jsx:52-115 | The sweep over the snapshot's ids computes `Sweep`. Consistency is kept. The student page (src/modules/student/pages/StudentResource.jsx:56-111) runs the same sweep. |
| Inventory.Store.Submit | GuruCool/src/modules/teacher/pages/TeacherResources.jsx:172-214 | Missing fields or a quantity ≤ 0 are refused with no write. Otherwise the request is added. On the teacher page its id is appended to the teacher's list, which is created if absent. On the student page (src/modules/student/pages/StudentResource.jsx:157-202) the id is linked only when the user document exists. |
| Inventory.Store.DeleteOwnRequest | GuruCool/src/modules/teacher/pages/TeacherResources.jsx:231-250 | The request is deleted and exactly its id is filtered out of the user's list. On the student page (src/modules/student/pages/StudentResource.jsx:219-240) nothing is written for a missing user. |
| Inventory.Store.FetchRequests | GuruCool/src/modules/teacher/pages/TeacherResources.jsx:121-164 | No user document gives nothing. Otherwise the user's existing requests, in order, are partitioned by status for the page's role. The student page (src/modules/student/pages/StudentResource.jsx:116-150) does the same. |
| Downloads.FileName | GuruCool-API/archive/GuruCoolAPI.py:82-88 | The saved name always contains a '.'. |
| Downloads.FileNameShape | GuruCool-API/archive/GuruCoolAPI.py:82-88 | A name with '.' is unchanged, any other gets exactly ".txt" appended, and the rule is idempotent. |
| Downloads.SavedNames | GuruCool-API/archive/GuruCoolAPI.py:77-100 | Every new file comes from a document with a url and a name, is saved under that name's normalised form, and contains a '.'. |
| Downloads.SavedKeeps | GuruCool-API/archive/GuruCoolAPI.py:77-100 | Files already in the directory stay, also when an `OSError` cuts the loop short. |
| Downloads.SavedRaisedIff | GuruCool-API/archive/GuruCoolAPI.py:92-100 | Only `RequestException` is caught: the call raises exactly when some document with a url and a name is fetched and `open` then fails for its name. |
| Downloads.DownloadFiles | GuruCool-API/archive/GuruCoolAPI.py:67-103 | The loop skips documents without url or name and failed fetches, saves the rest under their normalised names, and stops with the error when `open` fails. |

## Left out

- **Firestore and I/O.** Firestore, Storage, HTTP and the file system are in-memory maps and sequences. Each handler is one sequential step. The ids that `addDoc` chooses are parameters that must be fresh. `new Date()` timestamps are parameters.
- **Concurrency.** The non-atomic read-modify-write in the rating and approval handlers and the lost updates it allows are not modelled. Nor are the `async` `forEach` of the sweep and the `setInterval` polling. The sweep handles requests one after another, and reads each request's current document rather than the snapshot's copy.
- **The teacher sweep's crash.** On the teacher page an unknown resource type throws at `resourceDoc.id` (line 73) instead of being logged. Either way nothing is written for that request, so both pages share one model.
- **Floating point.** Ratings and scores are reals, not IEEE doubles. `Math.pow(10, x)` is a parameter of which only positivity, 10^0 = 1, reciprocity and strict monotonicity are assumed.
- **The user's `aura`.** It is assumed to be a number; a missing or non-numeric value (NaN arithmetic) is not modelled.
- **The language model.** It is a function from the prompt's chunk and question number to a reply, or to a failure. The prompt wording, the token clean-up and `refine_topics_in_bulk` are parameters or left out.
- **`random.sample` and `random.choice`.** They are parameters: the sampled positions, already sorted in descending order, and a choice function. The requirement that the positions are distinct and in 1..n−1 is a precondition.
- **The holiday calendar.** It is a predicate on days. The code builds `holidays.India(years=start_date.year)`, but that object adds other years' holidays on lookup, so the "start year only" reading is not modelled.
- **Date formatting.** `strftime` is not modelled: schedule entries carry day ordinals.
- **Dict insertion order.** Python dicts are maps, so their insertion order is not modelled.
- **Case folding and `\d`.** Case-insensitive prefix tests fold ASCII letters only. Python's `lower()` and `re`'s `(?i)` also fold a few non-ASCII letters (U+0130, U+0131, U+017F, U+212A), and `\d` also matches non-ASCII digits.
- **Whitespace.** JavaScript `trim()` is modelled with Python's `strip()` whitespace set; the two differ on a few Unicode spaces.
- **Form parsing.** Form quantities are modelled as integers. A non-numeric quantity (NaN) and a malformed `durationTo` string are not modelled.
- **Approval with a non-positive quantity.** Every request is assumed to ask for a positive quantity; this is part of `Valid`. `handleSubmit` refuses a quantity ≤ 0, but it compares the form's string, coerced to a number, while approval uses `parseInt`. So a request for "0.5" is accepted and approved as quantity 0; such requests are not modelled.
- Inventory.Store.AddNewResource: the `<= 0` guard compares the raw input, coerced to a number, but the written quantity is `parseInt` of it. The admin inputs are not in a `<form>`, so nothing else checks them. An input such as "0.5" passes the guard and stores a resource of quantity 0, and "1e3" stores 1. The model reads the quantity as one integer, so it does not capture this.
- Inventory.Store.AddResource: the same mismatch between the `<= 0` guard and the `parseInt` written value is not modelled.
- Inventory.Store.UpdateResource: the guards compare the raw inputs, but `quantity` is written as `parseInt` of the input and `borrowed` is written unparsed. With integer inputs, as modelled, these agree; fractional or exponent inputs are not modelled.
- Inventory.FirstOfType: it picks the first resource of the type in the listing the model keeps. New resources take their place in that listing from a parameter (`at`), as their random `addDoc` id decides. The model does not check that the listing is sorted by id.
- Inventory.Store.CheckForExpiredRequests: the snapshot is any list of ids. The pages pass every `resourceRequests` id in listing order, and the model does not require that.
- Downloads.DownloadFiles: the directory is one flat map from names to contents. An absolute name, or one containing "..", makes `os.path.join` write outside the directory, and that is not modelled. A write that fails after `open` succeeded, leaving a truncated file, is not modelled either; only a failing `open` is.
- **The edit handler's last guard.** `availableQuantity < 0` (AdminResource.jsx:94-97) cannot be reached once the earlier guards pass. It is implied by the model, not a separate branch.
- **Outside this model.** The React UI, the resource-type listing, the dashboard charts, the Flask routes and the embedding, transcription and document-loading code are not part of this model.
- CoursePolicy.InjectedShape: it states the length, the order of the originals and where every item comes from, but not the exact positions of the inserted review topics.
- LecturePlan.NumLecturesWeeks: it does not model the `datetime` arithmetic behind the day difference. Days are ordinals, so `(end - start).days` is `end - start`.
