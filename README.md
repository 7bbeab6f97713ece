# Scorix grading core in Dafny

Scorix is a FastAPI and MongoDB backend. Teachers use it to set questions with a marking scheme
(a list of free-text rules such as "Mentions the chain rule"), collect student answers and grade
them automatically. This project models the deterministic core of that backend and proves
properties of it:

- **Grading one answer** (`grader.py`):
  - each rule is classified by its instruction words;
  - the rule is matched against the answer by an exact phrase, by key-concept overlap or by
    semantic similarity;
  - the matched scores are averaged over all rules;
  - answers averaging at least 0.5 get a bonus for similarity to the sample answer, capped at 1.0;
  - the score is turned into a letter by the teacher's threshold table.
- **Request models** (`models.py`): the field bounds and patterns, and the grade-threshold
  settings with their ordering validator.
- **Stored collections** (`database.py`): users, courses, questions and per-teacher settings,
  held in memory by one `Store` class. The enrollment state machine, owner-scoped updates and
  deletes, the threshold upsert and the normalisation of fetched records are methods that
  change the store's fields.
- **Authentication and role gates** (`auth.py`) and **the typed errors** (`exceptions.py`).
- **The HTTP handlers' rules** (`main.py`):
  - the update payload filter and the role-change guard;
  - course access by role;
  - the mapping of enrollment errors to statuses;
  - the two grading endpoints, which pair questions with answers and summarise each test
    submission by the unweighted mean of its question scores.

## Module layout

| file | module | models |
|---|---|---|
| wrappers.dfy | Wrappers | `Option` and `Result` |
| text.dfy | Text | Python's `lower`, `isspace`, `in`, `strip`, `rstrip(c)` and `split()` on strings |
| documents.dfy | Documents | stored field values |
| errors.dfy | Errors | the exception family of `exceptions.py` |
| models.py → models.dfy | Models | field predicates, update application, grade-threshold settings |
| grade_scale.dfy | GradeScale | `assign_grade` and a sort-free reference definition |
| bands.dfy | Bands | letter bands of a validated threshold table |
| rules.dfy | Rules | `detect_rule_type`, `extract_key_concepts`, similarity, `match_rule` |
| grader.dfy | Grader | `grade_answer` |
| database.dfy | Database | records, normalisation and the `Store` class |
| auth.dfy | Auth | tokens, current user and the role gates |
| api.dfy | Api | update filtering, role guard, course access, enrollment handlers |
| grading.dfy | Grading | `grade_course_answers` and `grade_test` |

Sentence embeddings and the lemmatiser are outside the model. An `Oracle` value supplies the
cosine similarity of two texts and the lemma of a word. The only assumption made about it is
that cosines lie in [-1, 1].

Several other inputs also arrive as parameters:
- the clock (`now`);
- fresh ids (`freshId`);
- decoded token claims;
- the test documents and the stored answers read by the grading endpoints.

## Model

| member | source | states |
|---|---|---|
| Text.LowerChar | grader.py:30 | a lowered character is never an upper-case ASCII letter; upper-case letters move by 32 and everything else is kept |
| Text.Lower | grader.py:30 | `str.lower()` keeps the length and lowers each character in place |
| Text.LowerIdempotent | grader.py:68-69 | lowering an already-lowered string changes nothing |
| Text.IndexFrom | grader.py:89 | the search finds the first position at or after `from` where the word occurs, and reports none only when it occurs nowhere from there |
| Text.ContainsMeansOccurs | grader.py:32 | `w in s` holds exactly when `w` occurs in `s` at some position |
| Text.Strip | grader.py:83 | `strip()` yields a slice of the input that neither starts nor ends with whitespace; it is empty exactly when the input is all whitespace |
| Text.RStripChar | grader.py:83 | `rstrip('.')` yields a prefix that does not end in '.', and everything it removed is '.' |
| Text.Split | grader.py:43 | `split()` yields non-empty words without whitespace, made of the input's characters |
| Text.SplitKeepsNonSpace | grader.py:43 | the words put back together are exactly the input's non-space characters, in order |
| Errors.HttpError | main.py:248 | a framework HTTP error carries the status and detail and no error code, field or value |
| Errors.ScorixError | exceptions.py:4-17 | the base exception stores its status, detail, error code, field and value unchanged |
| Errors.ValidationError | exceptions.py:19-28 | 422, VALIDATION_ERROR, detail "Validation error in field '<field>': <message>", field and value kept |
| Errors.AuthenticationError | exceptions.py:30-37 | 401, AUTHENTICATION_ERROR, the message as detail ("Authentication failed" by default), no field or value |
| Errors.AuthorizationError | exceptions.py:39-51 | 403, AUTHORIZATION_ERROR; the detail names the current role exactly when a non-empty one is supplied |
| Errors.ResourceNotFoundError | exceptions.py:53-60 | 404, RESOURCE_NOT_FOUND, detail "<type> with ID '<id>' not found" |
| Errors.DuplicateResourceError | exceptions.py:62-69 | 409, DUPLICATE_RESOURCE; field and value appear in the detail but are not stored |
| Errors.BusinessLogicError | exceptions.py:71-78 | 400, BUSINESS_LOGIC_ERROR, the message as detail |
| Errors.DatabaseError | exceptions.py:80-87 | 500, DATABASE_ERROR, detail "Database <operation> failed: <message>" |
| Errors.AuthorizationDetailExtends | exceptions.py:42-45 | supplying a current role only appends ", Current role: <role>" to the detail; status and code are unchanged |
| Models.ParseRole | models.py:7-10 | the role enumeration accepts exactly "student", "teacher" and "admin", each naming its own role |
| Models.EmailValidMatchesPattern | models.py:20-25 | the executable email check accepts exactly the strings `^[^@]+@[^@]+\.[^@]+$` matches |
| Models.ApplyUserUpdate | models.py:12-58 | a valid user patched with a valid update is a valid user with each present field replaced |
| Models.ApplyQuestionUpdate | models.py:103-151 | a valid question patched with a valid update is a valid question (points 1-100, easy/medium/hard, at least one rule) in the same course |
| Models.ApplyTestUpdate | models.py:162-209 | a valid test patched with a valid update is still valid (duration 15-480, points 10-1000, at least one question) |
| Models.ValidateThreshold | models.py:286-299 | A always passes; any other cutoff passes exactly when it is below the cutoff of the letter above, as already validated or else that letter's default; a passing value is kept |
| Models.ValidateField | models.py:249-299 | one field adds at most one error; when it passes, the data gains the supplied value or the default |
| Models.CompleteTableAcceptedIffOrdered | models.py:249-299 | with all five cutoffs supplied, the settings are accepted exactly when each is in [0, 100] and A>B>C>D>F, and they are kept as supplied |
| Models.DefaultsAccepted | models.py:249-284 | with nothing supplied, the settings are 85/70/55/40/0, in range and strictly descending |
| Models.DefaultsEscapeOrdering | models.py:286-299 | supplying A=50 alone is accepted as 50/70/55/40/0, which is not descending |
| Models.ValidatedTablesAreOrdered | models.py:286-299 | every table accepted when defaults are validated too is in range and strictly descending |
| Models.VariantsAgreeOnCompleteInput | models.py:249-299 | on complete input, validating the defaults changes nothing |
| GradeScale.Insert | grader.py:138 | a stable insertion adds exactly one entry |
| GradeScale.SortDesc | grader.py:138 | sorting keeps the table's length |
| GradeScale.InsertPermutes | grader.py:138 | insertion adds the entry and keeps every other entry |
| GradeScale.InsertDescending | grader.py:138 | inserting into a descending table keeps it descending |
| GradeScale.SortDescPermutes | grader.py:138 | the sorted table is a permutation of the table |
| GradeScale.SortDescOrders | grader.py:138 | the sorted table is in descending cutoff order |
| GradeScale.FirstFit | grader.py:140-142 | the scan returns an entry of the table whose cutoff the percentage reaches, and none only when no cutoff is reached |
| GradeScale.AssignGrade | grader.py:144 | an empty table grades "F" |
| GradeScale.AssignGradeFromTable | grader.py:135-144 | a non-empty table always grades to one of its own grade names |
| GradeScale.SortedGrade | grader.py:140-144 | on a table already sorted, the grade is read off the table as it stands |
| GradeScale.BestFit | grader.py:138-142 | reference: an entry with the highest cutoff the percentage reaches, none only when nothing is reached |
| GradeScale.Lowest | grader.py:144 | reference: an entry whose cutoff is the lowest of the table |
| GradeScale.SortMatchesBestFit | grader.py:138-142 | scanning the sorted table finds exactly the reference's best fit, ties resolved by insertion order |
| GradeScale.SortLastIsLowest | grader.py:144 | the last entry of the sorted table is the reference's lowest entry |
| GradeScale.AssignEntryIsBestFit | grader.py:135-144 | the graded entry is the best fit, else the lowest entry, else nothing for an empty table |
| GradeScale.AssignEntryMonotone | grader.py:137-142 | a higher score never earns an entry with a lower cutoff |
| Bands.ToTable | models.py:249-284 | settings become a five-entry table, in field order |
| Bands.OrderedTableIsSorted | grader.py:138 | a strictly descending settings table is already in sorted order |
| Bands.Band | models.py:249-284 | the band letter's cutoff is reached, and on an ordered table the percentage is below the next letter's cutoff |
| Bands.FirstFitFindsBand | grader.py:140-142 | scanning the stored table finds the first letter, in field order, whose cutoff is reached |
| Bands.OrderedTableGradesByBand | grader.py:135-144 | on a strictly descending table, every score is graded with the letter of its band |
| Bands.FitIsBand | grader.py:140-144 | reading the stored table as it stands gives the band letter |
| Bands.ValidatedTableGradesByBand | grader.py:135-144 | every table the corrected validator accepts grades each score with the letter of its band |
| Bands.MisorderedTableMisgrades | models.py:286-299 | the table accepted for A=50 alone grades 0.75 as "B", although 75% is in band A |
| Rules.RuleTypeName | grader.py:25-37 | a rule type is named "semantic", "exact_phrase" or "contains_keywords" |
| Rules.DetectRuleType | grader.py:27-28 | an empty rule is semantic |
| Rules.DetectRuleTypeByOccurrence | grader.py:25-37 | "mentions", "formula" or "equation" anywhere in the lowered rule gives exact_phrase, whatever else it contains; otherwise "contains", "has" or "includes" give contains_keywords; anything else is semantic |
| Rules.DetectIgnoresCase | grader.py:30 | a rule and its lower-cased form get the same type |
| Rules.Normalize | grader.py:42 | the normalised text keeps the length and holds only lower-case word characters and whitespace; every other character becomes a space |
| Rules.Keep | grader.py:41-44 | a word is kept exactly when it is longer than two characters and not a stop word |
| Rules.KeyWordsShape | grader.py:39-44 | every kept word is lower-case word characters only, longer than two and not a stop word, and every such word of the text is kept |
| Rules.KeyConcepts | grader.py:45 | the concepts are exactly the lemmas of the kept words |
| Rules.Overlap | grader.py:56-57 | the overlap lies in [0, 1]; it is 1 exactly when the answer has all the rule's concepts, and 0 exactly when it has none |
| Rules.SemanticSimilarity | grader.py:47-62 | matched exactly at the threshold; with cosines in [-1, 1] the similarity lies in [-0.7, 1.0], and at most 0.7 when the rule has no concepts |
| Rules.LineEnd | grader.py:73 | the end of the current line: no newline before it, a newline at it unless it is the end |
| Rules.LastNonNewline | grader.py:73 | the last position in a range that does not hold a newline |
| Rules.CaptureStart | grader.py:72-77 | when a phrase pattern matches at a position, its stem occurs there and its capture starts on a non-newline character after it |
| Rules.FindAll | grader.py:81 | every capture of `findall` is non-empty |
| Rules.FindAllShape | grader.py:80-81 | every capture lies within one line of the rule text |
| Rules.Clean | grader.py:83 | a cleaned phrase does not start with whitespace or end with '.' |
| Rules.CleanIsStripThenRStrip | grader.py:83 | the positional cleaning is `strip()` followed by `rstrip('.')` |
| Rules.CleanSlice | grader.py:83 | a cleaned capture is a slice of the capture |
| Rules.Cleaned | grader.py:82-83 | one cleaned phrase per capture |
| Rules.LongOnesKeep | grader.py:84-85 | only phrases longer than two characters are kept |
| Rules.KeyPhrasesShape | grader.py:79-85 | every key phrase lies on one line of the rule, is longer than two characters, starts with a non-space and does not end in '.' |
| Rules.AppendKept | grader.py:82-85 | the inner loop appends exactly the kept cleaned captures, in order |
| Rules.ExtractPhrases | grader.py:79-85 | the phrase loops produce exactly the key phrases, pattern by pattern |
| Rules.FindPhrase | grader.py:88-90 | the early-return search succeeds exactly when some phrase occurs in the text |
| Rules.MatchExactPhrase | grader.py:67-92 | the exact-phrase branch returns (True, 1.0) exactly when some key phrase occurs in the lowered answer, else (False, 0.0) |
| Rules.MatchKeywords | grader.py:94-130 | the phrase loops and the early-return search compute the keyword branch's outcome |
| Rules.MatchRule | grader.py:64-133 | `match_rule` dispatches on the rule type to the branch outcomes |
| Rules.MatchScoreRange | grader.py:64-133 | with cosines in [-1, 1], a matched rule scores in [0.2, 1.0] whatever its type, and any score is in [-0.7, 1.0] |
| Rules.AllConceptsMatch | grader.py:94-128 | a keyword rule whose concepts all appear in the answer is matched with score 1.0 |
| Grader.JudgeBounded | grader.py:160-162 | with cosines in [-1, 1], every matched rule earns between 0.2 and 1.0 |
| Grader.GradeAnswer | grader.py:146-189 | the method computes `grade_answer`'s outcome; an empty scheme gives score 0.0, grade "F" and no rules, whatever the thresholds |
| Grader.TallyIsPartition | grader.py:156-168 | the loop puts the matched rules and the missed rules in their original order, and its total is the sum of the matched scores |
| Grader.PartitionKeepsRules | grader.py:160-168 | every rule lands in exactly one list, as often as it occurs; matched rules were matched and missed ones were not |
| Grader.SumBounds | grader.py:164-166 | the matched total lies between 0 and the number of matched rules, which is at most the number of rules |
| Grader.SampleBonusRange | grader.py:178-179 | the sample-answer bonus lies in [-0.14, 0.2] |
| Grader.FinalScoreRange | grader.py:176-180 | the final score lies in [0, 1]; below 0.5 it is the average itself, and from 0.5 it is at least 0.36 and loses at most 0.14 to the bonus |
| Grader.TallyAverageInUnitRange | grader.py:171-172 | the average over all rules lies in [0, 1] |
| Grader.ScoreInUnitRange | grader.py:146-189 | with cosines in [-1, 1], every graded answer's score lies in [0, 1] |
| Database.NameOr | database.py:54-57 | a missing or empty name becomes the default; a present one is kept |
| Database.NormalizeUser | database.py:43-60 | a fetched user gets `_id` as id when it has none, role "student" when missing, never-empty names that keep any non-empty stored name, the clock for a missing creation time; username, email and `_id` are kept |
| Database.NormalizeUserIdempotent | database.py:43-60 | normalising a normalised user again, at any time, changes nothing |
| Database.NormalizeQuestion | database.py:297-304 | a fetched question gets difficulty "medium", 10 points and the clock's timestamps when missing; everything present is kept |
| Database.QuestionsOf | database.py:291-293 | the course's question list is no longer than the collection and holds only questions of that course |
| Database.QuestionsOfSound | database.py:291-305 | every listed question is a stored question of the course, normalised |
| Database.QuestionsOfComplete | database.py:291-305 | every stored question of the course is listed |
| Database.AddToSet | database.py:241-244 | `$addToSet` makes the id a member, adds nothing else and keeps the list duplicate-free |
| Database.Pull | database.py:261-264 | `$pull` removes every occurrence of the id and keeps every other member |
| Database.PullKeepsNoDup | database.py:261-264 | pulling keeps a duplicate-free list duplicate-free |
| Database.PullAbsent | database.py:257-258 | pulling an absent id changes nothing |
| Database.EnrollThenRemoveRestores | database.py:230-269 | enrolling a new student and removing them restores the list |
| Database.ThresholdsIn | database.py:473-478 | the teacher's saved table, or 85/70/55/40/0 when there is no settings document or it has no thresholds |
| Database.SaveThenRead | database.py:473-486 | after saving, the teacher reads back the saved table and every other teacher reads what they read before |
| Database.FirstOwned | database.py:339-346 | the first question matching both id and owner; none only when no question matches both |
| Database.QuestionById | database.py:321-335 | a question is found exactly when the teacher owns one with this id, and it carries that id and owner |
| Database.FirstUser | database.py:40 | the first user document matching the lookup key; none only when none matches |
| Database.Store.constructor | database.py:10-20 | the store starts with every collection empty |
| Database.Store.GetUser | database.py:37-102 | nothing exactly when no document matches; otherwise the first match, normalised |
| Database.Store.EnrollStudent | database.py:230-249 | "Course not found" or the already-enrolled error change nothing; otherwise the student is appended to that course only, and lists stay duplicate-free |
| Database.Store.RemoveStudent | database.py:250-269 | "Course not found" or the not-enrolled error change nothing; otherwise every occurrence is pulled from that course only |
| Database.Store.SaveCourse | database.py:175-183 | the new course gets the fresh id, no students and the clock's timestamps; nothing else changes |
| Database.Store.UpdateCourse | database.py:270-277 | only the course with this id and owner is patched; true exactly when the store changed |
| Database.Store.DeleteCourse | database.py:278-281 | only the course with this id and owner is removed; true exactly when there was one |
| Database.Store.FindOwnedQuestion | database.py:339-341 | the scan finds the first question with this id and owner |
| Database.Store.UpdateQuestion | database.py:336-343 | only the first question with this id and owner is patched; true exactly when the collection changed |
| Database.Store.DeleteQuestion | database.py:344-347 | only the first question with this id and owner is removed; true exactly when there was one |
| Database.Store.GetQuestionsByCourse | database.py:291-305 | the loop returns the course's questions in collection order, each normalised |
| Database.Store.GetQuestionById | database.py:321-335 | the teacher's question with this id, normalised, or nothing |
| Database.Store.GetGradeThresholds | database.py:473-478 | the stored table or the default |
| Database.Store.SaveGradeThresholds | database.py:479-486 | an upsert of the teacher's table that returns true and is read back |
| Auth.CreateAccessToken | auth.py:21-30 | the claims are a copy of the input plus "exp": now plus the given lifetime, or plus 1440 minutes when none or a zero one is given |
| Auth.VerifyToken | auth.py:32-40 | a decoded token passes, unchanged, exactly when it has a non-null "sub" |
| Auth.CurrentUser | auth.py:42-56 | an invalid token or one without a subject is a 401 invalid token; an unknown subject is a 401 user not found; otherwise the first user with that username, normalised |
| Auth.RequireTeacher | auth.py:58-64 | teachers and admins pass unchanged; anyone else gets AuthorizationError("Teacher or Admin", their role) |
| Auth.RequireAdmin | auth.py:66-72 | only admins pass, unchanged; anyone else gets AuthorizationError("Admin", their role) |
| Auth.AdminGateIsStricter | auth.py:58-72 | whoever passes the admin gate passes the teacher gate; a teacher passes only the teacher gate |
| Auth.GateRefusalsAre403 | auth.py:58-72 | both gates refuse with 403 and name a non-empty current role in the detail |
| Auth.IssuedTokenVerifies | auth.py:21-40 | a token issued for claims with a subject verifies and keeps that subject |
| Auth.SubjectlessTokenRejected | auth.py:21-40 | a token issued without a subject never verifies |
| Auth.IssuedTokenAuthenticates | auth.py:21-56 | a token issued for a stored username authenticates the first user with that username |
| Api.DropNone | main.py:245 | every present field reaches the data, and every entry of the data is a present field with its value |
| Api.ProfileUpdate | main.py:245-252 | an accepted update is the non-empty filtered data |
| Api.RoleReachesWrite | main.py:251 | "role" is in the data exactly when the update sets the role |
| Api.EmptyUpdateData | main.py:247 | the data is empty exactly when the update sets no field |
| Api.ProfileUpdateGuards | main.py:286-293 | an empty update is a 400; a role change by a non-admin is a 403; everything else is accepted |
| Api.GetCourse | main.py:345-361 | 404 for a missing course, 403 for a reader without access; otherwise the course |
| Api.CourseAccessByRole | main.py:356-359 | admins read every course, students those they are enrolled in, teachers those they own |
| Api.UpdateCourseHandler | main.py:374-383 | an empty update is a 400 and changes nothing; otherwise only an owned course is patched, and a 404 when nothing changed |
| Api.EnrollErrorStatus | main.py:455-459 | an enrollment error is 409 exactly when it contains "already enrolled", else 400 |
| Api.UnenrollErrorStatus | main.py:476-480 | an unenrollment error is 404 exactly when it contains "not enrolled", else 400 |
| Api.AlreadyEnrolledIs409 | main.py:456-457 | the store's duplicate-enrollment message maps to 409 |
| Api.NotEnrolledIs404 | main.py:477-478 | the store's not-enrolled message maps to 404 |
| Api.EnrollHandler | main.py:443-461 | 404 for a missing course, 403 for another teacher's course, 409 for an enrolled student; otherwise the student is appended |
| Api.UnenrollHandler | main.py:471-482 | 404 for a missing or foreign course, 404 for a student who is not enrolled; otherwise the student is pulled |
| Grading.GradeWithInUnitRange | main.py:968-973 | with cosines in [-1, 1], grading any answer to any question scores in [0, 1] |
| Grading.ResultFor | main.py:976-988 | a result carries the question, course and student it was asked for, and earns the score times the question's points |
| Grading.NoAnswersNoResults | main.py:959-960 | a course with no answers grades to no results |
| Grading.QuestionPairsSound | main.py:965-967 | every result for a question grades an answer to that question |
| Grading.QuestionPairsComplete | main.py:965-967 | every answer to a question is graded for it |
| Grading.CourseResultsSound | main.py:964-988 | every course result grades an answer against the question it answers |
| Grading.CourseResultsComplete | main.py:964-988 | every (question, answer to it) pair of the course is graded |
| Grading.CourseResultsValid | models.py:301-310 | with scores in [0, 1], every course result satisfies the result model |
| Grading.GradeOne | main.py:968-988 | grading one answer yields the result for it |
| Grading.GradeQuestion | main.py:965-988 | the inner loop yields the question's results, one per answer to it, in answer order |
| Grading.GradeCourseAnswers | main.py:944-988 | 404 unless the teacher owns the course; otherwise the course results over its stored questions with the teacher's thresholds |
| Grading.SubmissionResults | main.py:1021-1049 | a submission has at most one result per answered question |
| Grading.Scores | main.py:1038 | one score per question result |
| Grading.ScoresAre | main.py:1038 | each score is its question result's score, at the same position |
| Grading.SubmissionResultsSound | main.py:1021-1049 | every question result grades an answered question that was found |
| Grading.SubmissionResultsComplete | main.py:1021-1049 | every answered question that is found is graded |
| Grading.NothingFoundNothingGraded | main.py:1022-1024 | a submission has no results exactly when none of its questions is found |
| Grading.ScoreSumInRange | main.py:1052 | scores in [0, 1] sum to between 0 and their count |
| Grading.MeanInUnitRange | main.py:1052 | the mean of scores in [0, 1] lies in [0, 1] |
| Grading.SummaryValid | models.py:315-323 | with scores in [0, 1], a submission's summary satisfies the test result model |
| Grading.TestResults | main.py:1016-1064 | at most one summary per submission |
| Grading.TestResultsShape | main.py:1051-1064 | every summary has question results; its overall score is their mean, its grade the letter of that mean, its total their points |
| Grading.RowsOf | main.py:1070-1082 | one row per question result of a summary |
| Grading.SavedRowsCount | main.py:1067-1085 | one saved row per question result over all summaries, none without summaries |
| Grading.RowsOfSound | main.py:1070-1082 | every row of a summary copies one of its question results |
| Grading.SavedRowsSound | main.py:1067-1085 | every saved row is built from one of the summaries and one of that summary's question results |
| Grading.GradeAnswered | main.py:1022-1049 | looking up and grading one answered question yields its result, or nothing when the question is not found |
| Grading.GradeSubmission | main.py:1016-1049 | the loop yields the submission's results with their scores in order and their points total |
| Grading.BuildRows | main.py:1067-1082 | the nested loop yields exactly the saved rows |
| Grading.GradeTest | main.py:999-1087 | 404 unless the teacher owns the test; otherwise one summary per submission with a found question, and the rows saved for them |

## Left out

- Sentence embeddings and the lemmatiser are the `Oracle` parameter. Cosines are assumed to
  lie in [-1, 1]. Floating-point rounding is not modelled: scores are `real`.
- The NLTK download bootstrap is not modelled, and neither is the fallback lemmatiser. Any
  lemmatiser is allowed.
- JWT encoding, signature checking and the expiry check are not modelled, and neither is bcrypt
  hashing. A token reaches the model as its decoded claims, or as nothing when the library
  rejects it. `verify_password`, `get_password_hash` and the login endpoint are not modelled.
- `datetime.now()` and `uuid.uuid4()` are parameters. The stored ObjectId is its hexadecimal text.
- Lower-casing and `\w` cover the ASCII range only. Python applies them to all of Unicode.
  Whitespace is Python's `isspace` set.
- The regular expressions are modelled by hand in `Rules.CaptureStart` and `Rules.FindAll`.
  This covers the five phrase patterns as written, with `.` stopping at a newline and the
  leftmost-first backtracking of `s?` and `(?:the\s+)?`. General regex semantics are not
  modelled.
- The "Failed to enroll student" and "Failed to remove student" branches are not modelled
  (database.py:248-249 and database.py:268-269). Without a concurrent writer, the checks just
  before them make them unreachable.
- Rule types are a datatype rather than free strings. A rule type outside the three names
  falls into `match_rule`'s semantic branch, which `Semantic` represents.
- Stored records are typed datatypes rather than dictionaries with arbitrary extra fields.
  A course document without `student_ids` reads as an empty list.
- MongoDB I/O is not modelled. This covers the client, the indexes, and `insert_many` in
  `save_grades` and `save_test_grades`.
- Persisted rows are not modelled for course grading. For test grading they are returned as
  `saved` rather than written to a collection.
- The test collection and the stored answers are parameters of the grading endpoints.
- CSV export, notes, tests CRUD, `db_update_user`, `update_user_login`, and the list endpoints
  by teacher or student are not modelled. They are storage plumbing outside the core.
- Request-model validation is stated as predicates on already-parsed values. The framework
  machinery that raises 422 responses is not modelled.
- Grading.Scores, Grading.SubmissionResults and Grading.TestResults: their own contracts state
  lengths only. Their contents are stated by `Grading.ScoresAre`, by the Sound and Complete
  lemmas and by `Grading.TestResultsShape`.

## Findings

| source | as written | input that shows it | evidently intended | confidence | as-written member | corrected member |
|---|---|---|---|---|---|---|
| models.py:286-299 | pydantic does not run field validators on omitted fields, so a defaulted cutoff is never compared with the one above it | settings with only A = 50 are accepted as 50/70/55/40/0, and a score of 0.75 then grades "B" | every accepted table is strictly descending A>B>C>D>F, so each score gets the letter of its band | medium, not executed | Models.DefaultsEscapeOrdering | Models.ValidatedTablesAreOrdered |
