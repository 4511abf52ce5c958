# lms-youtube learning-record core in Dafny

This project models the server-side learning-record logic of the lms-youtube course platform. That logic turns watched videos and quiz answers into enrollment completion and certificates. Around it sit the rules that gate it:

- permissions on course authoring;
- the payment gate in front of enrollment;
- testimonials;
- the route guard;
- two client components that hold real logic: the free-preview numbering of the chapter list, and the quiz screen's navigation and answer state machine.

The database is the class `Db.Store`, with one `map` field per table. Its `Valid()` invariant (modules `Models` and `Schema`) has two parts. The first is every column validator, foreign key and unique index that the Sequelize models declare. The second is three invariants that no model declares but that the actions maintain:

- `completedAt` is set exactly on completed enrollments;
- a progress row's denormalized `courseId` is the course of its video;
- a certificate's enrollment has the certificate's user and course and is completed. Every server action is a method over the store:

- It takes the caller's session explicitly, as an `Option<Session>` (user id and role).
- It takes the clock as `now`.
- It takes the generated UUID of any row it inserts as `id`.
- It returns a `Result` whose error cases are the branches of the source.

Each method keeps `Valid()` and states its whole effect on the tables it `modifies`. A thrown storage or validation error, which every action's `try/catch` turns into a failure, is the error `Failed`; the table is then left unchanged.

Pure arithmetic and text rules are functions with lemmas:

- `Rounding`: `Math.round` as integer round-half-up.
- `Text`: `toLowerCase().trim()`.
- `Scoring`: the answer match and the score.

The route guard is a pure function (`Middleware`). `ChapterList` renders with the component's own running counter, in loops proved against a recursive specification. `QuizScreen.QuizContainer` is a class whose fields are the component's state hooks.

Money is kept in hundredths of the currency unit. A `DECIMAL(10,2)` column holds such a value exactly, so `Math.round(price * 100)` and `payment.amount / 100` are identities on it. The testimonial average is kept in tenths.

Three behaviours of the code that are easy to misread:

- `getCourseProgress` reports 100% with every video complete. The converse holds only for courses with fewer than 200 videos: 199 of 200 already rounds to 100 (`ProgressActions.HundredBeforeTheEnd`).
- `submitQuizAttempt` on a quiz without questions computes a `NaN` score. The INTEGER column rejects it, so the action fails and stores nothing. This is modelled as the error `Failed`, not as a precondition.
- `completeEnrollment` is not idempotent: it sets `completed` from any status and overwrites `completedAt` on every call.

## Model

| member | source | states |
|---|---|---|
| Text.Lower | src/actions/quiz.ts:140 | `toLowerCase` keeps the length and the white space, leaves no upper-case ASCII letter, maps each upper-case letter to its lower-case partner and keeps every other character |
| Text.LowerIdempotent | src/actions/quiz.ts:140 | lower-casing an already lower-cased answer changes nothing |
| Text.Trim | src/actions/quiz.ts:140 | `trim` drops leading and trailing white space: the result is empty or starts and ends with a non-space character, and is no longer than the input |
| Text.TrimIsSlice | src/actions/quiz.ts:140 | `trim` removes only white space and only at the ends: its result is a contiguous slice of the input with nothing but white space before and after it |
| Text.NotBlankMeaning | src/models/QuizQuestion.ts:65-71 | the `notEmpty` validator accepts a string exactly when some character is not white space, that is, when trimming leaves something |
| Text.LowerTrimCommute | src/actions/quiz.ts:140 | lower-casing and trimming commute |
| Text.NormalizeIdempotent | src/actions/quiz.ts:140 | normalising (lower-case, then trim) an already normalised answer changes nothing |
| Text.NotBlankKeepsKey | src/models/QuizQuestion.ts:65-71 | a correct answer accepted by `notEmpty` normalises to a non-empty key |
| Rounding.RoundedPercent | src/actions/progress.ts:129 | `Math.round(part / whole * 100)` is the integer r with 200·part within `whole` of 2·whole·r, which is round half up |
| Rounding.PercentAtMostHundred | src/actions/quiz.ts:145 | a part no larger than the whole rounds to at most 100 |
| Rounding.PercentOfWhole | src/actions/progress.ts:129 | the whole of anything is 100 |
| Rounding.HundredOnlyWhenWhole | src/actions/progress.ts:129 | with fewer than 200 items, 100 is reached only by the whole |
| Rounding.HundredWithOneMissing | src/actions/progress.ts:129 | with 200 or more items, one item short still rounds to 100 |
| Rounding.PercentMonotone | src/actions/progress.ts:129 | more completed items never give a lower percentage |
| Rounding.RoundedTenths | src/actions/testimonial.ts:83 | `Math.round(average * 10)` is the integer r with 20·sum within `count` of 2·count·r |
| Rounding.TenthsWithin | src/actions/testimonial.ts:73-83 | an average of values between lo and hi rounds to between 10·lo and 10·hi tenths |
| Scoring.CorrectSet | src/actions/quiz.ts:136-143 | the questions counted correct are among the quiz's questions |
| Scoring.CorrectAmong | src/actions/quiz.ts:138-143 | the correct questions among a subset stay within that subset |
| Scoring.CorrectCountAtMostTotal | src/actions/quiz.ts:136-143 | each question adds at most one, so `correctCount` is at most the number of questions |
| Scoring.Score | src/actions/quiz.ts:145 | for n > 0 the score lies in 0..100, and all correct gives exactly 100 |
| Scoring.ShownAgreesWithCounted | src/actions/quiz.ts:228-237 | for a non-blank correct answer, the per-question `isCorrect` of the results page agrees with what the scorer counted |
| Scoring.KeyMatchesItself | src/actions/quiz.ts:140 | the normalised correct answer is itself accepted |
| Scoring.ScoreExamples | src/actions/quiz.ts:145-146 | 4 of 5 scores 80 and passes at 70; 3 of 5 scores 60 and fails; 3 of 8 rounds to 38 |
| Scoring.MatchIgnoresCaseAndPadding | src/actions/quiz.ts:140 | an answer differing from the key only in case and surrounding spaces matches |
| Scoring.MatchKeepsInnerSpace | src/actions/quiz.ts:140 | inner spaces are not removed: "h 1" does not match "h1" |
| Db.Store.constructor | src/models/index.ts:16-71 | the empty database with its registered users satisfies every table constraint |
| Db.Store.CompletedWithinTotal | src/actions/progress.ts:120-128 | because (user, video) is unique, a user's completed records in a course number at most the course's videos |
| Db.Store.FindEnrollment | src/actions/enrollment.ts:40-45 | `findOne` on (user, course) of any status: found exactly when such an enrollment exists, and the one returned matches |
| Db.Store.FindEnrollmentIn | src/actions/enrollment.ts:14-20 | `findOne` on (user, course, status): found exactly when one exists, and the one returned matches |
| Db.Store.FindCertificate | src/actions/certificate.ts:27-32 | `findOne` on (user, course): found exactly when a certificate exists; it is the only one for the pair |
| Db.Store.FindCertificateByNumber | src/actions/certificate.ts:187-201 | `findOne` by number: none exactly when no certificate has the number, otherwise the unique one that does |
| Db.Store.FindTestimonial | src/actions/testimonial.ts:26-31 | `findOne` on (user, course): found exactly when the user has a testimonial for the course |
| Db.Store.FindProgress | src/actions/progress.ts:49-53 | the `findOrCreate` lookup on (user, video): none exactly when the pair has no record |
| Db.Store.InsertEnrollment | src/models/Enrollment.ts:32-98 | the insert succeeds exactly when the key is new, the course exists, amountPaid passes its validator, a paymentId fits VARCHAR(255) and the (userId, courseId) index stays unique; it adds exactly that row |
| Db.Store.MarkEnrollmentCompleted | src/actions/enrollment.ts:135-138 | the in-place update sets status `completed` and `completedAt` and changes nothing else |
| Db.Store.InsertProgress | src/models/Progress.ts:30-100 | the insert succeeds exactly when the key is new and watchTime passes its validator; it adds exactly that row |
| Db.Store.UpdateProgressRecord | src/actions/progress.ts:62-68 | the in-place update succeeds exactly when the new watchTime passes its validator, and then replaces only that row |
| Db.Store.InsertAttempt | src/models/QuizAttempt.ts:30-90 | the insert succeeds exactly when the key is new, the quiz exists and score is in 0..100; attempts per (user, quiz) are not unique |
| Db.Store.InsertQuiz | src/models/Quiz.ts:26-72 | the insert succeeds exactly when the key is new, the chapter exists, the title is not blank and fits VARCHAR(255), and passingScore is in 0..100 |
| Db.Store.InsertQuestion | src/models/QuizQuestion.ts:32-98 | the insert succeeds exactly when the key is new, the quiz exists, question and correctAnswer are not blank, every option fits VARCHAR(255) and order is a non-negative integer |
| Db.Store.InsertCertificate | src/models/Certificate.ts:30-95 | the insert succeeds exactly when the key is new, the number fits VARCHAR(255), the pair has no certificate and the number is unused; enrollmentId is not unique |
| Db.Store.InsertTestimonial | src/models/Testimonial.ts:28-92 | the insert succeeds exactly when the key is new, the course exists, rating is in 1..5, comment length is 10..1000 and the pair has none |
| Db.Store.RewriteTestimonial | src/actions/testimonial.ts:115 | the in-place update succeeds exactly when the validators accept the new values |
| Db.Store.RemoveTestimonial | src/actions/testimonial.ts:142 | `destroy` removes exactly that row |
| Db.Store.InsertCourse | src/models/Course.ts:32-98 | the insert succeeds exactly when the key is new, the title length is 3..255 and not blank, the description is not blank and the price is a non-negative DECIMAL(10,2) |
| Db.Store.RewriteCourse | src/actions/course.ts:138 | the in-place update succeeds exactly when the validators accept the patched course |
| Db.Store.InsertChapter | src/models/Chapter.ts:26-72 | the insert succeeds exactly when the key is new, the course exists, the title length is 3..255 and the order is non-negative |
| Db.Store.InsertVideo | src/models/Video.ts:30-97 | the insert succeeds exactly when the key is new, the chapter exists, the title length is 3..255, the YouTube id is not blank and fits VARCHAR(255), and duration and order are non-negative integers |
| Db.Store.RemoveCourse | src/actions/course.ts:165 | `destroy` on a course cascades through chapters, videos, quizzes, questions, attempts, enrollments, progress, certificates and testimonials, and keeps every constraint |
| Schema.ChaptersCascade | src/models/Chapter.ts:33-41 | removing a course and its chapters keeps the chapter table well formed |
| Schema.VideosCascade | src/models/Video.ts:37-45 | dropping the videos of removed chapters keeps the video table well formed |
| Schema.QuizzesCascade | src/models/Quiz.ts:33-41 | dropping the quizzes of removed chapters keeps the quiz table well formed |
| Schema.QuestionsCascade | src/models/QuizQuestion.ts:39-47 | dropping the questions of removed quizzes keeps the question table well formed |
| Schema.AttemptsCascade | src/models/QuizAttempt.ts:45-54 | dropping the attempts of removed quizzes keeps the attempt table well formed |
| Schema.EnrollmentsCascade | src/models/Enrollment.ts:47-56 | dropping a course's enrollments keeps the enrollment table and its unique index well formed |
| Schema.ProgressCascade | src/models/Progress.ts:46-63 | dropping the progress of removed videos and courses keeps the progress table and its unique index well formed |
| Schema.CertificatesCascade | src/models/Certificate.ts:46-63 | dropping certificates whose enrollment or course went keeps the certificate table well formed |
| Schema.TestimonialsCascade | src/models/Testimonial.ts:44-52 | dropping a course's testimonials keeps the testimonial table well formed |
| EnrollmentActions.CheckEnrollment | src/actions/enrollment.ts:7-31 | enrolled exactly when an ACTIVE enrollment exists for (caller, course); the one returned belongs to the caller, is ACTIVE and is for that course; no session reports not enrolled |
| EnrollmentActions.CreateEnrollment | src/actions/enrollment.ts:33-73 | Unauthorized, then AlreadyEnrolled for an enrollment of any status, then NotFound; it succeeds exactly when, in addition, the amount is a valid DECIMAL(10,2), the paymentId fits VARCHAR(255) and the key is new; on success exactly one active row with the payment, amount and `enrolledAt = now` is added |
| EnrollmentActions.CompleteEnrollment | src/actions/enrollment.ts:119-146 | Unauthorized, NotFound, Forbidden for a non-owner, each changing nothing; otherwise status `completed` and `completedAt = now` from any prior status |
| EnrollmentActions.GetEnrollmentStats | src/actions/enrollment.ts:148-170 | the counts of all, completed and active enrollments of the caller; completed plus active is at most all |
| ProgressActions.PercentageAtMostHundred | src/actions/progress.ts:129 | with completed ≤ total the percentage is at most 100 |
| ProgressActions.PercentageOfAll | src/actions/progress.ts:129 | all videos complete gives exactly 100 |
| ProgressActions.PercentageHundredMeansAll | src/actions/progress.ts:70-75 | with fewer than 200 videos, 100 means every video is complete |
| ProgressActions.HundredBeforeTheEnd | src/actions/progress.ts:129 | with 200 or more videos, 100 is reported with one video still open |
| ProgressActions.CourseVideosByChapter | src/actions/progress.ts:111-118 | the videos of all chapters of a course are exactly the course's videos |
| ProgressActions.CountCourseVideos | src/actions/progress.ts:111-118 | the loop over chapters counts exactly the course's videos |
| ProgressActions.GetCourseProgress | src/actions/progress.ts:85-143 | Unauthorized, NotFound; otherwise totalVideos is the course's video count, completedVideos counts the caller's completed records in the course (at most the total), and percentage is their rounded ratio |
| ProgressActions.UpsertProgress | src/actions/progress.ts:49-68 | find-or-create on (user, video): a new record takes `completed || false` and `watchTime || 0`; an existing one changes only the supplied fields and always `lastWatchedAt`; an accepted watchTime always succeeds on an existing record, and on a new one unless the generated key is taken; a rejected watchTime changes nothing |
| ProgressActions.CompleteWhenFinished | src/actions/progress.ts:70-75 | the caller's enrollment is completed exactly when the recomputed percentage is 100 |
| ProgressActions.FinishIfComplete | src/actions/progress.ts:70-75 | completion fires only for a `completed` request with an active enrollment and a percentage of 100, and then completes that enrollment |
| ProgressActions.WriteProgress | src/actions/progress.ts:49-75 | the upsert followed by the completion trigger; it fails, changing nothing, only for a rejected watchTime or a taken key on a new record |
| ProgressActions.UpdateProgress | src/actions/progress.ts:8-83 | Unauthorized, NotFound, then NotEnrolled unless the caller has an ACTIVE enrollment or the video is free (changing nothing); otherwise the upsert and the completion trigger, which succeed whenever the watchTime is accepted and either the record exists or the generated key is new |
| QuizActions.CreateQuiz | src/actions/quiz.ts:31-62 | Unauthorized, NotFound, Forbidden unless the caller owns the chapter's course or is admin; only then is the quiz inserted, succeeding exactly when it passes the Quiz validators (a title of at most 255 characters among them) |
| QuizActions.AddQuizQuestion | src/actions/quiz.ts:64-113 | Unauthorized, NotFound, Forbidden unless the caller owns the quiz's course or is admin; only then is the question inserted, succeeding exactly when it passes the QuizQuestion validators (every option at most 255 characters among them) |
| QuizActions.GradeAnswers | src/actions/quiz.ts:136-143 | the counting loop counts exactly the questions whose submitted answer matches |
| QuizActions.CountCorrect | src/actions/quiz.ts:135-143 | the number of questions and of correctly answered ones |
| QuizActions.SubmitQuizAttempt | src/actions/quiz.ts:115-171 | Unauthorized, NotFound, Failed for a quiz without questions; a success appends exactly one attempt with the caller, quiz, answers, the rounded score and `score >= passingScore` under a key not used before, earlier attempts untouched |
| QuizActions.GetQuizResults | src/actions/quiz.ts:195-252 | Unauthorized, NotFound, Forbidden for anyone but the attempt's owner; the score, pass flag and completion time are the stored ones; the details cover exactly the quiz's questions, each with the question's own text, type, explanation and correct answer, the stored answer when truthy, and an `isCorrect` that is the scorer's match |
| CertificateActions.CheckCertificateEligibility | src/actions/certificate.ts:8-48 | eligible exactly with a completed enrollment; `alreadyIssued` exactly when the caller has a certificate for the course, which is returned |
| CertificateActions.GenerateCertificate | src/actions/certificate.ts:50-114 | NotCompleted without a completed enrollment; an existing certificate is returned and nothing is created; otherwise one certificate with the caller, the enrollment, the course, the new number and `issuedAt = now`, created exactly when the key is new and the number fits VARCHAR(255) and is unused |
| CertificateActions.GenerateTwice | src/actions/certificate.ts:81-94 | a second call returns the certificate the first one issued and creates nothing |
| CertificateActions.VerifyCertificate | src/actions/certificate.ts:185-220 | valid exactly when some certificate has the number; the view holds only the holder's name, the course title and `issuedAt`; a holder without a user row makes the lookup throw, which is Failed |
| CertificateActions.InsertNewest | src/actions/certificate.ts:140 | inserting into a newest-first list keeps it newest first and adds exactly the one element |
| CertificateActions.ListNewestFirst | src/actions/certificate.ts:123-141 | the listing is a permutation of the given certificates, ordered by `issuedAt` descending |
| CertificateActions.GetUserCertificates | src/actions/certificate.ts:116-148 | exactly the caller's certificates, newest first |
| TestimonialActions.RatingSumAdd | src/actions/testimonial.ts:75 | the `reduce` sum grows by each testimonial's rating |
| TestimonialActions.RatingSumWithin | src/actions/testimonial.ts:73-76 | with ratings in 1..5, the sum of n ratings lies between n and 5n |
| TestimonialActions.AverageTenths | src/actions/testimonial.ts:73-83 | 0 with no testimonials; otherwise, for ratings in 1..5, between 1.0 and 5.0 |
| TestimonialActions.SumRatings | src/actions/testimonial.ts:75 | the loop computes the rating sum of the shown testimonials |
| TestimonialActions.GetCourseTestimonials | src/actions/testimonial.ts:56-90 | only approved testimonials of the course; the count and the rounded average, in 1.0..5.0 when there are any |
| TestimonialActions.CreateTestimonial | src/actions/testimonial.ts:7-54 | Unauthorized, NotCompleted, AlreadySubmitted, then InvalidRating outside 1..5, in that order; a success adds one approved testimonial |
| TestimonialActions.Patched | src/actions/testimonial.ts:115 | `update(data)` sets each supplied field (rating, comment) and keeps every other field, the owner, course and approval included |
| TestimonialActions.UpdateTestimonial | src/actions/testimonial.ts:92-123 | Unauthorized, NotFound, Forbidden for anyone but the owner (admins included), InvalidRating for a truthy rating outside 1..5; a rating of 0 passes the check and the validator rejects it |
| TestimonialActions.DeleteTestimonial | src/actions/testimonial.ts:125-150 | Unauthorized, NotFound, Forbidden unless owner or admin; otherwise exactly that row is removed |
| TestimonialActions.ApproveTestimonial | src/actions/testimonial.ts:152-173 | Unauthorized for anyone but an admin, NotFound; otherwise only `approved` changes |
| PaymentActions.CreateRazorpayOrder | src/actions/payment.ts:8-53 | Unauthorized, NotFound, NotPurchasable for an unpublished course, with no gateway order requested; the order carries the price in hundredths and the course currency |
| PaymentActions.VerifyPayment | src/actions/payment.ts:55-100 | the signature is checked before the payment is fetched, then the status must be captured or authorized; only then is an enrollment created, with the fetched amount and the paymentId (at most 255 characters), and its failure is reported |
| PaymentActions.RefundAmount | src/actions/payment.ts:135 | a missing or zero amount refunds in full; otherwise the amount in hundredths |
| PaymentActions.InitiateRefund | src/actions/payment.ts:128-153 | Unauthorized for anyone but an admin, before any gateway request; otherwise the gateway's refund or Failed |
| CourseActions.Patched | src/actions/course.ts:138 | `update(data)` sets each supplied field (title, description, price, thumbnail, published) and keeps every field not supplied, never changing the instructor or currency |
| CourseActions.GetAllCourses | src/actions/course.ts:7-36 | with `published` only the published courses, otherwise all |
| CourseActions.CreateCourse | src/actions/course.ts:86-111 | Unauthorized; a success adds the course with the caller as instructor, currency INR and unpublished |
| CourseActions.UpdateCourse | src/actions/course.ts:113-147 | Unauthorized, NotFound, Forbidden unless instructor or admin, each changing nothing; otherwise the patched course |
| CourseActions.DeleteCourse | src/actions/course.ts:149-174 | Unauthorized, NotFound, Forbidden unless instructor or admin, each leaving the store unchanged; otherwise the cascading delete |
| CourseActions.CreateChapter | src/actions/course.ts:176-203 | Unauthorized, NotFound, Forbidden unless instructor or admin; a success adds exactly the chapter |
| CourseActions.CreateVideo | src/actions/course.ts:205-239 | Unauthorized, NotFound, Forbidden unless the chapter's course is the caller's or the caller is admin; it succeeds exactly when the video passes the Video validators (a YouTube id of at most 255 characters among them), and a success adds exactly the video |
| Middleware.ContainsAt | src/middleware.ts:12 | `includes` holds when the part occurs at some position |
| Middleware.Utf8 | src/middleware.ts:15 | a character's UTF-8 encoding is 1 to 4 bytes, and 1 exactly for ASCII |
| Middleware.PercentBytes | src/middleware.ts:15 | `%XX` escapes are three characters per byte, all '%' or unreserved |
| Middleware.EncodeChar | src/middleware.ts:15 | each character encodes to '%' escapes or unreserved characters |
| Middleware.EncodeURIComponent | src/middleware.ts:15 | the encoding contains only '%' and unreserved characters and is no shorter than the input |
| Middleware.EncodeKeepsUnreserved | src/middleware.ts:15 | a string of unreserved characters encodes to itself |
| Middleware.EncodeSlash | src/middleware.ts:15 | a leading '/' becomes `%2F` |
| Middleware.EncodeAppend | src/middleware.ts:15 | encoding distributes over concatenation |
| Middleware.SignedOutRedirected | src/middleware.ts:14-17 | a signed-out request to a protected path redirects to `/?callbackUrl=` and the encoded path, which contains no `& # ? = /` |
| Middleware.SignedOutElsewhere | src/middleware.ts:14-23 | a signed-out request to any other path passes through |
| Middleware.NonAdminKeptOutOfAdmin | src/middleware.ts:19-23 | a signed-in non-admin is sent to `/dashboard` exactly on `/admin` paths, and passes elsewhere |
| Middleware.AdminNeverRedirected | src/middleware.ts:9-23 | a signed-in admin is never redirected |
| Middleware.Handle | src/middleware.ts:26-28 | the guard does not run, so the request passes, for paths outside the matcher |
| Middleware.LearnTailContainsLearn | src/middleware.ts:27 | a path ending in a `/learn` segment contains `/learn` |
| Middleware.MatchedIsProtected | src/middleware.ts:9-27 | every path the matcher selects is one the guard protects |
| Middleware.GuardWiderThanMatcher | src/middleware.ts:9-28 | `/administrator` is protected by the guard's prefix test but not matched, so it is never guarded |
| Middleware.LearnPageMatched | src/middleware.ts:27 | `/courses/c1/learn` is matched |
| Middleware.CoursePageNotMatched | src/middleware.ts:27 | `/courses/c1` is not matched |
| ChapterList.Render | src/components/course/ChapterList.tsx:22-95 | the nested loops with the running `videoIndex` produce exactly the specified rows |
| ChapterList.RenderVideos | src/components/course/ChapterList.tsx:34-78 | one chapter's loop produces the specified links and advances the counter by the chapter's video count |
| ChapterList.RowShape | src/components/course/ChapterList.tsx:30-93 | one row per chapter and one link per video; the quiz entry appears exactly when the chapter has a quiz and the viewer is enrolled |
| ChapterList.LinksLength | src/components/course/ChapterList.tsx:34 | one link per video |
| ChapterList.LinkNumbered | src/components/course/ChapterList.tsx:35-38 | link j of a chapter is numbered `start + j` |
| ChapterList.GlobalNumbering | src/components/course/ChapterList.tsx:34-75 | video j of chapter c has global number k = videos before chapter c + j; it is free iff k < freeVideosCount, accessible iff enrolled or free, linked to `#` iff inaccessible, badged Free iff free and not enrolled, and current iff it is the playing video |
| ChapterList.NumberedFrom | src/components/course/ChapterList.tsx:22-38 | the counter carries across chapter boundaries |
| ChapterList.FreeRun | src/components/course/ChapterList.tsx:35-38 | a chapter's free videos are those the preview leaves past its start |
| ChapterList.FreeRows | src/components/course/ChapterList.tsx:30-38 | the free videos of the remaining chapters are those the preview leaves past the counter |
| ChapterList.FreeCount | src/components/course/ChapterList.tsx:22-38 | exactly min(max(freeVideosCount, 0), total videos) videos are free, however they are spread over chapters |
| QuizScreen.AllAnswered | src/components/quiz/QuizContainer.tsx:102 | `every` holds exactly when each question has an answer that is not the empty string |
| QuizScreen.AnsweringKeepsAllAnswered | src/components/quiz/QuizContainer.tsx:38-40 | giving a non-empty answer never disables Submit |
| QuizScreen.ClearingAnswerBlocksSubmit | src/components/quiz/QuizContainer.tsx:151-156 | an empty answer to any question disables Submit |
| QuizScreen.QuizContainer.constructor | src/components/quiz/QuizContainer.tsx:18-23 | the first question, no answers, no results |
| QuizScreen.QuizContainer.HandleAnswer | src/components/quiz/QuizContainer.tsx:38-40 | sets the one answer and leaves every other entry as it was |
| QuizScreen.QuizContainer.HandleNext | src/components/quiz/QuizContainer.tsx:42-46 | moves on only before the last question; the index stays within the questions |
| QuizScreen.QuizContainer.HandlePrevious | src/components/quiz/QuizContainer.tsx:48-52 | moves back only after the first question; the index stays within the questions |
| QuizScreen.QuizContainer.HandleSubmit | src/components/quiz/QuizContainer.tsx:54-60 | sends the current answers; results are shown only after a successful reply, and a failed one changes nothing |
| QuizScreen.QuizContainer.Retry | src/components/quiz/QuizContainer.tsx:90-95 | no answers, the first question, results hidden, and Submit disabled unless the quiz has no questions |

## Left out

- Floating point: `Math.round` on doubles is modelled as exact round-half-up on integers, so ratios that a double represents just below a half (such as 29/200) may round differently in the running program.
- Text.Lower: only ASCII letters are lower-cased; JavaScript's full Unicode case mapping is not modelled.
- Middleware.EncodeURIComponent: lone UTF-16 surrogates, on which `encodeURIComponent` throws, cannot occur in a Dafny string and are not modelled.
- Middleware.Handle: the matcher is modelled as case-sensitive segment patterns with an optional trailing slash. Next.js's `basePath`, locale prefixes and `_next/data` rewrites are not modelled. The query string and fragment are not part of the path.
- Session, clock and key generation: NextAuth's `auth()`, `new Date()` and the UUIDv4 primary keys are parameters (`caller`, `now`, `id`). A key that collides makes the insert fail, as the primary key would.
- generateCertificateNumber (src/lib/utils, not part of this model): the number is a parameter; an already used number fails on the unique index.
- The Razorpay gateway: `orders.create`, `payments.fetch` and `payments.refund` are network calls. Their replies are optional parameters; a missing reply is the thrown error, `Failed`.
- PaymentActions.CreateRazorpayOrder: the gateway order is assumed to echo the requested amount and currency.
- The HMAC-SHA256 payment signature (src/lib/razorpay.ts) is an uninterpreted predicate parameter of `VerifyPayment`.
- `revalidatePath` cache calls, `console.error` logging and the connection pool have no effect on the model.
- Concurrency: check-then-insert races in `createEnrollment` and `generateCertificate` are not modelled. The store is sequential, and uniqueness is a class invariant that the unique indexes guarantee.
- The order of listings by `createdAt`, `enrolledAt` or `lastWatchedAt` is not modelled: `getAllCourses` and `getCourseTestimonials` return sets. Only `getUserCertificates` is modelled in order, newest `issuedAt` first.
- The read-only lookups `getQuizByChapterId`, `getUserQuizAttempts`, `getVideoProgress`, `getUserProgress`, `getUserEnrollments`, `getCourseById`, `getCertificateByNumber` and `getPaymentDetails` are not modelled. They apply no rule beyond a filter and the session check that the modelled actions already show.
- The foreign keys to the users table and their cascades: the model does not require the caller's id to have a user row, and no action of this core deletes a user. Deleting a single chapter or video is not modelled either, since no action does it; course deletion cascades in full.
- The certificate's `pdfUrl`, the PDF generation route and the payment webhook route are HTTP and rendering code.
- QuizScreen.QuizContainer: the loading and "no quiz" screens are not modelled; the class starts once the quiz has loaded. On a quiz without questions the component dereferences a missing `currentQuestion` and crashes; the model instead keeps the index at 0.
- ChapterList.Render: the props come from the learn page, which sorts chapters and videos and passes a free-preview count of 3; that page is not part of this model. Titles, CSS classes and icons appear only as the `Look` of each link.
- InsertEnrollment, CreateEnrollment, VerifyPayment: a paymentId longer than 255 characters whose excess is all spaces is stored cut to 255 characters by PostgreSQL; the model rejects it like any other over-long value.
- InsertQuiz, CreateQuiz: the same for a quiz title longer than 255 characters that ends in spaces.
- InsertQuestion, AddQuizQuestion: the same for an option longer than 255 characters that ends in spaces.
- InsertVideo, CreateVideo: the same for a YouTube id longer than 255 characters that ends in spaces.
- InsertCertificate, GenerateCertificate: the same for a certificate number longer than 255 characters that ends in spaces.
- Models.TextWithin: the `len` validator's length is the number of code points. validator.js's `isLength` does not count the variation selectors U+FE0E and U+FE0F, so a text carrying them may pass `len` in the source at a length the model rejects.
- Rows written by other means (the seed script, manual database edits) are outside the model: `Valid()` includes three invariants that only the actions maintain, and such rows need not satisfy them.
- FlipCard and MCQ answer entry are presentation: a flip card submits its own correct answer and an MCQ answer locks after the first choice. The model takes any answer map.
