/** The stored records (the files under src/models): one datatype per table, with the column
    constraints Sequelize and PostgreSQL enforce on every insert and update.
    Money is in hundredths of the currency unit, which a DECIMAL(10,2) column holds exactly. */
module Models {
  import opened Common
  import Text

  /** An INTEGER column holds a signed 32-bit value. */
  predicate IsInt32(x: int) {
    -0x8000_0000 <= x < 0x8000_0000
  }

  /** A DECIMAL(10,2) column: at most eight digits before the decimal point. */
  predicate IsDecimal10_2(hundredths: int) {
    -10_000_000_000 < hundredths < 10_000_000_000
  }

  /** A `DataTypes.STRING` column without a length is VARCHAR(255): PostgreSQL rejects a
      longer value. It would instead cut a longer value whose excess is all spaces; that
      case is not modelled and is rejected here as well. */
  predicate FitsVarchar(s: string) {
    |s| <= 255
  }

  /** Sequelize's `len: [lo, hi]` validator together with `notEmpty`. The length is the
      number of code points; validator.js's `isLength` also leaves out the variation
      selectors U+FE0E and U+FE0F, which this count includes. */
  predicate TextWithin(s: string, lo: nat, hi: nat) {
    Text.NotBlank(s) && lo <= |s| <= hi
  }

  // ---- src/models/User.ts (identity only) ----

  datatype User = User(name: Option<string>, email: string, role: Role)

  // ---- src/models/Course.ts ----

  const DefaultCurrency: string := "INR"

  datatype Course = Course(
    title: string,
    description: string,
    thumbnail: Option<string>,
    price: int,
    currency: string,
    instructorId: Id,
    published: bool)

  predicate CourseOk(c: Course) {
    && TextWithin(c.title, 3, 255)
    && Text.NotBlank(c.description)
    && 0 <= c.price && IsDecimal10_2(c.price)
    && |c.currency| <= 3
  }

  // ---- src/models/Chapter.ts ----

  datatype Chapter = Chapter(courseId: Id, title: string, description: Option<string>, order: int)

  predicate ChapterOk(c: Chapter) {
    TextWithin(c.title, 3, 255) && 0 <= c.order && IsInt32(c.order)
  }

  // ---- src/models/Video.ts ----

  datatype Video = Video(
    chapterId: Id,
    title: string,
    youtubeId: string,
    duration: int,
    order: int,
    isFree: bool)

  predicate VideoOk(v: Video) {
    && TextWithin(v.title, 3, 255)
    && Text.NotBlank(v.youtubeId) && FitsVarchar(v.youtubeId)
    && 0 <= v.duration && IsInt32(v.duration)
    && 0 <= v.order && IsInt32(v.order)
  }

  // ---- src/models/Quiz.ts ----

  const DefaultPassingScore: int := 70

  datatype Quiz = Quiz(chapterId: Id, title: string, description: Option<string>, passingScore: int)

  predicate QuizOk(q: Quiz) {
    Text.NotBlank(q.title) && FitsVarchar(q.title) && 0 <= q.passingScore <= 100
  }

  // ---- src/models/QuizQuestion.ts ----

  datatype QuestionType = Mcq | Flipcard

  datatype QuizQuestion = QuizQuestion(
    quizId: Id,
    kind: QuestionType,
    question: string,
    options: Option<seq<string>>,
    correctAnswer: string,
    explanation: Option<string>,
    order: int)

  predicate QuestionOk(q: QuizQuestion) {
    && Text.NotBlank(q.question)
    && (q.options.Some? ==> forall i :: 0 <= i < |q.options.value| ==> FitsVarchar(q.options.value[i]))
    && Text.NotBlank(q.correctAnswer)
    && 0 <= q.order && IsInt32(q.order)
  }

  // ---- src/models/QuizAttempt.ts ----

  datatype QuizAttempt = QuizAttempt(
    userId: Id,
    quizId: Id,
    answers: map<Id, string>,
    score: int,
    passed: bool,
    completedAt: Time)

  predicate AttemptOk(a: QuizAttempt) {
    0 <= a.score <= 100
  }

  // ---- src/models/Enrollment.ts ----

  datatype EnrollmentStatus = Active | Completed | Cancelled

  datatype Enrollment = Enrollment(
    userId: Id,
    courseId: Id,
    status: EnrollmentStatus,
    enrolledAt: Time,
    completedAt: Option<Time>,
    paymentId: Option<string>,
    amountPaid: int)

  predicate EnrollmentOk(e: Enrollment) {
    && 0 <= e.amountPaid && IsDecimal10_2(e.amountPaid)
    && (e.paymentId.Some? ==> FitsVarchar(e.paymentId.value))
  }

  // ---- src/models/Progress.ts ----

  datatype Progress = Progress(
    userId: Id,
    videoId: Id,
    courseId: Id,
    completed: bool,
    watchTime: int,
    lastWatchedAt: Time)

  predicate ProgressOk(p: Progress) {
    0 <= p.watchTime && IsInt32(p.watchTime)
  }

  // ---- src/models/Certificate.ts ----

  datatype Certificate = Certificate(
    userId: Id,
    enrollmentId: Id,
    courseId: Id,
    certificateNumber: string,
    issuedAt: Time,
    pdfUrl: Option<string>)

  predicate CertificateOk(c: Certificate) {
    FitsVarchar(c.certificateNumber)
  }

  // ---- src/models/Testimonial.ts ----

  datatype Testimonial = Testimonial(
    userId: Id,
    courseId: Id,
    rating: int,
    comment: string,
    approved: bool)

  predicate TestimonialOk(t: Testimonial) {
    1 <= t.rating <= 5 && TextWithin(t.comment, 10, 1000)
  }
}
