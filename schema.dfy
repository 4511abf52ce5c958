/** The constraints the Sequelize model definitions put on each table, stated over the
    table contents: column validators, foreign keys and unique indexes. Primary keys are
    the map keys, so they are unique by construction. */
module Schema {
  import opened Common
  import opened Models

  ghost predicate CourseTable(courses: map<Id, Course>) {
    forall c {:trigger CourseOk(courses[c])} :: c in courses ==> CourseOk(courses[c])
  }

  ghost predicate ChapterTable(chapters: map<Id, Chapter>, courses: map<Id, Course>) {
    && (forall h :: h in chapters ==> chapters[h].courseId in courses)
    && (forall h {:trigger ChapterOk(chapters[h])} :: h in chapters ==> ChapterOk(chapters[h]))
  }

  ghost predicate VideoTable(videos: map<Id, Video>, chapters: map<Id, Chapter>) {
    && (forall v :: v in videos ==> videos[v].chapterId in chapters)
    && (forall v {:trigger VideoOk(videos[v])} :: v in videos ==> VideoOk(videos[v]))
  }

  ghost predicate QuizTable(quizzes: map<Id, Quiz>, chapters: map<Id, Chapter>) {
    && (forall q :: q in quizzes ==> quizzes[q].chapterId in chapters)
    && (forall q {:trigger QuizOk(quizzes[q])} :: q in quizzes ==> QuizOk(quizzes[q]))
  }

  ghost predicate QuestionTable(questions: map<Id, QuizQuestion>, quizzes: map<Id, Quiz>) {
    && (forall q :: q in questions ==> questions[q].quizId in quizzes)
    && (forall q {:trigger QuestionOk(questions[q])} :: q in questions ==> QuestionOk(questions[q]))
  }

  /** QuizAttempt.ts: the (userId, quizId) index is not unique, so attempts accumulate. */
  ghost predicate AttemptTable(attempts: map<Id, QuizAttempt>, quizzes: map<Id, Quiz>) {
    && (forall a :: a in attempts ==> attempts[a].quizId in quizzes)
    && (forall a {:trigger AttemptOk(attempts[a])} :: a in attempts ==> AttemptOk(attempts[a]))
  }

  /** Enrollment.ts: the course exists, amountPaid is a valid amount and the (userId,
      courseId) index is unique. That `completedAt` is set exactly on completed enrollments
      is not declared by the model; it is an invariant the actions maintain. */
  ghost predicate EnrollmentTable(enrollments: map<Id, Enrollment>, courses: map<Id, Course>) {
    && (forall e :: e in enrollments ==>
          && enrollments[e].courseId in courses
          && (enrollments[e].status == Completed <==> enrollments[e].completedAt.Some?))
    && (forall e {:trigger EnrollmentOk(enrollments[e])} :: e in enrollments ==> EnrollmentOk(enrollments[e]))
    && (forall e, f ::
          (e in enrollments && f in enrollments
           && enrollments[e].userId == enrollments[f].userId
           && enrollments[e].courseId == enrollments[f].courseId) ==> e == f)
  }

  /** Progress.ts: the video exists, watchTime is valid and the (userId, videoId) index is
      unique. That the denormalized courseId is the video's course is not declared by the
      model; it is an invariant the actions maintain. */
  ghost predicate ProgressTable(progress: map<Id, Progress>, videos: map<Id, Video>, chapters: map<Id, Chapter>) {
    && (forall p :: p in progress ==>
          && progress[p].videoId in videos
          && videos[progress[p].videoId].chapterId in chapters
          && progress[p].courseId == chapters[videos[progress[p].videoId].chapterId].courseId)
    && (forall p {:trigger ProgressOk(progress[p])} :: p in progress ==> ProgressOk(progress[p]))
    && (forall p, q ::
          (p in progress && q in progress
           && progress[p].userId == progress[q].userId
           && progress[p].videoId == progress[q].videoId) ==> p == q)
  }

  /** Certificate.ts: the enrollment exists; certificateNumber fits VARCHAR(255); (userId,
      courseId) and certificateNumber are unique; enrollmentId is not. That the enrollment
      belongs to the certificate's user and course and is completed is not declared by the
      model; it is an invariant the actions maintain. */
  ghost predicate CertificateTable(certificates: map<Id, Certificate>, enrollments: map<Id, Enrollment>) {
    && (forall c :: c in certificates ==>
          && certificates[c].enrollmentId in enrollments
          && enrollments[certificates[c].enrollmentId].userId == certificates[c].userId
          && enrollments[certificates[c].enrollmentId].courseId == certificates[c].courseId
          && enrollments[certificates[c].enrollmentId].status == Completed)
    && (forall c {:trigger CertificateOk(certificates[c])} :: c in certificates ==> CertificateOk(certificates[c]))
    && (forall c, d ::
          (c in certificates && d in certificates
           && certificates[c].userId == certificates[d].userId
           && certificates[c].courseId == certificates[d].courseId) ==> c == d)
    && (forall c, d ::
          (c in certificates && d in certificates
           && certificates[c].certificateNumber == certificates[d].certificateNumber) ==> c == d)
  }

  /** Testimonial.ts: the course exists, rating and comment are valid, and the
      (userId, courseId) index is unique. */
  ghost predicate TestimonialTable(testimonials: map<Id, Testimonial>, courses: map<Id, Course>) {
    && (forall t :: t in testimonials ==> testimonials[t].courseId in courses)
    && (forall t {:trigger TestimonialOk(testimonials[t])} :: t in testimonials ==> TestimonialOk(testimonials[t]))
    && (forall t, u ::
          (t in testimonials && u in testimonials
           && testimonials[t].userId == testimonials[u].userId
           && testimonials[t].courseId == testimonials[u].courseId) ==> t == u)
  }

  // ---- what each kind of write does to the constraints

  /** Inserting an enrollment for a (user, course) pair that has none keeps the table well
      formed. */
  lemma EnrollmentInserted(enrollments: map<Id, Enrollment>, courses: map<Id, Course>, id: Id, e: Enrollment)
    requires EnrollmentTable(enrollments, courses) && id !in enrollments
    requires e.courseId in courses && EnrollmentOk(e) && (e.status == Completed <==> e.completedAt.Some?)
    requires forall f :: f in enrollments ==> enrollments[f].userId != e.userId || enrollments[f].courseId != e.courseId
    ensures EnrollmentTable(enrollments[id := e], courses)
  {
  }

  /** Rewriting an enrollment's status and completion time keeps the table well formed. */
  lemma EnrollmentRewritten(enrollments: map<Id, Enrollment>, courses: map<Id, Course>, id: Id, e: Enrollment)
    requires EnrollmentTable(enrollments, courses) && id in enrollments
    requires e.userId == enrollments[id].userId && e.courseId == enrollments[id].courseId
    requires EnrollmentOk(e) && (e.status == Completed <==> e.completedAt.Some?)
    ensures EnrollmentTable(enrollments[id := e], courses)
  {
  }

  /** Certificates keep their completed enrollment when a new enrollment is added or an
      enrollment is marked completed. */
  lemma CertificatesKept(certificates: map<Id, Certificate>, enrollments: map<Id, Enrollment>, id: Id, e: Enrollment)
    requires CertificateTable(certificates, enrollments)
    requires id in enrollments ==> (e.userId == enrollments[id].userId
                                    && e.courseId == enrollments[id].courseId && e.status == Completed)
    ensures CertificateTable(certificates, enrollments[id := e])
  {
  }

  /** Inserting the first record for a (user, video) pair keeps the progress table well
      formed. */
  lemma ProgressInserted(progress: map<Id, Progress>, videos: map<Id, Video>, chapters: map<Id, Chapter>,
                         id: Id, p: Progress)
    requires ProgressTable(progress, videos, chapters) && id !in progress && ProgressOk(p)
    requires p.videoId in videos && videos[p.videoId].chapterId in chapters
    requires p.courseId == chapters[videos[p.videoId].chapterId].courseId
    requires forall q :: q in progress ==> progress[q].userId != p.userId || progress[q].videoId != p.videoId
    ensures ProgressTable(progress[id := p], videos, chapters)
  {
  }

  /** Rewriting a record's non-key fields keeps the progress table well formed. */
  lemma ProgressRewritten(progress: map<Id, Progress>, videos: map<Id, Video>, chapters: map<Id, Chapter>,
                          id: Id, p: Progress)
    requires ProgressTable(progress, videos, chapters) && id in progress && ProgressOk(p)
    requires p.userId == progress[id].userId && p.videoId == progress[id].videoId
    requires p.courseId == progress[id].courseId
    ensures ProgressTable(progress[id := p], videos, chapters)
  {
  }

  /** Issuing the first certificate of a (user, course) pair, under an unused number and for
      that pair's completed enrollment, keeps the certificate table well formed. */
  lemma CertificateInserted(certificates: map<Id, Certificate>, enrollments: map<Id, Enrollment>,
                            id: Id, c: Certificate)
    requires CertificateTable(certificates, enrollments) && id !in certificates
    requires c.enrollmentId in enrollments && enrollments[c.enrollmentId].userId == c.userId
    requires enrollments[c.enrollmentId].courseId == c.courseId && enrollments[c.enrollmentId].status == Completed
    requires CertificateOk(c)
    requires forall d :: d in certificates ==> certificates[d].userId != c.userId || certificates[d].courseId != c.courseId
    requires forall d :: d in certificates ==> certificates[d].certificateNumber != c.certificateNumber
    ensures CertificateTable(certificates[id := c], enrollments)
  {
  }

  /** Inserting the first testimonial of a (user, course) pair keeps the table well formed. */
  lemma TestimonialInserted(testimonials: map<Id, Testimonial>, courses: map<Id, Course>, id: Id, t: Testimonial)
    requires TestimonialTable(testimonials, courses) && id !in testimonials
    requires t.courseId in courses && TestimonialOk(t)
    requires forall u :: u in testimonials ==> testimonials[u].userId != t.userId || testimonials[u].courseId != t.courseId
    ensures TestimonialTable(testimonials[id := t], courses)
  {
  }

  /** Rewriting a testimonial's rating, comment or approval keeps the table well formed. */
  lemma TestimonialRewritten(testimonials: map<Id, Testimonial>, courses: map<Id, Course>, id: Id, t: Testimonial)
    requires TestimonialTable(testimonials, courses) && id in testimonials && TestimonialOk(t)
    requires t.userId == testimonials[id].userId && t.courseId == testimonials[id].courseId
    ensures TestimonialTable(testimonials[id := t], courses)
  {
  }

  // ---- deleting a course and everything that cascades from it

  /** The rows left by `ON DELETE CASCADE` when course `course` is deleted. */
  function ChaptersLeft(chapters: map<Id, Chapter>, course: Id): map<Id, Chapter> {
    map h | h in chapters && chapters[h].courseId != course :: chapters[h]
  }

  function VideosLeft(videos: map<Id, Video>, chapters: map<Id, Chapter>): map<Id, Video> {
    map v | v in videos && videos[v].chapterId in chapters :: videos[v]
  }

  function QuizzesLeft(quizzes: map<Id, Quiz>, chapters: map<Id, Chapter>): map<Id, Quiz> {
    map q | q in quizzes && quizzes[q].chapterId in chapters :: quizzes[q]
  }

  function QuestionsLeft(questions: map<Id, QuizQuestion>, quizzes: map<Id, Quiz>): map<Id, QuizQuestion> {
    map q | q in questions && questions[q].quizId in quizzes :: questions[q]
  }

  function AttemptsLeft(attempts: map<Id, QuizAttempt>, quizzes: map<Id, Quiz>): map<Id, QuizAttempt> {
    map a | a in attempts && attempts[a].quizId in quizzes :: attempts[a]
  }

  function EnrollmentsLeft(enrollments: map<Id, Enrollment>, course: Id): map<Id, Enrollment> {
    map e | e in enrollments && enrollments[e].courseId != course :: enrollments[e]
  }

  /** Progress references both the video and the course, and either cascade removes it. */
  function ProgressLeft(progress: map<Id, Progress>, videos: map<Id, Video>, course: Id): map<Id, Progress> {
    map p | p in progress && progress[p].courseId != course && progress[p].videoId in videos :: progress[p]
  }

  /** Certificates reference both the enrollment and the course. */
  function CertificatesLeft(certificates: map<Id, Certificate>, enrollments: map<Id, Enrollment>, course: Id)
    : map<Id, Certificate>
  {
    map c | c in certificates && certificates[c].courseId != course
              && certificates[c].enrollmentId in enrollments :: certificates[c]
  }

  function TestimonialsLeft(testimonials: map<Id, Testimonial>, course: Id): map<Id, Testimonial> {
    map t | t in testimonials && testimonials[t].courseId != course :: testimonials[t]
  }

  lemma ChaptersCascade(chapters: map<Id, Chapter>, courses: map<Id, Course>, course: Id)
    requires ChapterTable(chapters, courses)
    ensures ChapterTable(ChaptersLeft(chapters, course), courses - {course})
  {
    var left := ChaptersLeft(chapters, course);
    forall h | h in left
      ensures ChapterOk(left[h])
    {
      assert ChapterOk(chapters[h]);
    }
  }

  lemma VideosCascade(videos: map<Id, Video>, chapters: map<Id, Chapter>, left: map<Id, Chapter>)
    requires VideoTable(videos, chapters)
    ensures VideoTable(VideosLeft(videos, left), left)
  {
    var kept := VideosLeft(videos, left);
    forall v | v in kept
      ensures VideoOk(kept[v])
    {
      assert VideoOk(videos[v]);
    }
  }

  lemma QuizzesCascade(quizzes: map<Id, Quiz>, chapters: map<Id, Chapter>, left: map<Id, Chapter>)
    requires QuizTable(quizzes, chapters)
    ensures QuizTable(QuizzesLeft(quizzes, left), left)
  {
    var kept := QuizzesLeft(quizzes, left);
    forall q | q in kept
      ensures QuizOk(kept[q])
    {
      assert QuizOk(quizzes[q]);
    }
  }

  lemma QuestionsCascade(questions: map<Id, QuizQuestion>, quizzes: map<Id, Quiz>, left: map<Id, Quiz>)
    requires QuestionTable(questions, quizzes)
    ensures QuestionTable(QuestionsLeft(questions, left), left)
  {
    var kept := QuestionsLeft(questions, left);
    forall q | q in kept
      ensures QuestionOk(kept[q])
    {
      assert QuestionOk(questions[q]);
    }
  }

  lemma AttemptsCascade(attempts: map<Id, QuizAttempt>, quizzes: map<Id, Quiz>, left: map<Id, Quiz>)
    requires AttemptTable(attempts, quizzes)
    ensures AttemptTable(AttemptsLeft(attempts, left), left)
  {
    var kept := AttemptsLeft(attempts, left);
    forall a | a in kept
      ensures AttemptOk(kept[a])
    {
      assert AttemptOk(attempts[a]);
    }
  }

  lemma EnrollmentsCascade(enrollments: map<Id, Enrollment>, courses: map<Id, Course>, course: Id)
    requires EnrollmentTable(enrollments, courses)
    ensures EnrollmentTable(EnrollmentsLeft(enrollments, course), courses - {course})
  {
    var kept := EnrollmentsLeft(enrollments, course);
    forall e | e in kept
      ensures EnrollmentOk(kept[e])
    {
      assert EnrollmentOk(enrollments[e]);
    }
  }

  lemma ProgressCascade(progress: map<Id, Progress>, videos: map<Id, Video>, chapters: map<Id, Chapter>,
                        course: Id, videosLeft: map<Id, Video>, chaptersLeft: map<Id, Chapter>)
    requires ProgressTable(progress, videos, chapters)
    requires forall v :: v in videosLeft ==> v in videos && videosLeft[v] == videos[v] && videos[v].chapterId in chaptersLeft
    requires forall h :: h in chaptersLeft ==> h in chapters && chaptersLeft[h] == chapters[h]
    ensures ProgressTable(ProgressLeft(progress, videosLeft, course), videosLeft, chaptersLeft)
  {
    var kept := ProgressLeft(progress, videosLeft, course);
    forall p | p in kept
      ensures ProgressOk(kept[p])
    {
      assert ProgressOk(progress[p]);
    }
  }

  lemma CertificatesCascade(certificates: map<Id, Certificate>, enrollments: map<Id, Enrollment>, course: Id)
    requires CertificateTable(certificates, enrollments)
    ensures CertificateTable(CertificatesLeft(certificates, EnrollmentsLeft(enrollments, course), course),
                             EnrollmentsLeft(enrollments, course))
  {
  }

  lemma TestimonialsCascade(testimonials: map<Id, Testimonial>, courses: map<Id, Course>, course: Id)
    requires TestimonialTable(testimonials, courses)
    ensures TestimonialTable(TestimonialsLeft(testimonials, course), courses - {course})
  {
    var kept := TestimonialsLeft(testimonials, course);
    forall t | t in kept
      ensures TestimonialOk(kept[t])
    {
      assert TestimonialOk(testimonials[t]);
    }
  }

  /** Deleting a testimonial keeps the table well formed: nothing references it. */
  lemma TestimonialRemoved(testimonials: map<Id, Testimonial>, courses: map<Id, Course>, id: Id)
    requires TestimonialTable(testimonials, courses)
    ensures TestimonialTable(testimonials - {id}, courses)
  {
    var kept := testimonials - {id};
    forall t | t in kept
      ensures TestimonialOk(kept[t])
    {
      assert TestimonialOk(testimonials[t]);
    }
  }

  /** A new chapter changes no stored video's, quiz's or progress record's chapter. */
  lemma ChapterInserted(chapters: map<Id, Chapter>, courses: map<Id, Course>, videos: map<Id, Video>,
                        quizzes: map<Id, Quiz>, progress: map<Id, Progress>, id: Id, h: Chapter)
    requires ChapterTable(chapters, courses) && VideoTable(videos, chapters) && QuizTable(quizzes, chapters)
    requires ProgressTable(progress, videos, chapters)
    requires id !in chapters && h.courseId in courses && ChapterOk(h)
    ensures ChapterTable(chapters[id := h], courses) && VideoTable(videos, chapters[id := h])
    ensures QuizTable(quizzes, chapters[id := h]) && ProgressTable(progress, videos, chapters[id := h])
  {
    var after := chapters[id := h];
    forall c | c in after
      ensures ChapterOk(after[c])
    {
      if c != id {
        assert ChapterOk(chapters[c]);
      }
    }
  }

  /** A new video changes no stored progress record's video. */
  lemma VideoInserted(videos: map<Id, Video>, chapters: map<Id, Chapter>, progress: map<Id, Progress>,
                      id: Id, v: Video)
    requires VideoTable(videos, chapters) && ProgressTable(progress, videos, chapters)
    requires id !in videos && v.chapterId in chapters && VideoOk(v)
    ensures VideoTable(videos[id := v], chapters) && ProgressTable(progress, videos[id := v], chapters)
  {
    var after := videos[id := v];
    forall w | w in after
      ensures VideoOk(after[w])
    {
      if w != id {
        assert VideoOk(videos[w]);
      }
    }
  }

  /** Deleting a course with its cascade leaves every table well formed. */
  lemma CourseRemoved(courses: map<Id, Course>, chapters: map<Id, Chapter>, videos: map<Id, Video>,
                      quizzes: map<Id, Quiz>, questions: map<Id, QuizQuestion>, attempts: map<Id, QuizAttempt>,
                      enrollments: map<Id, Enrollment>, progress: map<Id, Progress>,
                      certificates: map<Id, Certificate>, testimonials: map<Id, Testimonial>, id: Id)
    requires CourseTable(courses) && ChapterTable(chapters, courses) && VideoTable(videos, chapters)
    requires QuizTable(quizzes, chapters) && QuestionTable(questions, quizzes) && AttemptTable(attempts, quizzes)
    requires EnrollmentTable(enrollments, courses) && ProgressTable(progress, videos, chapters)
    requires CertificateTable(certificates, enrollments) && TestimonialTable(testimonials, courses)
    ensures var courses', chapters' := courses - {id}, ChaptersLeft(chapters, id);
            var videos', quizzes' := VideosLeft(videos, chapters'), QuizzesLeft(quizzes, chapters');
            var enrollments' := EnrollmentsLeft(enrollments, id);
            && CourseTable(courses') && ChapterTable(chapters', courses') && VideoTable(videos', chapters')
            && QuizTable(quizzes', chapters') && QuestionTable(QuestionsLeft(questions, quizzes'), quizzes')
            && AttemptTable(AttemptsLeft(attempts, quizzes'), quizzes')
            && EnrollmentTable(enrollments', courses')
            && ProgressTable(ProgressLeft(progress, videos', id), videos', chapters')
            && CertificateTable(CertificatesLeft(certificates, enrollments', id), enrollments')
            && TestimonialTable(TestimonialsLeft(testimonials, id), courses')
  {
    var chapters' := ChaptersLeft(chapters, id);
    var videos' := VideosLeft(videos, chapters');
    var quizzes' := QuizzesLeft(quizzes, chapters');
    var courses' := courses - {id};
    forall c | c in courses'
      ensures CourseOk(courses'[c])
    {
      assert CourseOk(courses[c]);
    }
    ChaptersCascade(chapters, courses, id);
    VideosCascade(videos, chapters, chapters');
    QuizzesCascade(quizzes, chapters, chapters');
    QuestionsCascade(questions, quizzes, quizzes');
    AttemptsCascade(attempts, quizzes, quizzes');
    EnrollmentsCascade(enrollments, courses, id);
    ProgressCascade(progress, videos, chapters, id, videos', chapters');
    CertificatesCascade(certificates, enrollments, id);
    TestimonialsCascade(testimonials, courses, id);
  }
}
