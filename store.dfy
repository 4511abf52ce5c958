/** The database as the actions see it: one map per table, the unique indexes, the foreign
    keys with their ON DELETE CASCADE chains, and the `findOne` lookups the actions use. */
module Db {
  import opened Common
  import opened Models
  import opened Schema
  import SetLemmas

  class Store {
    var users: map<Id, User>
    var courses: map<Id, Course>
    var chapters: map<Id, Chapter>
    var videos: map<Id, Video>
    var quizzes: map<Id, Quiz>
    var questions: map<Id, QuizQuestion>
    var attempts: map<Id, QuizAttempt>
    var enrollments: map<Id, Enrollment>
    var progress: map<Id, Progress>
    var certificates: map<Id, Certificate>
    var testimonials: map<Id, Testimonial>

    /** Every validator, foreign key and unique index of the schema holds. */
    ghost predicate Valid()
      reads this
    {
      && CourseTable(courses) && ChapterTable(chapters, courses) && VideoTable(videos, chapters)
      && QuizTable(quizzes, chapters) && QuestionTable(questions, quizzes) && AttemptTable(attempts, quizzes)
      && EnrollmentTable(enrollments, courses) && ProgressTable(progress, videos, chapters)
      && CertificateTable(certificates, enrollments) && TestimonialTable(testimonials, courses)
    }

    /** An empty database with a set of registered users. */
    constructor (registered: map<Id, User>)
      ensures Valid() && users == registered
      ensures courses == map[] && enrollments == map[] && certificates == map[]
      ensures progress == map[] && attempts == map[] && testimonials == map[]
    {
      users := registered;
      courses, chapters, videos := map[], map[], map[];
      quizzes, questions, attempts := map[], map[], map[];
      enrollments, progress, certificates, testimonials := map[], map[], map[], map[];
    }

    // ---- derived views ----

    /** The course a stored video belongs to, through its chapter. */
    ghost function CourseOfVideo(v: Id): Id
      reads this`videos, this`chapters
      requires v in videos && videos[v].chapterId in chapters
    {
      chapters[videos[v].chapterId].courseId
    }

    /** All videos in all chapters of a course. */
    ghost function CourseVideos(course: Id): set<Id>
      reads this`videos, this`chapters
    {
      set v | v in videos && videos[v].chapterId in chapters
                && chapters[videos[v].chapterId].courseId == course
    }

    /** The user's progress records of a course that are marked completed. */
    ghost function CompletedRecords(user: Id, course: Id): set<Id>
      reads this`progress
    {
      set p | p in progress && progress[p].userId == user && progress[p].courseId == course
                && progress[p].completed
    }

    /** The questions of a quiz, each with its correct answer. */
    ghost function AnswerKey(quiz: Id): map<Id, string>
      reads this`questions
    {
      map q | q in questions && questions[q].quizId == quiz :: questions[q].correctAnswer
    }

    ghost predicate HasEnrollment(user: Id, course: Id)
      reads this`enrollments
    {
      exists e :: e in enrollments && enrollments[e].userId == user && enrollments[e].courseId == course
    }

    ghost predicate HasEnrollmentIn(user: Id, course: Id, status: EnrollmentStatus)
      reads this`enrollments
    {
      exists e :: e in enrollments && enrollments[e].userId == user
                  && enrollments[e].courseId == course && enrollments[e].status == status
    }

    ghost predicate HasCertificate(user: Id, course: Id)
      reads this`certificates
    {
      exists c :: c in certificates && certificates[c].userId == user && certificates[c].courseId == course
    }

    ghost predicate NumberTaken(number: string)
      reads this`certificates
    {
      exists c :: c in certificates && certificates[c].certificateNumber == number
    }

    ghost predicate HasTestimonial(user: Id, course: Id)
      reads this`testimonials
    {
      exists t :: t in testimonials && testimonials[t].userId == user && testimonials[t].courseId == course
    }

    ghost predicate HasProgress(user: Id, video: Id)
      reads this`progress
    {
      exists p :: p in progress && progress[p].userId == user && progress[p].videoId == video
    }

    /** A user's completed videos of a course never outnumber the course's videos: each
        completed record names a distinct video of that course. */
    lemma CompletedWithinTotal(user: Id, course: Id)
      requires Valid()
      ensures |CompletedRecords(user, course)| <= |CourseVideos(course)|
    {
      var records := progress;
      var f := (p: Id) => if p in records then records[p].videoId else 0;
      SetLemmas.InjectionCard(CompletedRecords(user, course), CourseVideos(course), f);
    }

    // ---- findOne lookups ----

    /** `Enrollment.findOne({ where: { userId, courseId } })`, of any status. */
    method FindEnrollment(user: Id, course: Id) returns (r: Option<Id>)
      requires Valid()
      ensures r.None? <==> !HasEnrollment(user, course)
      ensures r.Some? ==> r.value in enrollments && enrollments[r.value].userId == user
                          && enrollments[r.value].courseId == course
    {
      if e :| e in enrollments && enrollments[e].userId == user && enrollments[e].courseId == course {
        r := Some(e);
      } else {
        r := None;
      }
    }

    /** `Enrollment.findOne({ where: { userId, courseId, status } })`. */
    method FindEnrollmentIn(user: Id, course: Id, status: EnrollmentStatus) returns (r: Option<Id>)
      requires Valid()
      ensures r.None? <==> !HasEnrollmentIn(user, course, status)
      ensures r.Some? ==> r.value in enrollments && enrollments[r.value].userId == user
                          && enrollments[r.value].courseId == course
                          && enrollments[r.value].status == status
    {
      if e :| e in enrollments && enrollments[e].userId == user
              && enrollments[e].courseId == course && enrollments[e].status == status {
        r := Some(e);
      } else {
        r := None;
      }
    }

    /** `Certificate.findOne({ where: { userId, courseId } })`; by the unique index the
        answer is the only such certificate. */
    method FindCertificate(user: Id, course: Id) returns (r: Option<Id>)
      requires Valid()
      ensures r.None? <==> !HasCertificate(user, course)
      ensures r.Some? ==> r.value in certificates && certificates[r.value].userId == user
                          && certificates[r.value].courseId == course
      ensures r.Some? ==> forall c ::
                (c in certificates && certificates[c].userId == user
                 && certificates[c].courseId == course) ==> c == r.value
    {
      if c :| c in certificates && certificates[c].userId == user && certificates[c].courseId == course {
        r := Some(c);
      } else {
        r := None;
      }
    }

    /** `Certificate.findOne({ where: { certificateNumber } })`; the number is unique. */
    method FindCertificateByNumber(number: string) returns (r: Option<Id>)
      requires Valid()
      ensures r.None? <==> forall c :: c in certificates ==> certificates[c].certificateNumber != number
      ensures r.Some? ==> r.value in certificates && certificates[r.value].certificateNumber == number
      ensures r.Some? ==> forall c :: c in certificates && certificates[c].certificateNumber == number ==> c == r.value
    {
      if c :| c in certificates && certificates[c].certificateNumber == number {
        r := Some(c);
      } else {
        r := None;
      }
    }

    /** `Testimonial.findOne({ where: { userId, courseId } })`. */
    method FindTestimonial(user: Id, course: Id) returns (r: Option<Id>)
      requires Valid()
      ensures r.None? <==> !HasTestimonial(user, course)
      ensures r.Some? ==> r.value in testimonials && testimonials[r.value].userId == user
                          && testimonials[r.value].courseId == course
    {
      if t :| t in testimonials && testimonials[t].userId == user && testimonials[t].courseId == course {
        r := Some(t);
      } else {
        r := None;
      }
    }

    /** The (userId, videoId) lookup of `Progress.findOrCreate`. */
    method FindProgress(user: Id, video: Id) returns (r: Option<Id>)
      requires Valid()
      ensures r.None? <==> forall p :: p in progress ==>
                             progress[p].userId != user || progress[p].videoId != video
      ensures r.Some? ==> r.value in progress && progress[r.value].userId == user
                          && progress[r.value].videoId == video
    {
      if p :| p in progress && progress[p].userId == user && progress[p].videoId == video {
        r := Some(p);
      } else {
        r := None;
      }
    }

    // ---- writes: Sequelize create/update with the column validators and unique indexes.
    // ---- `id` is the UUIDv4 the column default generates; a write that violates a
    // ---- constraint (the primary key included) throws and changes nothing.

    /** `Enrollment.create`: rejected when the course is missing, amountPaid is invalid or
        the (userId, courseId) index is taken. */
    method InsertEnrollment(id: Id, e: Enrollment) returns (ok: bool)
      requires Valid()
      requires e.status == Completed <==> e.completedAt.Some?
      modifies this`enrollments
      ensures Valid()
      ensures ok <==> (id !in old(enrollments) && e.courseId in courses && EnrollmentOk(e)
                      && !old(HasEnrollment(e.userId, e.courseId)))
      ensures !ok ==> enrollments == old(enrollments)
      ensures ok ==> enrollments == old(enrollments)[id := e]
    {
      var taken := FindEnrollment(e.userId, e.courseId);
      if id in enrollments || taken.Some? || e.courseId !in courses || !EnrollmentOk(e) {
        return false;
      }
      EnrollmentInserted(enrollments, courses, id, e);
      CertificatesKept(certificates, enrollments, id, e);
      enrollments := enrollments[id := e];
      ok := true;
    }

    /** `enrollment.update({ status: 'completed', completedAt })`. */
    method MarkEnrollmentCompleted(id: Id, at: Time)
      requires Valid() && id in enrollments
      modifies this`enrollments
      ensures Valid()
      ensures enrollments == old(enrollments)[id := old(enrollments)[id].(status := Completed, completedAt := Some(at))]
    {
      assert EnrollmentOk(enrollments[id]);
      var e := enrollments[id].(status := Completed, completedAt := Some(at));
      EnrollmentRewritten(enrollments, courses, id, e);
      CertificatesKept(certificates, enrollments, id, e);
      enrollments := enrollments[id := e];
    }

    /** `Progress.create` for a (userId, videoId) pair that has no record yet. */
    method InsertProgress(id: Id, p: Progress) returns (ok: bool)
      requires Valid()
      requires p.videoId in videos && p.courseId == CourseOfVideo(p.videoId)
      requires forall q :: q in progress ==> progress[q].userId != p.userId || progress[q].videoId != p.videoId
      modifies this`progress
      ensures Valid()
      ensures ok <==> id !in old(progress) && Models.ProgressOk(p)
      ensures !ok ==> progress == old(progress)
      ensures ok ==> progress == old(progress)[id := p]
    {
      if id in progress || !Models.ProgressOk(p) {
        return false;
      }
      ProgressInserted(progress, videos, chapters, id, p);
      progress := progress[id := p];
      ok := true;
    }

    /** `progress.update(...)` of the identity-preserving fields of an existing record. */
    method UpdateProgressRecord(id: Id, p: Progress) returns (ok: bool)
      requires Valid() && id in progress
      requires p.userId == progress[id].userId && p.videoId == progress[id].videoId
      requires p.courseId == progress[id].courseId
      modifies this`progress
      ensures Valid()
      ensures ok <==> Models.ProgressOk(p)
      ensures !ok ==> progress == old(progress)
      ensures ok ==> progress == old(progress)[id := p]
    {
      if !Models.ProgressOk(p) {
        return false;
      }
      ProgressRewritten(progress, videos, chapters, id, p);
      progress := progress[id := p];
      ok := true;
    }

    /** `QuizAttempt.create`: rejected when the quiz is missing or the score is not an
        integer in 0..100. */
    method InsertAttempt(id: Id, a: QuizAttempt) returns (ok: bool)
      requires Valid()
      modifies this`attempts
      ensures Valid()
      ensures ok <==> id !in old(attempts) && a.quizId in quizzes && AttemptOk(a)
      ensures !ok ==> attempts == old(attempts)
      ensures ok ==> attempts == old(attempts)[id := a]
    {
      if id in attempts || a.quizId !in quizzes || !AttemptOk(a) {
        return false;
      }
      attempts := attempts[id := a];
      ok := true;
    }

    /** `Quiz.create`: rejected when the chapter is missing, the title is blank or the
        passing score is outside 0..100. */
    method InsertQuiz(id: Id, q: Quiz) returns (ok: bool)
      requires Valid()
      modifies this`quizzes
      ensures Valid()
      ensures ok <==> id !in old(quizzes) && q.chapterId in chapters && QuizOk(q)
      ensures !ok ==> quizzes == old(quizzes)
      ensures ok ==> quizzes == old(quizzes)[id := q]
    {
      if id in quizzes || q.chapterId !in chapters || !QuizOk(q) {
        return false;
      }
      quizzes := quizzes[id := q];
      ok := true;
    }

    /** `QuizQuestion.create`: rejected when the quiz is missing, the question or the correct
        answer is blank, or the order is not a non-negative integer. */
    method InsertQuestion(id: Id, q: QuizQuestion) returns (ok: bool)
      requires Valid()
      modifies this`questions
      ensures Valid()
      ensures ok <==> id !in old(questions) && q.quizId in quizzes && QuestionOk(q)
      ensures !ok ==> questions == old(questions)
      ensures ok ==> questions == old(questions)[id := q]
    {
      if id in questions || q.quizId !in quizzes || !QuestionOk(q) {
        return false;
      }
      questions := questions[id := q];
      ok := true;
    }

    /** `Certificate.create`: rejected when the key is taken or when either unique index
        (userId, courseId) or certificateNumber already holds the value. */
    method InsertCertificate(id: Id, c: Certificate) returns (ok: bool)
      requires Valid()
      requires c.enrollmentId in enrollments && enrollments[c.enrollmentId].userId == c.userId
      requires enrollments[c.enrollmentId].courseId == c.courseId
      requires enrollments[c.enrollmentId].status == Completed
      modifies this`certificates
      ensures Valid()
      ensures ok <==> (id !in old(certificates) && CertificateOk(c) && !old(HasCertificate(c.userId, c.courseId))
                      && !old(NumberTaken(c.certificateNumber)))
      ensures !ok ==> certificates == old(certificates)
      ensures ok ==> certificates == old(certificates)[id := c]
    {
      var mine := FindCertificate(c.userId, c.courseId);
      var numbered := FindCertificateByNumber(c.certificateNumber);
      if id in certificates || !CertificateOk(c) || mine.Some? || numbered.Some? {
        return false;
      }
      CertificateInserted(certificates, enrollments, id, c);
      certificates := certificates[id := c];
      ok := true;
    }

    /** `Testimonial.create`: rejected when the course is missing, the rating or the comment
        is invalid, or the (userId, courseId) index is taken. */
    method InsertTestimonial(id: Id, t: Testimonial) returns (ok: bool)
      requires Valid()
      modifies this`testimonials
      ensures Valid()
      ensures ok <==> (id !in old(testimonials) && t.courseId in courses && TestimonialOk(t)
                      && !old(HasTestimonial(t.userId, t.courseId)))
      ensures !ok ==> testimonials == old(testimonials)
      ensures ok ==> testimonials == old(testimonials)[id := t]
    {
      var taken := FindTestimonial(t.userId, t.courseId);
      if id in testimonials || taken.Some? || t.courseId !in courses || !TestimonialOk(t) {
        return false;
      }
      TestimonialInserted(testimonials, courses, id, t);
      testimonials := testimonials[id := t];
      ok := true;
    }

    /** `testimonial.update(...)` of rating, comment or approval. */
    method RewriteTestimonial(id: Id, t: Testimonial) returns (ok: bool)
      requires Valid() && id in testimonials
      requires t.userId == testimonials[id].userId && t.courseId == testimonials[id].courseId
      modifies this`testimonials
      ensures Valid()
      ensures ok <==> TestimonialOk(t)
      ensures !ok ==> testimonials == old(testimonials)
      ensures ok ==> testimonials == old(testimonials)[id := t]
    {
      if !TestimonialOk(t) {
        return false;
      }
      TestimonialRewritten(testimonials, courses, id, t);
      testimonials := testimonials[id := t];
      ok := true;
    }

    /** `testimonial.destroy()`. */
    method RemoveTestimonial(id: Id)
      requires Valid()
      modifies this`testimonials
      ensures Valid()
      ensures testimonials == old(testimonials) - {id}
    {
      TestimonialRemoved(testimonials, courses, id);
      testimonials := testimonials - {id};
    }

    /** `Course.create`: rejected when the key is taken or a validator fails. */
    method InsertCourse(id: Id, c: Course) returns (ok: bool)
      requires Valid()
      modifies this`courses
      ensures Valid()
      ensures ok <==> id !in old(courses) && CourseOk(c)
      ensures !ok ==> courses == old(courses)
      ensures ok ==> courses == old(courses)[id := c]
    {
      if id in courses || !CourseOk(c) {
        return false;
      }
      courses := courses[id := c];
      ok := true;
    }

    /** `course.update(...)`: the row keeps its key, so every reference to it stays valid. */
    method RewriteCourse(id: Id, c: Course) returns (ok: bool)
      requires Valid() && id in courses
      modifies this`courses
      ensures Valid()
      ensures ok <==> CourseOk(c)
      ensures !ok ==> courses == old(courses)
      ensures ok ==> courses == old(courses)[id := c]
    {
      if !CourseOk(c) {
        return false;
      }
      courses := courses[id := c];
      ok := true;
    }

    /** `Chapter.create`: rejected when the key is taken, the course is missing or a
        validator fails. */
    method InsertChapter(id: Id, h: Chapter) returns (ok: bool)
      requires Valid()
      modifies this`chapters
      ensures Valid()
      ensures ok <==> id !in old(chapters) && h.courseId in courses && ChapterOk(h)
      ensures !ok ==> chapters == old(chapters)
      ensures ok ==> chapters == old(chapters)[id := h]
    {
      if id in chapters || h.courseId !in courses || !ChapterOk(h) {
        return false;
      }
      ChapterInserted(chapters, courses, videos, quizzes, progress, id, h);
      chapters := chapters[id := h];
      ok := true;
    }

    /** `Video.create`: rejected when the key is taken, the chapter is missing or a
        validator fails. */
    method InsertVideo(id: Id, v: Video) returns (ok: bool)
      requires Valid()
      modifies this`videos
      ensures Valid()
      ensures ok <==> id !in old(videos) && v.chapterId in chapters && VideoOk(v)
      ensures !ok ==> videos == old(videos)
      ensures ok ==> videos == old(videos)[id := v]
    {
      if id in videos || v.chapterId !in chapters || !VideoOk(v) {
        return false;
      }
      VideoInserted(videos, chapters, progress, id, v);
      videos := videos[id := v];
      ok := true;
    }

    /** `course.destroy()`: the course row goes, and with it, through the `ON DELETE CASCADE`
        foreign keys, its chapters, their videos and quizzes, the quizzes' questions and
        attempts, the course's enrollments, progress records, certificates and testimonials. */
    method RemoveCourse(id: Id)
      requires Valid()
      modifies this`courses, this`chapters, this`videos, this`quizzes, this`questions, this`attempts
      modifies this`enrollments, this`progress, this`certificates, this`testimonials
      ensures Valid()
      ensures courses == old(courses) - {id}
      ensures chapters == ChaptersLeft(old(chapters), id)
      ensures videos == VideosLeft(old(videos), chapters) && quizzes == QuizzesLeft(old(quizzes), chapters)
      ensures questions == QuestionsLeft(old(questions), quizzes) && attempts == AttemptsLeft(old(attempts), quizzes)
      ensures enrollments == EnrollmentsLeft(old(enrollments), id)
      ensures progress == ProgressLeft(old(progress), videos, id)
      ensures certificates == CertificatesLeft(old(certificates), enrollments, id)
      ensures testimonials == TestimonialsLeft(old(testimonials), id)
    {
      CourseRemoved(courses, chapters, videos, quizzes, questions, attempts, enrollments, progress,
                    certificates, testimonials, id);
      RemoveCourseContent(id);
      RemoveCourseRecords(id);
    }

    /** The course with its chapters, videos, quizzes, questions and attempts. */
    method RemoveCourseContent(id: Id)
      modifies this`courses, this`chapters, this`videos, this`quizzes, this`questions, this`attempts
      ensures courses == old(courses) - {id}
      ensures chapters == ChaptersLeft(old(chapters), id)
      ensures videos == VideosLeft(old(videos), chapters) && quizzes == QuizzesLeft(old(quizzes), chapters)
      ensures questions == QuestionsLeft(old(questions), quizzes) && attempts == AttemptsLeft(old(attempts), quizzes)
    {
      courses := courses - {id};
      chapters := ChaptersLeft(chapters, id);
      videos := VideosLeft(videos, chapters);
      quizzes := QuizzesLeft(quizzes, chapters);
      questions := QuestionsLeft(questions, quizzes);
      attempts := AttemptsLeft(attempts, quizzes);
    }

    /** The course's enrollments, progress records, certificates and testimonials, once the
        videos are gone. */
    method RemoveCourseRecords(id: Id)
      modifies this`enrollments, this`progress, this`certificates, this`testimonials
      ensures enrollments == EnrollmentsLeft(old(enrollments), id)
      ensures progress == ProgressLeft(old(progress), videos, id)
      ensures certificates == CertificatesLeft(old(certificates), enrollments, id)
      ensures testimonials == TestimonialsLeft(old(testimonials), id)
    {
      enrollments := EnrollmentsLeft(enrollments, id);
      progress := ProgressLeft(progress, videos, id);
      certificates := CertificatesLeft(certificates, enrollments, id);
      testimonials := TestimonialsLeft(testimonials, id);
    }
  }
}
