/** Course authoring (src/actions/course.ts): every change needs a session, and every change
    to an existing course needs its instructor or an administrator. */
module CourseActions {
  import opened Common
  import opened Models
  import opened Schema
  import opened Db

  /** The fields `updateCourse` may change; `None` leaves a field as it is. */
  datatype CoursePatch = CoursePatch(
    title: Option<string>,
    description: Option<string>,
    price: Option<int>,
    thumbnail: Option<string>,
    published: Option<bool>)

  /** The record `course.update(data)` writes. Owner and currency are never patched. */
  function Patched(c: Course, patch: CoursePatch): (r: Course)
    ensures r.instructorId == c.instructorId && r.currency == c.currency
    ensures r.title == (if patch.title.Some? then patch.title.value else c.title)
    ensures r.description == (if patch.description.Some? then patch.description.value else c.description)
    ensures r.price == (if patch.price.Some? then patch.price.value else c.price)
    ensures r.thumbnail == (if patch.thumbnail.Some? then patch.thumbnail else c.thumbnail)
    ensures r.published == (if patch.published.Some? then patch.published.value else c.published)
    ensures patch == CoursePatch(None, None, None, None, None) ==> r == c
  {
    c.(title := patch.title.GetOr(c.title),
       description := patch.description.GetOr(c.description),
       price := patch.price.GetOr(c.price),
       thumbnail := if patch.thumbnail.Some? then patch.thumbnail else c.thumbnail,
       published := patch.published.GetOr(c.published))
  }

  /** `getAllCourses(published)`: with `published` (the default) only published courses,
      otherwise all of them. */
  method GetAllCourses(s: Store, published: bool) returns (r: set<Id>)
    ensures r <= s.courses.Keys
    ensures published ==> forall c :: c in r <==> c in s.courses && s.courses[c].published
    ensures !published ==> r == s.courses.Keys
  {
    if published {
      r := set c | c in s.courses && s.courses[c].published;
    } else {
      r := s.courses.Keys;
    }
  }

  /** `createCourse`: any signed-in user; the caller becomes the instructor, the currency is
      INR and the course starts unpublished. */
  method CreateCourse(s: Store, caller: Option<Session>, title: string, description: string, price: int,
                      thumbnail: Option<string>, id: Id) returns (r: Result<Id>)
    requires s.Valid()
    modifies s`courses
    ensures s.Valid()
    ensures caller.None? ==> r == Err(Unauthorized)
    ensures r.Ok? <==> (caller.Some? && id !in old(s.courses)
                        && CourseOk(Course(title, description, thumbnail, price, DefaultCurrency,
                                           caller.value.userId, false)))
    ensures r.Err? ==> s.courses == old(s.courses)
    ensures r.Ok? ==> (r.value == id && s.courses == old(s.courses)[id :=
                         Course(title, description, thumbnail, price, DefaultCurrency, caller.value.userId, false)])
  {
    if caller.None? {
      return Err(Unauthorized);
    }
    var course := Course(title, description, thumbnail, price, DefaultCurrency, caller.value.userId, false);
    var inserted := s.InsertCourse(id, course);
    if !inserted {
      return Err(Failed);
    }
    r := Ok(id);
  }

  /** `updateCourse`: the course's instructor or an administrator. */
  method UpdateCourse(s: Store, caller: Option<Session>, courseId: Id, patch: CoursePatch) returns (r: Result<Id>)
    requires s.Valid()
    modifies s`courses
    ensures s.Valid()
    ensures caller.None? ==> r == Err(Unauthorized)
    ensures caller.Some? && courseId !in old(s.courses) ==> r == Err(NotFound)
    ensures (caller.Some? && courseId in old(s.courses)
             && !OwnerOrAdmin(caller.value, old(s.courses)[courseId].instructorId)) ==> r == Err(Forbidden)
    ensures r.Ok? <==> (caller.Some? && courseId in old(s.courses)
                        && OwnerOrAdmin(caller.value, old(s.courses)[courseId].instructorId)
                        && CourseOk(Patched(old(s.courses)[courseId], patch)))
    ensures r.Err? ==> s.courses == old(s.courses)
    ensures r.Ok? ==> (r.value == courseId
                       && s.courses == old(s.courses)[courseId := Patched(old(s.courses)[courseId], patch)])
  {
    if caller.None? {
      return Err(Unauthorized);
    }
    if courseId !in s.courses {
      return Err(NotFound);
    }
    var course := s.courses[courseId];
    if !OwnerOrAdmin(caller.value, course.instructorId) {
      return Err(Forbidden);
    }
    var updated := s.RewriteCourse(courseId, Patched(course, patch));
    if !updated {
      return Err(Failed);
    }
    r := Ok(courseId);
  }

  /** `deleteCourse`: the course's instructor or an administrator; the database cascade
      takes everything that belongs to the course with it. */
  method DeleteCourse(s: Store, caller: Option<Session>, courseId: Id) returns (r: Result<Id>)
    requires s.Valid()
    modifies s`courses, s`chapters, s`videos, s`quizzes, s`questions, s`attempts
    modifies s`enrollments, s`progress, s`certificates, s`testimonials
    ensures s.Valid()
    ensures caller.None? ==> r == Err(Unauthorized)
    ensures caller.Some? && courseId !in old(s.courses) ==> r == Err(NotFound)
    ensures (caller.Some? && courseId in old(s.courses)
             && !OwnerOrAdmin(caller.value, old(s.courses)[courseId].instructorId)) ==> r == Err(Forbidden)
    ensures r.Ok? <==> (caller.Some? && courseId in old(s.courses)
                        && OwnerOrAdmin(caller.value, old(s.courses)[courseId].instructorId))
    ensures r.Err? ==> unchanged(s)
    ensures r.Ok? ==> s.courses == old(s.courses) - {courseId}
    ensures r.Ok? ==> s.chapters == ChaptersLeft(old(s.chapters), courseId)
    ensures r.Ok? ==> s.enrollments == EnrollmentsLeft(old(s.enrollments), courseId)
    ensures r.Ok? ==> s.videos == VideosLeft(old(s.videos), s.chapters) && s.quizzes == QuizzesLeft(old(s.quizzes), s.chapters)
    ensures r.Ok? ==> (s.questions == QuestionsLeft(old(s.questions), s.quizzes)
                       && s.attempts == AttemptsLeft(old(s.attempts), s.quizzes))
    ensures r.Ok? ==> s.progress == ProgressLeft(old(s.progress), s.videos, courseId)
    ensures r.Ok? ==> s.certificates == CertificatesLeft(old(s.certificates), s.enrollments, courseId)
    ensures r.Ok? ==> s.testimonials == TestimonialsLeft(old(s.testimonials), courseId)
  {
    if caller.None? {
      return Err(Unauthorized);
    }
    if courseId !in s.courses {
      return Err(NotFound);
    }
    if !OwnerOrAdmin(caller.value, s.courses[courseId].instructorId) {
      return Err(Forbidden);
    }
    s.RemoveCourse(courseId);
    r := Ok(courseId);
  }

  /** `createChapter`: the course's instructor or an administrator. */
  method CreateChapter(s: Store, caller: Option<Session>, courseId: Id, title: string, description: Option<string>,
                       order: int, id: Id) returns (r: Result<Id>)
    requires s.Valid()
    modifies s`chapters
    ensures s.Valid()
    ensures caller.None? ==> r == Err(Unauthorized)
    ensures caller.Some? && courseId !in s.courses ==> r == Err(NotFound)
    ensures (caller.Some? && courseId in s.courses
             && !OwnerOrAdmin(caller.value, s.courses[courseId].instructorId)) ==> r == Err(Forbidden)
    ensures r.Ok? <==> (caller.Some? && courseId in s.courses
                        && OwnerOrAdmin(caller.value, s.courses[courseId].instructorId)
                        && ChapterOk(Chapter(courseId, title, description, order)) && id !in old(s.chapters))
    ensures r.Err? ==> s.chapters == old(s.chapters)
    ensures r.Ok? ==> (r.value == id && s.chapters == old(s.chapters)[id := Chapter(courseId, title, description, order)])
  {
    if caller.None? {
      return Err(Unauthorized);
    }
    if courseId !in s.courses {
      return Err(NotFound);
    }
    if !OwnerOrAdmin(caller.value, s.courses[courseId].instructorId) {
      return Err(Forbidden);
    }
    var inserted := s.InsertChapter(id, Chapter(courseId, title, description, order));
    if !inserted {
      return Err(Failed);
    }
    r := Ok(id);
  }

  /** The instructor of the course a chapter belongs to. */
  ghost function ChapterOwner(s: Store, chapterId: Id): Id
    reads s
    requires s.Valid() && chapterId in s.chapters
  {
    s.courses[s.chapters[chapterId].courseId].instructorId
  }

  /** `createVideo`: the instructor of the chapter's course or an administrator; a video is
      not free unless the caller says so. */
  method CreateVideo(s: Store, caller: Option<Session>, chapterId: Id, title: string, youtubeId: string,
                     duration: int, order: int, isFree: Option<bool>, id: Id) returns (r: Result<Id>)
    requires s.Valid()
    modifies s`videos
    ensures s.Valid()
    ensures caller.None? ==> r == Err(Unauthorized)
    ensures caller.Some? && chapterId !in s.chapters ==> r == Err(NotFound)
    ensures (caller.Some? && chapterId in s.chapters
             && !OwnerOrAdmin(caller.value, ChapterOwner(s, chapterId))) ==> r == Err(Forbidden)
    ensures r.Ok? <==> (caller.Some? && chapterId in s.chapters
                        && OwnerOrAdmin(caller.value, ChapterOwner(s, chapterId))
                        && VideoOk(Video(chapterId, title, youtubeId, duration, order, isFree.GetOr(false)))
                        && id !in old(s.videos))
    ensures r.Err? ==> s.videos == old(s.videos)
    ensures r.Ok? ==> (r.value == id && s.videos == old(s.videos)[id :=
                         Video(chapterId, title, youtubeId, duration, order, isFree.GetOr(false))])
  {
    if caller.None? {
      return Err(Unauthorized);
    }
    if chapterId !in s.chapters {
      return Err(NotFound);
    }
    var course := s.courses[s.chapters[chapterId].courseId];
    if !OwnerOrAdmin(caller.value, course.instructorId) {
      return Err(Forbidden);
    }
    var inserted := s.InsertVideo(id, Video(chapterId, title, youtubeId, duration, order, isFree.GetOr(false)));
    if !inserted {
      return Err(Failed);
    }
    r := Ok(id);
  }
}
