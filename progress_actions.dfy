/** Video progress (src/actions/progress.ts): the find-or-create upsert keyed on
    (user, video), the access gate, the course percentage and the completion trigger. */
module ProgressActions {
  import opened Common
  import opened Models
  import opened Db
  import Rounding
  import EnrollmentActions

  /** The answer of `getCourseProgress`. */
  datatype CourseProgress = CourseProgress(totalVideos: nat, completedVideos: nat, percentage: nat)

  /** `totalVideos > 0 ? Math.round(completed / total * 100) : 0`. */
  function Percentage(completed: nat, total: nat): nat {
    if total > 0 then Rounding.RoundedPercent(completed, total) else 0
  }

  /** The percentage of a part of the videos is at most 100. */
  lemma PercentageAtMostHundred(completed: nat, total: nat)
    requires completed <= total
    ensures Percentage(completed, total) <= 100
  {
    if total > 0 {
      Rounding.PercentAtMostHundred(completed, total);
    }
  }

  /** Completing every video of a course with videos gives 100. */
  lemma PercentageOfAll(total: nat)
    requires total > 0
    ensures Percentage(total, total) == 100
  {
    Rounding.PercentOfWhole(total);
  }

  /** Below 200 videos, 100 per cent means every video is complete. */
  lemma PercentageHundredMeansAll(completed: nat, total: nat)
    requires completed <= total < 200
    requires Percentage(completed, total) == 100
    ensures completed == total
  {
    Rounding.HundredOnlyWhenWhole(completed, total);
  }

  /** With 200 videos or more, one unwatched video still rounds to 100 per cent. */
  lemma HundredBeforeTheEnd(total: nat)
    requires total >= 200
    ensures Percentage(total - 1, total) == 100
  {
    Rounding.HundredWithOneMissing(total);
  }

  /** The chapters of a course. */
  ghost function ChaptersOf(s: Store, course: Id): set<Id>
    reads s`chapters
  {
    set h | h in s.chapters && s.chapters[h].courseId == course
  }

  /** The videos whose chapter is one of `hs`. */
  ghost function VideosIn(s: Store, hs: set<Id>): set<Id>
    reads s`videos
  {
    set v | v in s.videos && s.videos[v].chapterId in hs
  }

  /** The videos of one more chapter are disjoint from those already counted. */
  lemma VideosInAdd(s: Store, hs: set<Id>, h: Id)
    requires h !in hs
    ensures VideosIn(s, hs + {h}) == VideosIn(s, hs) + VideosIn(s, {h})
    ensures VideosIn(s, hs) !! VideosIn(s, {h})
  {
  }

  /** A course's videos are the videos of its chapters. */
  lemma CourseVideosByChapter(s: Store, course: Id)
    ensures VideosIn(s, ChaptersOf(s, course)) == s.CourseVideos(course)
  {
  }

  /** The `forEach` over the course's chapters that pushes each chapter's videos onto
      `allVideos`; the result is the length of `allVideos`. */
  method CountCourseVideos(s: Store, courseId: Id) returns (totalVideos: nat)
    ensures totalVideos == |s.CourseVideos(courseId)|
  {
    var chapters := set h | h in s.chapters && s.chapters[h].courseId == courseId;
    var remaining := chapters;
    ghost var done: set<Id> := {};
    totalVideos := 0;
    while remaining != {}
      invariant remaining <= chapters && done == chapters - remaining
      invariant totalVideos == |VideosIn(s, done)|
      decreases |remaining|
    {
      var h :| h in remaining;
      var videos := set v | v in s.videos && s.videos[v].chapterId == h;
      VideosInAdd(s, done, h);
      assert videos == VideosIn(s, {h});
      totalVideos := totalVideos + |videos|;
      remaining := remaining - {h};
      done := done + {h};
    }
    assert done == ChaptersOf(s, courseId);
    CourseVideosByChapter(s, courseId);
  }

  /** `getCourseProgress`: totals over every chapter of the course, the caller's completed
      records of that course, and the rounded percentage. */
  method GetCourseProgress(s: Store, caller: Option<Session>, courseId: Id) returns (r: Result<CourseProgress>)
    requires s.Valid()
    ensures caller.None? ==> r == Err(Unauthorized)
    ensures caller.Some? && courseId !in s.courses ==> r == Err(NotFound)
    ensures r.Ok? <==> caller.Some? && courseId in s.courses
    ensures r.Ok? ==> r.value.totalVideos == |s.CourseVideos(courseId)|
    ensures r.Ok? ==> r.value.completedVideos == |s.CompletedRecords(caller.value.userId, courseId)|
    ensures r.Ok? ==> r.value.completedVideos <= r.value.totalVideos
    ensures r.Ok? ==> r.value.percentage == Percentage(r.value.completedVideos, r.value.totalVideos)
  {
    if caller.None? {
      return Err(Unauthorized);
    }
    if courseId !in s.courses {
      return Err(NotFound);
    }
    var totalVideos := CountCourseVideos(s, courseId);
    var user := caller.value.userId;
    var completedProgress := set p | p in s.progress && s.progress[p].userId == user
                                     && s.progress[p].courseId == courseId && s.progress[p].completed;
    assert completedProgress == s.CompletedRecords(user, courseId);
    s.CompletedWithinTotal(user, courseId);
    var completedVideos := |completedProgress|;
    r := Ok(CourseProgress(totalVideos, completedVideos, Percentage(completedVideos, totalVideos)));
  }

  /** The record `findOrCreate` inserts: `completed || false`, `watchTime || 0`. */
  function CreatedRecord(user: Id, videoId: Id, courseId: Id, completed: Option<bool>,
                         watchTime: Option<int>, now: Time): Progress
  {
    Progress(user, videoId, courseId, completed.GetOr(false), watchTime.GetOr(0), now)
  }

  /** The in-place update of an existing record: only the supplied fields change, and the
      watch time stamp always does. */
  function UpdatedRecord(p: Progress, completed: Option<bool>, watchTime: Option<int>, now: Time): Progress
  {
    p.(completed := completed.GetOr(p.completed), watchTime := watchTime.GetOr(p.watchTime),
       lastWatchedAt := now)
  }

  /** The watchTime validator (integer, min 0) accepts the supplied value, if any. */
  predicate WatchTimeAccepted(watchTime: Option<int>) {
    watchTime.None? || (0 <= watchTime.value && IsInt32(watchTime.value))
  }

  /** Whether a write passes the access gate: an ACTIVE enrollment in the video's course, or
      a free video. */
  ghost predicate MayWatch(s: Store, user: Id, videoId: Id)
    reads s`videos, s`chapters, s`enrollments
    requires videoId in s.videos && s.videos[videoId].chapterId in s.chapters
  {
    s.videos[videoId].isFree || s.HasEnrollmentIn(user, s.CourseOfVideo(videoId), Active)
  }

  /** The progress table `after` is `before` with the (user, video) record written: the
      existing `record` updated in place, or, when the pair had none, a new record under
      the generated key `id`. */
  ghost predicate Upserted(before: map<Id, Progress>, after: map<Id, Progress>, record: Id, user: Id, videoId: Id,
                           courseId: Id, completed: Option<bool>, watchTime: Option<int>, now: Time, id: Id)
  {
    if record in before then
      && before[record].userId == user && before[record].videoId == videoId
      && after == before[record := UpdatedRecord(before[record], completed, watchTime, now)]
    else
      && record == id
      && (forall p :: p in before ==> before[p].userId != user || before[p].videoId != videoId)
      && after == before[id := CreatedRecord(user, videoId, courseId, completed, watchTime, now)]
  }

  /** The enrollment table `after` is `before`, except that when `fires` the user's active
      enrollment in the course is now completed at `now`. */
  ghost predicate CompletedIfFinished(before: map<Id, Enrollment>, after: map<Id, Enrollment>, user: Id,
                                      course: Id, fires: bool, now: Time)
  {
    && (!fires ==> after == before)
    && (fires ==> exists e :: e in before && before[e].userId == user && before[e].courseId == course
                              && before[e].status == Active
                              && after == before[e := before[e].(status := Completed, completedAt := Some(now))])
  }

  /** The `findOrCreate` on (userId, videoId) followed, for an existing record, by its
      in-place `update`. */
  method UpsertProgress(s: Store, user: Id, videoId: Id, completed: Option<bool>,
                        watchTime: Option<int>, now: Time, id: Id) returns (r: Result<Id>)
    requires s.Valid() && videoId in s.videos && s.videos[videoId].chapterId in s.chapters
    modifies s`progress
    ensures s.Valid()
    ensures r.Err? ==> r == Err(Failed) && s.progress == old(s.progress)
    ensures r.Err? ==> !WatchTimeAccepted(watchTime) || (!old(s.HasProgress(user, videoId)) && id in old(s.progress))
    ensures r.Ok? ==> r.value in s.progress
    ensures r.Ok? ==> Upserted(old(s.progress), s.progress, r.value, user, videoId, s.CourseOfVideo(videoId),
                               completed, watchTime, now, id)
    ensures WatchTimeAccepted(watchTime) && (old(s.HasProgress(user, videoId)) || id !in old(s.progress)) ==> r.Ok?
  {
    var existing := s.FindProgress(user, videoId);
    if existing.None? {
      var inserted := s.InsertProgress(id, CreatedRecord(user, videoId, s.chapters[s.videos[videoId].chapterId].courseId,
                                                         completed, watchTime, now));
      r := if inserted then Ok(id) else Err(Failed);
    } else {
      assert ProgressOk(s.progress[existing.value]);
      var ok := s.UpdateProgressRecord(existing.value, UpdatedRecord(s.progress[existing.value], completed, watchTime, now));
      r := if ok then Ok(existing.value) else Err(Failed);
    }
  }

  /** Lines 70-75 of `updateProgress`: once the caller's active enrollment is known and the
      write reported `completed`, recompute the course percentage and complete the
      enrollment when it is exactly 100. */
  method CompleteWhenFinished(s: Store, caller: Session, courseId: Id, enrollmentId: Id, now: Time)
    requires s.Valid() && enrollmentId in s.enrollments
    requires s.enrollments[enrollmentId].userId == caller.userId
    requires s.enrollments[enrollmentId].courseId == courseId
    modifies s`enrollments
    ensures s.Valid()
    ensures Percentage(|s.CompletedRecords(caller.userId, courseId)|, |s.CourseVideos(courseId)|) != 100
            ==> s.enrollments == old(s.enrollments)
    ensures Percentage(|s.CompletedRecords(caller.userId, courseId)|, |s.CourseVideos(courseId)|) == 100
            ==> s.enrollments == old(s.enrollments)[enrollmentId :=
                  old(s.enrollments)[enrollmentId].(status := Completed, completedAt := Some(now))]
  {
    var summary := GetCourseProgress(s, Some(caller), courseId);
    if summary.Ok? && summary.value.percentage == 100 {
      var outcome := EnrollmentActions.CompleteEnrollment(s, Some(caller), enrollmentId, now);
    }
  }

  /** The completion step of `updateProgress`, taken only when `requested` (the write
      succeeded and reported `completed`) and the caller has an active enrollment. */
  method FinishIfComplete(s: Store, caller: Session, courseId: Id, enrollment: Option<Id>, requested: bool, now: Time)
    requires s.Valid()
    requires enrollment.Some? ==> (enrollment.value in s.enrollments
                                   && s.enrollments[enrollment.value].userId == caller.userId
                                   && s.enrollments[enrollment.value].courseId == courseId
                                   && s.enrollments[enrollment.value].status == Active)
    requires enrollment.None? ==> !s.HasEnrollmentIn(caller.userId, courseId, Active)
    modifies s`enrollments
    ensures s.Valid()
    ensures CompletedIfFinished(old(s.enrollments), s.enrollments, caller.userId, courseId,
                                requested && old(s.HasEnrollmentIn(caller.userId, courseId, Active))
                                && Percentage(|s.CompletedRecords(caller.userId, courseId)|,
                                              |s.CourseVideos(courseId)|) == 100,
                                now)
  {
    if requested && enrollment.Some? {
      CompleteWhenFinished(s, caller, courseId, enrollment.value, now);
    }
  }

  /** The writes of `updateProgress` once the gate has passed: the upsert, then the
      completion step. */
  method WriteProgress(s: Store, caller: Session, videoId: Id, courseId: Id, enrollment: Option<Id>,
                       completed: Option<bool>, watchTime: Option<int>, now: Time, id: Id) returns (r: Result<Id>)
    requires s.Valid() && videoId in s.videos && courseId == s.CourseOfVideo(videoId)
    requires enrollment.Some? ==> (enrollment.value in s.enrollments
                                   && s.enrollments[enrollment.value].userId == caller.userId
                                   && s.enrollments[enrollment.value].courseId == courseId
                                   && s.enrollments[enrollment.value].status == Active)
    requires enrollment.None? ==> !s.HasEnrollmentIn(caller.userId, courseId, Active)
    modifies s`progress, s`enrollments
    ensures s.Valid()
    ensures r.Err? ==> r == Err(Failed)
    ensures r.Err? ==> !WatchTimeAccepted(watchTime)
                       || (!old(s.HasProgress(caller.userId, videoId)) && id in old(s.progress))
    ensures WatchTimeAccepted(watchTime) && (old(s.HasProgress(caller.userId, videoId)) || id !in old(s.progress))
            ==> r.Ok?
    ensures r.Err? ==> s.progress == old(s.progress) && s.enrollments == old(s.enrollments)
    ensures r.Ok? ==> r.value in s.progress
    ensures r.Ok? ==> Upserted(old(s.progress), s.progress, r.value, caller.userId, videoId, courseId,
                               completed, watchTime, now, id)
    ensures r.Ok? ==>
              CompletedIfFinished(old(s.enrollments), s.enrollments, caller.userId, courseId,
                                  completed == Some(true) && old(s.HasEnrollmentIn(caller.userId, courseId, Active))
                                  && Percentage(|s.CompletedRecords(caller.userId, courseId)|,
                                                |s.CourseVideos(courseId)|) == 100,
                                  now)
  {
    r := UpsertProgress(s, caller.userId, videoId, completed, watchTime, now, id);
    FinishIfComplete(s, caller, courseId, enrollment, r.Ok? && completed == Some(true), now);
  }

  /** `updateProgress`: gate, then create or update the single (user, video) record, then
      complete the active enrollment when `completed` was sent as true and the course
      percentage has become exactly 100. A created record gets the generated key `id`. */
  method UpdateProgress(s: Store, caller: Option<Session>, videoId: Id, completed: Option<bool>,
                        watchTime: Option<int>, now: Time, id: Id) returns (r: Result<Id>)
    requires s.Valid()
    modifies s`progress, s`enrollments
    ensures s.Valid()
    ensures caller.None? ==> r == Err(Unauthorized)
    ensures caller.Some? && videoId !in s.videos ==> r == Err(NotFound)
    ensures (caller.Some? && videoId in s.videos && !old(MayWatch(s, caller.value.userId, videoId)))
            ==> r == Err(NotEnrolled)
    ensures (caller.Some? && videoId in s.videos && old(MayWatch(s, caller.value.userId, videoId)))
            ==> (r.Err? ==> r == Err(Failed)
                            && (!WatchTimeAccepted(watchTime)
                                || (!old(s.HasProgress(caller.value.userId, videoId)) && id in old(s.progress))))
    ensures (caller.Some? && videoId in s.videos && old(MayWatch(s, caller.value.userId, videoId))
             && WatchTimeAccepted(watchTime)
             && (old(s.HasProgress(caller.value.userId, videoId)) || id !in old(s.progress))) ==> r.Ok?
    ensures r.Err? ==> s.progress == old(s.progress) && s.enrollments == old(s.enrollments)
    ensures r.Ok? ==> caller.Some? && videoId in s.videos && r.value in s.progress
    ensures r.Ok? ==> Upserted(old(s.progress), s.progress, r.value, caller.value.userId, videoId,
                               s.CourseOfVideo(videoId), completed, watchTime, now, id)
    ensures r.Ok? ==>
              var user := caller.value.userId;
              var course := s.CourseOfVideo(videoId);
              CompletedIfFinished(old(s.enrollments), s.enrollments, user, course,
                                  completed == Some(true) && old(s.HasEnrollmentIn(user, course, Active))
                                  && Percentage(|s.CompletedRecords(user, course)|, |s.CourseVideos(course)|) == 100,
                                  now)
  {
    if caller.None? {
      return Err(Unauthorized);
    }
    var user := caller.value.userId;
    if videoId !in s.videos {
      return Err(NotFound);
    }
    var video := s.videos[videoId];
    var courseId := s.chapters[video.chapterId].courseId;
    var enrollment := s.FindEnrollmentIn(user, courseId, Active);
    if enrollment.None? && !video.isFree {
      return Err(NotEnrolled);
    }
    r := WriteProgress(s, caller.value, videoId, courseId, enrollment, completed, watchTime, now, id);
  }
}
