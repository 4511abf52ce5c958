/** The enrollment lifecycle (src/actions/enrollment.ts): create once per (user, course),
    the active check, the completion transition and the per-user counts. */
module EnrollmentActions {
  import opened Common
  import opened Models
  import opened Db
  import SetLemmas

  /** The answer of `checkEnrollment`. */
  datatype EnrollmentCheck = EnrollmentCheck(success: bool, enrolled: bool, enrollment: Option<Id>)

  /** The counts of `getEnrollmentStats`. */
  datatype EnrollmentStats = EnrollmentStats(enrolledCourses: nat, completedCourses: nat, inProgressCourses: nat)

  /** The user's enrollments, of any status. */
  ghost function EnrollmentsOf(s: Store, user: Id): set<Id>
    reads s`enrollments
  {
    set e | e in s.enrollments && s.enrollments[e].userId == user
  }

  /** The user's enrollments with the given status. */
  ghost function EnrollmentsWith(s: Store, user: Id, status: EnrollmentStatus): set<Id>
    reads s`enrollments
  {
    set e | e in s.enrollments && s.enrollments[e].userId == user && s.enrollments[e].status == status
  }

  /** `checkEnrollment`: enrolled means an ACTIVE enrollment exists; a completed one does
      not count. */
  method CheckEnrollment(s: Store, caller: Option<Session>, courseId: Id) returns (r: EnrollmentCheck)
    requires s.Valid()
    ensures caller.None? ==> r == EnrollmentCheck(false, false, None)
    ensures caller.Some? ==> r.success
    ensures caller.Some? ==> (r.enrolled <==> s.HasEnrollmentIn(caller.value.userId, courseId, Active))
    ensures r.enrolled <==> r.enrollment.Some?
    ensures r.enrollment.Some? ==>
              (r.enrollment.value in s.enrollments
               && caller.Some?
               && s.enrollments[r.enrollment.value].userId == caller.value.userId
               && s.enrollments[r.enrollment.value].status == Active
               && s.enrollments[r.enrollment.value].courseId == courseId)
  {
    if caller.None? {
      return EnrollmentCheck(false, false, None);
    }
    var found := s.FindEnrollmentIn(caller.value.userId, courseId, Active);
    r := EnrollmentCheck(true, found.Some?, found);
  }

  /** `createEnrollment`: fails when the user already has an enrollment of any status for the
      course, or the course is unknown; otherwise inserts an active enrollment under the
      generated key `id`. */
  method CreateEnrollment(s: Store, caller: Option<Session>, courseId: Id, paymentId: string,
                          amountPaid: int, now: Time, id: Id) returns (r: Result<Id>)
    requires s.Valid()
    modifies s`enrollments
    ensures s.Valid()
    ensures caller.None? ==> r == Err(Unauthorized)
    ensures caller.Some? && old(s.HasEnrollment(caller.value.userId, courseId)) ==> r == Err(AlreadyEnrolled)
    ensures caller.Some? && !old(s.HasEnrollment(caller.value.userId, courseId)) && courseId !in s.courses
            ==> r == Err(NotFound)
    ensures r.Ok? <==> caller.Some? && !old(s.HasEnrollment(caller.value.userId, courseId))
                       && courseId in s.courses && 0 <= amountPaid && IsDecimal10_2(amountPaid)
                       && FitsVarchar(paymentId) && id !in old(s.enrollments)
    ensures r.Err? ==> s.enrollments == old(s.enrollments)
    ensures r.Ok? ==>
              (r.value == id
               && s.enrollments == old(s.enrollments)[id :=
                    Enrollment(caller.value.userId, courseId, Active, now, None, Some(paymentId), amountPaid)])
  {
    if caller.None? {
      return Err(Unauthorized);
    }
    var user := caller.value.userId;
    var existing := s.FindEnrollment(user, courseId);
    if existing.Some? {
      return Err(AlreadyEnrolled);
    }
    if courseId !in s.courses {
      return Err(NotFound);
    }
    var e := Enrollment(user, courseId, Active, now, None, Some(paymentId), amountPaid);
    // the amountPaid validator (min 0, DECIMAL(10,2)) or the primary key may still reject it
    var inserted := s.InsertEnrollment(id, e);
    if !inserted {
      return Err(Failed);
    }
    r := Ok(id);
  }

  /** `completeEnrollment`: the owner may complete an enrollment from any status; the
      completion time is overwritten on every call, so the transition is not idempotent. */
  method CompleteEnrollment(s: Store, caller: Option<Session>, enrollmentId: Id, now: Time)
    returns (r: Result<Id>)
    requires s.Valid()
    modifies s`enrollments
    ensures s.Valid()
    ensures caller.None? ==> r == Err(Unauthorized)
    ensures caller.Some? && enrollmentId !in old(s.enrollments) ==> r == Err(NotFound)
    ensures (caller.Some? && enrollmentId in old(s.enrollments)
             && old(s.enrollments)[enrollmentId].userId != caller.value.userId) ==> r == Err(Forbidden)
    ensures r.Ok? <==> caller.Some? && enrollmentId in old(s.enrollments)
                       && old(s.enrollments)[enrollmentId].userId == caller.value.userId
    ensures r.Err? ==> s.enrollments == old(s.enrollments)
    ensures r.Ok? ==>
              (r.value == enrollmentId
               && s.enrollments == old(s.enrollments)[enrollmentId :=
                    old(s.enrollments)[enrollmentId].(status := Completed, completedAt := Some(now))])
  {
    if caller.None? {
      return Err(Unauthorized);
    }
    if enrollmentId !in s.enrollments {
      return Err(NotFound);
    }
    var e := s.enrollments[enrollmentId];
    if e.userId != caller.value.userId {
      return Err(Forbidden);
    }
    s.MarkEnrollmentCompleted(enrollmentId, now);
    r := Ok(enrollmentId);
  }

  /** `getEnrollmentStats`: the user's enrollments, and among them the completed and the
      active ones; cancelled enrollments are in the first count only. */
  method GetEnrollmentStats(s: Store, caller: Option<Session>) returns (r: Result<EnrollmentStats>)
    requires s.Valid()
    ensures caller.None? <==> r == Err(Unauthorized)
    ensures r.Ok? ==> r.value.enrolledCourses == |EnrollmentsOf(s, caller.value.userId)|
    ensures r.Ok? ==> r.value.completedCourses == |EnrollmentsWith(s, caller.value.userId, Completed)|
    ensures r.Ok? ==> r.value.inProgressCourses == |EnrollmentsWith(s, caller.value.userId, Active)|
    ensures r.Ok? ==> r.value.completedCourses + r.value.inProgressCourses <= r.value.enrolledCourses
  {
    if caller.None? {
      return Err(Unauthorized);
    }
    var user := caller.value.userId;
    var mine := set e | e in s.enrollments && s.enrollments[e].userId == user;
    var completed := set e | e in mine && s.enrollments[e].status == Completed;
    var active := set e | e in mine && s.enrollments[e].status == Active;
    assert mine == EnrollmentsOf(s, user);
    assert completed == EnrollmentsWith(s, user, Completed);
    assert active == EnrollmentsWith(s, user, Active);
    SetLemmas.DisjointSubsetsCard(completed, active, mine);
    r := Ok(EnrollmentStats(|mine|, |completed|, |active|));
  }
}
