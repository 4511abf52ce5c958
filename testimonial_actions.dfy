/** Testimonials (src/actions/testimonial.ts): one per (user, course), only after completing
    the course; owners edit, owners or administrators delete, administrators approve; the
    course page shows the approved ones with their average rating. */
module TestimonialActions {
  import opened Common
  import opened Models
  import opened Db
  import Rounding

  /** `getCourseTestimonials`: the approved testimonials of the course, their number and
      the average rating in tenths (`Math.round(average * 10) / 10`, times ten). */
  datatype CourseTestimonials = CourseTestimonials(shown: set<Id>, count: nat, averageTenths: int)

  /** The approved testimonials of a course. */
  ghost function ApprovedOf(s: Store, courseId: Id): set<Id>
    reads s`testimonials
  {
    set t | t in s.testimonials && s.testimonials[t].courseId == courseId && s.testimonials[t].approved
  }

  /** The sum of the ratings of the given testimonials (`reduce((sum, t) => sum + t.rating, 0)`). */
  ghost function RatingSum(testimonials: map<Id, Testimonial>, ids: set<Id>): int
    requires ids <= testimonials.Keys
    decreases ids
  {
    if ids == {} then 0
    else
      var t :| t in ids;
      testimonials[t].rating + RatingSum(testimonials, ids - {t})
  }

  /** The sum does not depend on the order the testimonials are added in. */
  lemma {:induction false} RatingSumAdd(testimonials: map<Id, Testimonial>, ids: set<Id>, t: Id)
    requires ids <= testimonials.Keys && t in testimonials && t !in ids
    ensures RatingSum(testimonials, ids + {t}) == RatingSum(testimonials, ids) + testimonials[t].rating
    decreases ids
  {
    var all := ids + {t};
    var u :| u in all && RatingSum(testimonials, all) == testimonials[u].rating + RatingSum(testimonials, all - {u});
    if u != t {
      assert all - {u} == (ids - {u}) + {t};
      RatingSumAdd(testimonials, ids - {u}, t);
      assert ids == (ids - {u}) + {u};
      RatingSumAdd(testimonials, ids - {u}, u);
    } else {
      assert all - {u} == ids;
    }
  }

  /** With every rating in 1..5, the sum lies between the count and five times the count. */
  lemma {:induction false} RatingSumWithin(testimonials: map<Id, Testimonial>, ids: set<Id>)
    requires ids <= testimonials.Keys
    requires forall t :: t in ids ==> 1 <= testimonials[t].rating <= 5
    ensures |ids| <= RatingSum(testimonials, ids) <= 5 * |ids|
    decreases ids
  {
    if ids != {} {
      var t :| t in ids && RatingSum(testimonials, ids) == testimonials[t].rating + RatingSum(testimonials, ids - {t});
      RatingSumWithin(testimonials, ids - {t});
    }
  }

  /** `count > 0 ? sum / count : 0`, rounded to one decimal and kept in tenths. */
  function AverageTenths(sum: int, count: nat): (r: int)
    ensures count == 0 ==> r == 0
    ensures count > 0 && count <= sum <= 5 * count ==> 10 <= r <= 50
  {
    if count == 0 then 0
    else if count <= sum <= 5 * count then
      Rounding.TenthsWithin(sum, count, 1, 5);
      Rounding.RoundedTenths(sum, count)
    else Rounding.RoundedTenths(sum, count)
  }

  /** Adds up the ratings, one testimonial at a time. */
  method SumRatings(testimonials: map<Id, Testimonial>, ids: set<Id>) returns (sum: int)
    requires ids <= testimonials.Keys
    ensures sum == RatingSum(testimonials, ids)
  {
    var remaining := ids;
    ghost var done: set<Id> := {};
    sum := 0;
    while remaining != {}
      invariant remaining <= ids && done == ids - remaining
      invariant sum == RatingSum(testimonials, done)
      decreases |remaining|
    {
      var t :| t in remaining;
      RatingSumAdd(testimonials, done, t);
      sum := sum + testimonials[t].rating;
      remaining := remaining - {t};
      done := done + {t};
    }
    assert done == ids;
  }

  /** `getCourseTestimonials`: approved testimonials only; the average of their ratings is
      0 without any, and otherwise between 1.0 and 5.0. */
  method GetCourseTestimonials(s: Store, courseId: Id) returns (r: CourseTestimonials)
    requires s.Valid()
    ensures r.shown == ApprovedOf(s, courseId) && r.count == |r.shown|
    ensures r.averageTenths == AverageTenths(RatingSum(s.testimonials, r.shown), r.count)
    ensures r.count == 0 ==> r.averageTenths == 0
    ensures r.count > 0 ==> 10 <= r.averageTenths <= 50
  {
    var shown := set t | t in s.testimonials && s.testimonials[t].courseId == courseId && s.testimonials[t].approved;
    var sum := SumRatings(s.testimonials, shown);
    forall t | t in shown
      ensures 1 <= s.testimonials[t].rating <= 5
    {
      assert TestimonialOk(s.testimonials[t]);
    }
    RatingSumWithin(s.testimonials, shown);
    r := CourseTestimonials(shown, |shown|, AverageTenths(sum, |shown|));
  }

  /** `createTestimonial`: checked in this order: a completed enrollment, no earlier
      testimonial for the course, a rating in 1..5; the comment's length (10..1000) is the
      model validator's, and a new testimonial is approved at once. */
  method CreateTestimonial(s: Store, caller: Option<Session>, courseId: Id, rating: int, comment: string, id: Id)
    returns (r: Result<Id>)
    requires s.Valid()
    modifies s`testimonials
    ensures s.Valid()
    ensures caller.None? ==> r == Err(Unauthorized)
    ensures caller.Some? && !old(s.HasEnrollmentIn(caller.value.userId, courseId, Completed)) ==> r == Err(NotCompleted)
    ensures (caller.Some? && old(s.HasEnrollmentIn(caller.value.userId, courseId, Completed))
             && old(s.HasTestimonial(caller.value.userId, courseId))) ==> r == Err(AlreadySubmitted)
    ensures (caller.Some? && old(s.HasEnrollmentIn(caller.value.userId, courseId, Completed))
             && !old(s.HasTestimonial(caller.value.userId, courseId)) && !(1 <= rating <= 5))
            ==> r == Err(InvalidRating)
    ensures r.Ok? <==> (caller.Some? && old(s.HasEnrollmentIn(caller.value.userId, courseId, Completed))
                        && !old(s.HasTestimonial(caller.value.userId, courseId)) && 1 <= rating <= 5
                        && TextWithin(comment, 10, 1000) && id !in old(s.testimonials))
    ensures r.Err? ==> s.testimonials == old(s.testimonials)
    ensures r.Ok? ==> (r.value == id && s.testimonials == old(s.testimonials)[id :=
                         Testimonial(caller.value.userId, courseId, rating, comment, true)])
  {
    if caller.None? {
      return Err(Unauthorized);
    }
    var user := caller.value.userId;
    var enrollment := s.FindEnrollmentIn(user, courseId, Completed);
    if enrollment.None? {
      return Err(NotCompleted);
    }
    var existing := s.FindTestimonial(user, courseId);
    if existing.Some? {
      return Err(AlreadySubmitted);
    }
    if rating < 1 || rating > 5 {
      return Err(InvalidRating);
    }
    var inserted := s.InsertTestimonial(id, Testimonial(user, courseId, rating, comment, true));
    if !inserted {
      return Err(Failed);
    }
    r := Ok(id);
  }

  /** The record `testimonial.update(data)` writes: the fields supplied replace the stored
      ones. */
  function Patched(t: Testimonial, rating: Option<int>, comment: Option<string>): (r: Testimonial)
    ensures r.userId == t.userId && r.courseId == t.courseId && r.approved == t.approved
    ensures r.rating == (if rating.Some? then rating.value else t.rating)
    ensures r.comment == (if comment.Some? then comment.value else t.comment)
    ensures rating.None? && comment.None? ==> r == t
  {
    t.(rating := rating.GetOr(t.rating), comment := comment.GetOr(t.comment))
  }

  /** `if (data.rating && ...)`: a rating of 0 is falsy and skips the action's range check. */
  predicate RatingRejected(rating: Option<int>) {
    rating.Some? && rating.value != 0 && !(1 <= rating.value <= 5)
  }

  /** `updateTestimonial`: only the author may edit, administrators included. A rating of 0
      slips past the action's check and is then refused by the model validator. */
  method UpdateTestimonial(s: Store, caller: Option<Session>, testimonialId: Id, rating: Option<int>,
                           comment: Option<string>) returns (r: Result<Id>)
    requires s.Valid()
    modifies s`testimonials
    ensures s.Valid()
    ensures caller.None? ==> r == Err(Unauthorized)
    ensures caller.Some? && testimonialId !in old(s.testimonials) ==> r == Err(NotFound)
    ensures (caller.Some? && testimonialId in old(s.testimonials)
             && old(s.testimonials)[testimonialId].userId != caller.value.userId) ==> r == Err(Forbidden)
    ensures (caller.Some? && testimonialId in old(s.testimonials)
             && old(s.testimonials)[testimonialId].userId == caller.value.userId && RatingRejected(rating))
            ==> r == Err(InvalidRating)
    ensures (caller.Some? && testimonialId in old(s.testimonials)
             && old(s.testimonials)[testimonialId].userId == caller.value.userId && rating == Some(0))
            ==> r == Err(Failed)
    ensures r.Ok? <==> (caller.Some? && testimonialId in old(s.testimonials)
                        && old(s.testimonials)[testimonialId].userId == caller.value.userId
                        && !RatingRejected(rating)
                        && TestimonialOk(Patched(old(s.testimonials)[testimonialId], rating, comment)))
    ensures r.Err? ==> s.testimonials == old(s.testimonials)
    ensures r.Ok? ==> (r.value == testimonialId && s.testimonials == old(s.testimonials)[testimonialId :=
                         Patched(old(s.testimonials)[testimonialId], rating, comment)])
  {
    if caller.None? {
      return Err(Unauthorized);
    }
    if testimonialId !in s.testimonials {
      return Err(NotFound);
    }
    var t := s.testimonials[testimonialId];
    if t.userId != caller.value.userId {
      return Err(Forbidden);
    }
    if RatingRejected(rating) {
      return Err(InvalidRating);
    }
    var updated := s.RewriteTestimonial(testimonialId, Patched(t, rating, comment));
    if !updated {
      return Err(Failed);
    }
    r := Ok(testimonialId);
  }

  /** `deleteTestimonial`: the author or an administrator. */
  method DeleteTestimonial(s: Store, caller: Option<Session>, testimonialId: Id) returns (r: Result<Id>)
    requires s.Valid()
    modifies s`testimonials
    ensures s.Valid()
    ensures caller.None? ==> r == Err(Unauthorized)
    ensures caller.Some? && testimonialId !in old(s.testimonials) ==> r == Err(NotFound)
    ensures (caller.Some? && testimonialId in old(s.testimonials)
             && !OwnerOrAdmin(caller.value, old(s.testimonials)[testimonialId].userId)) ==> r == Err(Forbidden)
    ensures r.Ok? <==> (caller.Some? && testimonialId in old(s.testimonials)
                        && OwnerOrAdmin(caller.value, old(s.testimonials)[testimonialId].userId))
    ensures r.Err? ==> s.testimonials == old(s.testimonials)
    ensures r.Ok? ==> s.testimonials == old(s.testimonials) - {testimonialId}
  {
    if caller.None? {
      return Err(Unauthorized);
    }
    if testimonialId !in s.testimonials {
      return Err(NotFound);
    }
    if !OwnerOrAdmin(caller.value, s.testimonials[testimonialId].userId) {
      return Err(Forbidden);
    }
    s.RemoveTestimonial(testimonialId);
    r := Ok(testimonialId);
  }

  /** `approveTestimonial`: administrators only; anyone else, signed in or not, is
      Unauthorized. */
  method ApproveTestimonial(s: Store, caller: Option<Session>, testimonialId: Id, approved: bool)
    returns (r: Result<Id>)
    requires s.Valid()
    modifies s`testimonials
    ensures s.Valid()
    ensures (caller.None? || caller.value.role != Admin) ==> r == Err(Unauthorized)
    ensures caller.Some? && caller.value.role == Admin && testimonialId !in old(s.testimonials) ==> r == Err(NotFound)
    ensures r.Ok? <==> caller.Some? && caller.value.role == Admin && testimonialId in old(s.testimonials)
    ensures r.Err? ==> s.testimonials == old(s.testimonials)
    ensures r.Ok? ==> s.testimonials == old(s.testimonials)[testimonialId :=
                        old(s.testimonials)[testimonialId].(approved := approved)]
  {
    if caller.None? || caller.value.role != Admin {
      return Err(Unauthorized);
    }
    if testimonialId !in s.testimonials {
      return Err(NotFound);
    }
    var t := s.testimonials[testimonialId];
    assert TestimonialOk(t);
    var updated := s.RewriteTestimonial(testimonialId, t.(approved := approved));
    if !updated {
      assert false;
      return Err(Failed);
    }
    r := Ok(testimonialId);
  }
}
