/** Certificate issuance (src/actions/certificate.ts): a certificate needs a completed
    enrollment, is issued at most once per (user, course), and can be checked publicly by
    its number. */
module CertificateActions {
  import opened Common
  import opened Models
  import opened Db

  /** What public verification reveals of a certificate, and nothing more. */
  datatype CertificateView = CertificateView(userName: Option<string>, courseName: string, issuedAt: Time)

  /** The caller's certificates, of any course. */
  ghost function CertificatesOf(s: Store, user: Id): set<Id>
    reads s`certificates
  {
    set c | c in s.certificates && s.certificates[c].userId == user
  }

  /** `checkCertificateEligibility`: eligible exactly when a completed enrollment exists;
      `Ok(Some(c))` is an eligible caller who already holds certificate `c`, `Ok(None)` one
      who does not yet. */
  method CheckCertificateEligibility(s: Store, caller: Option<Session>, courseId: Id) returns (r: Result<Option<Id>>)
    requires s.Valid()
    ensures caller.None? ==> r == Err(Unauthorized)
    ensures caller.Some? ==> (r.Ok? <==> s.HasEnrollmentIn(caller.value.userId, courseId, Completed))
    ensures caller.Some? && r.Err? ==> r.error == NotCompleted
    ensures r.Ok? ==> (r.value.Some? <==> s.HasCertificate(caller.value.userId, courseId))
    ensures r.Ok? && r.value.Some? ==>
              (r.value.value in s.certificates
               && s.certificates[r.value.value].userId == caller.value.userId
               && s.certificates[r.value.value].courseId == courseId)
  {
    if caller.None? {
      return Err(Unauthorized);
    }
    var user := caller.value.userId;
    var enrollment := s.FindEnrollmentIn(user, courseId, Completed);
    if enrollment.None? {
      return Err(NotCompleted);
    }
    var existing := s.FindCertificate(user, courseId);
    r := Ok(existing);
  }

  /** `generateCertificate`: with a completed enrollment, returns the caller's existing
      certificate for the course unchanged, or issues a new one numbered `number` (the value
      `generateCertificateNumber` produced) under key `id`, issued `now`. The unique indexes
      reject a number or key already in use. */
  method GenerateCertificate(s: Store, caller: Option<Session>, courseId: Id, number: string, now: Time, id: Id)
    returns (r: Result<Id>)
    requires s.Valid()
    modifies s`certificates
    ensures s.Valid()
    ensures caller.None? ==> r == Err(Unauthorized)
    ensures caller.Some? && !old(s.HasEnrollmentIn(caller.value.userId, courseId, Completed)) ==> r == Err(NotCompleted)
    ensures r.Err? ==> s.certificates == old(s.certificates)
    ensures (caller.Some? && old(s.HasEnrollmentIn(caller.value.userId, courseId, Completed))
             && old(s.HasCertificate(caller.value.userId, courseId)))
            ==> r.Ok? && r.value in old(s.certificates) && s.certificates == old(s.certificates)
    ensures (caller.Some? && old(s.HasEnrollmentIn(caller.value.userId, courseId, Completed))
             && !old(s.HasCertificate(caller.value.userId, courseId)))
            ==> (r.Ok? <==> id !in old(s.certificates) && FitsVarchar(number) && !old(s.NumberTaken(number)))
    ensures r.Ok? ==> (r.value in s.certificates && s.certificates[r.value].userId == caller.value.userId
                       && s.certificates[r.value].courseId == courseId)
    ensures r.Ok? && !old(s.HasCertificate(caller.value.userId, courseId)) ==>
              (r.value == id
               && s.certificates == old(s.certificates)[id :=
                    Certificate(caller.value.userId, s.certificates[id].enrollmentId, courseId, number, now, None)])
  {
    if caller.None? {
      return Err(Unauthorized);
    }
    var user := caller.value.userId;
    var enrollment := s.FindEnrollmentIn(user, courseId, Completed);
    if enrollment.None? {
      return Err(NotCompleted);
    }
    var existing := s.FindCertificate(user, courseId);
    if existing.Some? {
      return Ok(existing.value);
    }
    var certificate := Certificate(user, enrollment.value, courseId, number, now, None);
    var inserted := s.InsertCertificate(id, certificate);
    if !inserted {
      return Err(Failed);
    }
    r := Ok(id);
  }

  /** A second `generateCertificate` for the same course, whatever number it draws, hands
      back the certificate the first one returned and issues nothing. */
  method GenerateTwice(s: Store, caller: Option<Session>, courseId: Id, number1: string, number2: string,
                       now1: Time, now2: Time, id1: Id, id2: Id)
    returns (first: Result<Id>, second: Result<Id>)
    requires s.Valid()
    modifies s`certificates
    ensures s.Valid()
    ensures first.Ok? ==> second == first
    ensures first.Ok? ==> (first.value in s.certificates
                           && s.certificates == old(s.certificates)[first.value := s.certificates[first.value]])
  {
    first := GenerateCertificate(s, caller, courseId, number1, now1, id1);
    ghost var afterFirst := s.certificates;
    if first.Ok? {
      assert s.HasCertificate(caller.value.userId, courseId) by {
        assert s.certificates[first.value].userId == caller.value.userId;
      }
    }
    second := GenerateCertificate(s, caller, courseId, number2, now2, id2);
    if first.Ok? {
      assert s.certificates == afterFirst;
      assert second.value in s.certificates && s.certificates[second.value].userId == caller.value.userId;
    }
  }

  /** `verifyCertificate`: an unknown number is reported invalid; a known one reveals only
      the holder's name, the course title and the issue date. A holder whose user row is
      gone makes the lookup throw. */
  method VerifyCertificate(s: Store, number: string) returns (r: Result<Option<CertificateView>>)
    requires s.Valid()
    ensures r == Ok(None) <==> !s.NumberTaken(number)
    ensures forall c :: c in s.certificates && s.certificates[c].certificateNumber == number ==>
              var holder := s.certificates[c].userId;
              && (holder in s.users ==>
                    && s.certificates[c].courseId in s.courses
                    && r == Ok(Some(CertificateView(s.users[holder].name,
                                                    s.courses[s.certificates[c].courseId].title,
                                                    s.certificates[c].issuedAt))))
              && (holder !in s.users ==> r == Err(Failed))
  {
    var found := s.FindCertificateByNumber(number);
    if found.None? {
      return Ok(None);
    }
    var certificate := s.certificates[found.value];
    assert s.enrollments[certificate.enrollmentId].courseId == certificate.courseId;
    if certificate.userId !in s.users {
      return Err(Failed);
    }
    var view := CertificateView(s.users[certificate.userId].name, s.courses[certificate.courseId].title,
                                certificate.issuedAt);
    r := Ok(Some(view));
  }

  /** Every listed certificate is stored, and later-issued ones come first (`ORDER BY
      issuedAt DESC`). */
  predicate NewestFirst(certificates: map<Id, Certificate>, xs: seq<Id>) {
    && (forall i :: 0 <= i < |xs| ==> xs[i] in certificates)
    && (forall i, j :: 0 <= i < j < |xs| ==> certificates[xs[i]].issuedAt >= certificates[xs[j]].issuedAt)
  }

  /** Places certificate `c` in a newest-first list. */
  function InsertNewest(certificates: map<Id, Certificate>, xs: seq<Id>, c: Id): (r: seq<Id>)
    requires c in certificates && NewestFirst(certificates, xs)
    ensures multiset(r) == multiset(xs) + multiset{c}
    ensures NewestFirst(certificates, r)
  {
    if xs == [] then [c]
    else if certificates[c].issuedAt >= certificates[xs[0]].issuedAt then [c] + xs
    else
      var rest := InsertNewest(certificates, xs[1..], c);
      assert xs == [xs[0]] + xs[1..];
      HeadStaysNewest(certificates, xs[0], xs[1..], rest, c);
      [xs[0]] + rest
  }

  /** A list's newest head stays newest when an older certificate joins the rest. */
  lemma HeadStaysNewest(certificates: map<Id, Certificate>, x: Id, tail: seq<Id>, rest: seq<Id>, c: Id)
    requires c in certificates && x in certificates
    requires NewestFirst(certificates, [x] + tail) && NewestFirst(certificates, rest)
    requires multiset(rest) == multiset(tail) + multiset{c}
    requires certificates[c].issuedAt < certificates[x].issuedAt
    ensures NewestFirst(certificates, [x] + rest)
  {
    var xs := [x] + tail;
    assert xs[0] == x;
    forall k | 0 <= k < |rest|
      ensures certificates[x].issuedAt >= certificates[rest[k]].issuedAt
    {
      assert rest[k] in multiset(rest);
      if rest[k] != c {
        assert rest[k] in multiset(tail);
        var j :| 0 <= j < |tail| && tail[j] == rest[k];
        assert xs[j + 1] == tail[j];
      }
    }
    var ys := [x] + rest;
    forall i, j | 0 <= i < j < |ys|
      ensures certificates[ys[i]].issuedAt >= certificates[ys[j]].issuedAt
    {
      if i > 0 {
        assert ys[i] == rest[i - 1] && ys[j] == rest[j - 1];
      } else {
        assert ys[j] == rest[j - 1];
      }
    }
  }

  /** Orders a set of stored certificates newest first, inserting one at a time. */
  method ListNewestFirst(certificates: map<Id, Certificate>, ids: set<Id>) returns (listed: seq<Id>)
    requires ids <= certificates.Keys
    ensures multiset(listed) == multiset(ids)
    ensures NewestFirst(certificates, listed)
  {
    var remaining := ids;
    ghost var done: set<Id> := {};
    listed := [];
    while remaining != {}
      invariant remaining <= ids && done == ids - remaining
      invariant multiset(listed) == multiset(done)
      invariant NewestFirst(certificates, listed)
      decreases |remaining|
    {
      var c :| c in remaining;
      listed := InsertNewest(certificates, listed, c);
      remaining := remaining - {c};
      done := done + {c};
    }
    assert done == ids;
  }

  /** `getUserCertificates`: the caller's certificates, each once, newest first. */
  method GetUserCertificates(s: Store, caller: Option<Session>) returns (r: Result<seq<Id>>)
    ensures caller.None? <==> r == Err(Unauthorized)
    ensures r.Ok? ==> multiset(r.value) == multiset(CertificatesOf(s, caller.value.userId))
    ensures r.Ok? ==> NewestFirst(s.certificates, r.value)
  {
    if caller.None? {
      return Err(Unauthorized);
    }
    var mine := set c | c in s.certificates && s.certificates[c].userId == caller.value.userId;
    var listed := ListNewestFirst(s.certificates, mine);
    r := Ok(listed);
  }
}
