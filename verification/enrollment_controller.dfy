/**
 * The enrollment endpoints (backend/.../enrollment/EnrollmentController.java): enrolling the caller
 * in a course at most once, and listing a user's enrollments.
 */
module EnrollmentController {
  import opened Wrappers
  import opened Dtos
  import opened Http
  import opened Persistence

  const AlreadyEnrolled := "Already enrolled"
  const Enrolled := "Enrolled"

  /** The role guard on enrolling: students and administrators, not instructors. */
  predicate MayEnroll(role: Role) {
    role == Student || role == Admin
  }

  lemma InstructorsMayNotEnroll()
    ensures !MayEnroll(Instructor) && MayEnroll(Student) && MayEnroll(Admin)
  {
  }

  /**
   * Enroll the caller in a course. An unknown caller or course throws; an existing (user, course)
   * pair is refused with 400; otherwise exactly that pair is stored under the next enrollment id.
   */
  function Enroll(db: Db, caller: Principal, courseId: nat, now: Instant): (r: Effect<()>)
    requires MayEnroll(caller.role)
    ensures caller.username !in db.users || courseId !in db.courses ==> r == Effect(db, Threw(NoSuchElement))
    ensures caller.username in db.users && courseId in db.courses ==>
              var userId := db.users[caller.username].id;
              var course := db.courses[courseId].id;
              && (IsEnrolled(db.enrollments, userId, course) ==>
                    r == Effect(db, Returned(Response(BadRequest, Some(ErrorEnvelope(AlreadyEnrolled))))))
              && (!IsEnrolled(db.enrollments, userId, course) ==>
                    && r.outcome == Returned(Response(Ok, Some(OkMessage(Enrolled, None))))
                    && r.db == db.(enrollments := db.enrollments[db.nextEnrollmentId := EnrollmentEntity(db.nextEnrollmentId, userId, course, now)],
                                   nextEnrollmentId := db.nextEnrollmentId + 1))
    ensures UniqueEnrollments(db.enrollments) ==> UniqueEnrollments(r.db.enrollments)
    ensures WellFormed(db) ==> WellFormed(r.db)
  {
    if caller.username !in db.users || courseId !in db.courses then
      Effect(db, Threw(NoSuchElement))
    else
      var user := db.users[caller.username];
      var course := db.courses[courseId];
      if IsEnrolled(db.enrollments, user.id, course.id) then
        Effect(db, Returned(Response(BadRequest, Some(ErrorEnvelope(AlreadyEnrolled)))))
      else
        var e := EnrollmentEntity(db.nextEnrollmentId, user.id, course.id, now);
        var enrollments' := db.enrollments[e.id := e];
        assert UniqueEnrollments(db.enrollments) ==> UniqueEnrollments(enrollments') by {
          if UniqueEnrollments(db.enrollments) {
            forall a, b | a in enrollments' && b in enrollments' && a != b
              ensures enrollments'[a].userId != enrollments'[b].userId || enrollments'[a].courseId != enrollments'[b].courseId
            {
              if a == e.id || b == e.id {
                var other := if a == e.id then b else a;
                assert !(enrollments'[other].userId == user.id && enrollments'[other].courseId == course.id);
              }
            }
          }
        }
        Effect(db.(enrollments := enrollments', nextEnrollmentId := db.nextEnrollmentId + 1),
               Returned(Response(Ok, Some(OkMessage(Enrolled, None)))))
  }

  /** On a well-formed database a successful enrollment stores exactly one more enrollment. */
  lemma EnrollAddsOne(db: Db, caller: Principal, courseId: nat, now: Instant)
    requires MayEnroll(caller.role) && WellFormed(db)
    requires Enroll(db, caller, courseId, now).outcome == Returned(Response(Ok, Some(OkMessage(Enrolled, None))))
    ensures |Enroll(db, caller, courseId, now).db.enrollments| == |db.enrollments| + 1
  {
    assert db.nextEnrollmentId !in db.enrollments;
  }

  /** Enrolling twice in a row is refused the second time and changes nothing. */
  lemma EnrollTwiceRefused(db: Db, caller: Principal, courseId: nat, now: Instant, later: Instant)
    requires MayEnroll(caller.role) && caller.username in db.users && courseId in db.courses
    ensures var db' := Enroll(db, caller, courseId, now).db;
      Enroll(db', caller, courseId, later) == Effect(db', Returned(Response(BadRequest, Some(ErrorEnvelope(AlreadyEnrolled)))))
  {
    var db' := Enroll(db, caller, courseId, now).db;
    var userId := db.users[caller.username].id;
    var course := db.courses[courseId].id;
    if !IsEnrolled(db.enrollments, userId, course) {
      assert db'.enrollments[db.nextEnrollmentId].userId == userId;
      assert IsEnrolled(db'.enrollments, userId, course);
    }
  }

  /** One enroll call as received: the caller, the requested course and the time it arrives. */
  datatype EnrollCall = EnrollCall(caller: Principal, courseId: nat, at: Instant)

  function EnrollAll(db: Db, calls: seq<EnrollCall>): Db
    requires forall i :: 0 <= i < |calls| ==> MayEnroll(calls[i].caller.role)
    decreases |calls|
  {
    if |calls| == 0 then db
    else EnrollAll(Enroll(db, calls[0].caller, calls[0].courseId, calls[0].at).db, calls[1..])
  }

  /** Whatever sequence of enroll calls arrives, no (user, course) pair is ever stored twice. */
  lemma {:induction false} EnrollmentsStayUnique(db: Db, calls: seq<EnrollCall>)
    requires forall i :: 0 <= i < |calls| ==> MayEnroll(calls[i].caller.role)
    requires UniqueEnrollments(db.enrollments)
    ensures UniqueEnrollments(EnrollAll(db, calls).enrollments)
    decreases |calls|
  {
    if |calls| > 0 {
      EnrollmentsStayUnique(Enroll(db, calls[0].caller, calls[0].courseId, calls[0].at).db, calls[1..]);
    }
  }

  /** A user's enrollments: exactly the stored ones that belong to that user; an unknown user throws. */
  function GetUserEnrollments(db: Db, userId: nat): (o: Outcome<set<EnrollmentEntity>>)
    ensures !UserIdExists(db, userId) ==> o == Threw(NoSuchElement)
    ensures UserIdExists(db, userId) ==>
              o.Returned? && o.response.status == Ok && o.response.body.Some? && o.response.body.value.data.Some?
    ensures o.Returned? ==>
              forall e :: e in o.response.body.value.data.value <==> e in db.enrollments.Values && e.userId == userId
  {
    if !UserIdExists(db, userId) then Threw(NoSuchElement)
    else Returned(Response(Ok, Some(OkData(set e | e in db.enrollments.Values && e.userId == userId))))
  }

  /** A fresh enrollment is listed among the enrolled user's enrollments, and among no one else's. */
  lemma EnrollThenListed(db: Db, caller: Principal, courseId: nat, now: Instant, other: nat)
    requires MayEnroll(caller.role) && caller.username in db.users && courseId in db.courses
    requires !IsEnrolled(db.enrollments, db.users[caller.username].id, db.courses[courseId].id)
    ensures var db' := Enroll(db, caller, courseId, now).db;
      var userId := db.users[caller.username].id;
      var e := EnrollmentEntity(db.nextEnrollmentId, userId, db.courses[courseId].id, now);
      && GetUserEnrollments(db', userId).Returned?
      && e in GetUserEnrollments(db', userId).response.body.value.data.value
      && (other != userId && GetUserEnrollments(db', other).Returned? ==>
            e !in GetUserEnrollments(db', other).response.body.value.data.value)
  {
    var db' := Enroll(db, caller, courseId, now).db;
    var userId := db.users[caller.username].id;
    assert db'.users == db.users;
    assert UserIdExists(db', userId);
    assert db'.enrollments[db.nextEnrollmentId] == EnrollmentEntity(db.nextEnrollmentId, userId, db.courses[courseId].id, now);
  }
}
