/**
 * The backend's stored entities and repositories. Repositories are maps: users keyed by email,
 * courses and enrollments by id. Ids come from per-table identity counters.
 */
module Persistence {
  import opened Wrappers
  import opened Dtos
  import Http

  /** A point in time, carried as its ISO-8601 rendering. */
  datatype Instant = Instant(iso: string)

  datatype UserEntity = UserEntity(
    id: nat,
    email: string,
    password: string,
    firstName: string,
    lastName: string,
    role: Role,
    createdAt: Instant)

  datatype CourseEntity = CourseEntity(
    id: nat,
    title: string,
    description: string,
    price: Price,
    instructor: UserEntity,
    createdAt: Instant)

  datatype EnrollmentEntity = EnrollmentEntity(id: nat, userId: nat, courseId: nat, createdAt: Instant)

  /** The database: the three repositories and the next identity value of each table. */
  datatype Db = Db(
    users: map<string, UserEntity>,
    courses: map<nat, CourseEntity>,
    enrollments: map<nat, EnrollmentEntity>,
    nextUserId: nat,
    nextCourseId: nat,
    nextEnrollmentId: nat)

  /** The database after a controller call, and what the call produced. */
  datatype Effect<T> = Effect(db: Db, outcome: Http.Outcome<T>)

  /**
   * Every entity is stored under its own key, ids are below their table's counter, and no two users
   * share an id.
   */
  predicate WellFormed(db: Db) {
    && (forall e :: e in db.users ==> db.users[e].email == e && db.users[e].id < db.nextUserId)
    && (forall e1, e2 :: e1 in db.users && e2 in db.users && e1 != e2 ==> db.users[e1].id != db.users[e2].id)
    && (forall id :: id in db.courses ==> db.courses[id].id == id && id < db.nextCourseId)
    && (forall id :: id in db.enrollments ==> db.enrollments[id].id == id && id < db.nextEnrollmentId)
  }

  const EmptyDb := Db(map[], map[], map[], 1, 1, 1)

  lemma EmptyDbWellFormed()
    ensures WellFormed(EmptyDb)
  {
  }

  predicate UserIdExists(db: Db, id: nat) {
    exists e :: e in db.users && db.users[e].id == id
  }

  /** Some stored enrollment pairs this user with this course. */
  predicate IsEnrolled(enrollments: map<nat, EnrollmentEntity>, userId: nat, courseId: nat) {
    exists id :: id in enrollments && enrollments[id].userId == userId && enrollments[id].courseId == courseId
  }

  /** The table's unique constraint: no (user, course) pair is stored twice. */
  predicate UniqueEnrollments(enrollments: map<nat, EnrollmentEntity>) {
    forall a, b :: a in enrollments && b in enrollments && a != b ==>
      enrollments[a].userId != enrollments[b].userId || enrollments[a].courseId != enrollments[b].courseId
  }
}
