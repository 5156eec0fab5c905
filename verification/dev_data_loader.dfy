/**
 * The development seeder (backend/.../dev/DevDataLoader.java): on an empty user table it stores a
 * demo instructor, a demo student and two courses taught by the instructor; otherwise nothing.
 */
module DevDataLoader {
  import opened Dtos
  import opened Persistence

  const InstructorEmail := "instructor@example.com"
  const StudentEmail := "student@example.com"
  const DemoPassword := "password"

  /** The seeded instructor, saved first and so given the next user id. */
  function DemoInstructor(db: Db, encode: string -> string, now: Instant): UserEntity {
    UserEntity(db.nextUserId, InstructorEmail, encode(DemoPassword), "Jane", "Doe", Instructor, now)
  }

  function DemoStudent(db: Db, encode: string -> string, now: Instant): UserEntity {
    UserEntity(db.nextUserId + 1, StudentEmail, encode(DemoPassword), "John", "Smith", Student, now)
  }

  /**
   * The seeding itself, on an empty user table: exactly the two demo users, with distinct e-mails
   * and the roles instructor and student, and two more courses under fresh ids, both taught by the
   * seeded instructor; existing courses and enrollments stay as they were.
   */
  function SeedEmpty(db: Db, encode: string -> string, now: Instant): (db': Db)
    requires |db.users| == 0
    ensures db'.users.Keys == {InstructorEmail, StudentEmail} && InstructorEmail != StudentEmail
    ensures db'.users[InstructorEmail] == DemoInstructor(db, encode, now)
    ensures db'.users[StudentEmail] == DemoStudent(db, encode, now)
    ensures db'.users[InstructorEmail].role == Instructor && db'.users[StudentEmail].role == Student
    ensures db'.courses.Keys == db.courses.Keys + {db.nextCourseId, db.nextCourseId + 1}
    ensures db'.courses[db.nextCourseId].instructor == db'.users[InstructorEmail]
    ensures db'.courses[db.nextCourseId + 1].instructor == db'.users[InstructorEmail]
    ensures forall id :: id in db.courses && id != db.nextCourseId && id != db.nextCourseId + 1 ==>
                           db'.courses[id] == db.courses[id]
    ensures db' == db.(users := db'.users, courses := db'.courses,
                       nextUserId := db.nextUserId + 2, nextCourseId := db.nextCourseId + 2)
  {
    NoUserKeys(db);
    var users := DemoUsers(db, encode, now);
    db.(users := users, courses := DemoCourses(db, users[InstructorEmail], now),
        nextUserId := db.nextUserId + 2, nextCourseId := db.nextCourseId + 2)
  }

  /** The seeded user table: the instructor and the student under their two distinct e-mails. */
  function DemoUsers(db: Db, encode: string -> string, now: Instant): (u: map<string, UserEntity>)
    ensures u.Keys == {InstructorEmail, StudentEmail} && InstructorEmail != StudentEmail
    ensures u[InstructorEmail] == DemoInstructor(db, encode, now)
    ensures u[StudentEmail] == DemoStudent(db, encode, now)
  {
    assert InstructorEmail[0] != StudentEmail[0];
    map[InstructorEmail := DemoInstructor(db, encode, now), StudentEmail := DemoStudent(db, encode, now)]
  }

  /** The course table after seeding: the two demo courses under the next two ids, taught by `teacher`. */
  function DemoCourses(db: Db, teacher: UserEntity, now: Instant): (cs: map<nat, CourseEntity>)
    ensures cs.Keys == db.courses.Keys + {db.nextCourseId, db.nextCourseId + 1}
    ensures cs[db.nextCourseId].instructor == teacher && cs[db.nextCourseId + 1].instructor == teacher
    ensures forall id :: id in db.courses && id != db.nextCourseId && id != db.nextCourseId + 1 ==>
                           cs[id] == db.courses[id]
  {
    var c1 := CourseEntity(db.nextCourseId, "Spring Boot Fundamentals",
                           "Learn Spring Boot by building RESTful APIs.", Price(49.99), teacher, now);
    var c2 := CourseEntity(db.nextCourseId + 1, "React with TypeScript",
                           "Master React and TS with hands-on projects.", Price(59.99), teacher, now);
    db.courses[c1.id := c1][c2.id := c2]
  }

  /** A user table of size zero has no keys. */
  lemma NoUserKeys(db: Db)
    requires |db.users| == 0
    ensures db.users == map[]
  {
  }

  lemma SeedEmptyWellFormed(db: Db, encode: string -> string, now: Instant)
    requires WellFormed(db) && |db.users| == 0
    ensures WellFormed(SeedEmpty(db, encode, now))
  {
    var db' := SeedEmpty(db, encode, now);
    forall id | id in db'.courses
      ensures db'.courses[id].id == id && id < db'.nextCourseId
    {
      if id != db.nextCourseId && id != db.nextCourseId + 1 {
        assert id in db.courses;
      }
    }
  }

  /** The seeder: it seeds only when no user is stored, and otherwise changes nothing. */
  function Seed(db: Db, encode: string -> string, now: Instant): (db': Db)
    ensures |db.users| != 0 ==> db' == db
    ensures |db.users| == 0 ==> db' == SeedEmpty(db, encode, now)
    ensures WellFormed(db) ==> WellFormed(db')
  {
    if |db.users| == 0 then
      if WellFormed(db) then
        SeedEmptyWellFormed(db, encode, now);
        SeedEmpty(db, encode, now)
      else
        SeedEmpty(db, encode, now)
    else
      db
  }

  /** Two fresh, distinct elements add two to a set's size. */
  lemma AddTwoFresh(a: set<nat>, x: nat, y: nat)
    requires x !in a && y !in a && x != y
    ensures |a + {x, y}| == |a| + 2
  {
    assert a + {x, y} == (a + {x}) + {y};
  }

  /** On a well-formed empty-user database the seeder stores exactly two users and two more courses. */
  lemma SeedCounts(db: Db, encode: string -> string, now: Instant)
    requires WellFormed(db) && |db.users| == 0
    ensures |Seed(db, encode, now).users| == 2
    ensures |Seed(db, encode, now).courses| == |db.courses| + 2
  {
    var db' := SeedEmpty(db, encode, now);
    assert |db'.users.Keys| == 2;
    assert db.nextCourseId !in db.courses && db.nextCourseId + 1 !in db.courses;
    AddTwoFresh(db.courses.Keys, db.nextCourseId, db.nextCourseId + 1);
    assert |db'.courses.Keys| == |db.courses.Keys| + 2;
  }

  /** Running the seeder again, at any later time, changes nothing. */
  lemma SeedIdempotent(db: Db, encode: string -> string, now: Instant, later: Instant)
    ensures Seed(Seed(db, encode, now), encode, later) == Seed(db, encode, now)
  {
    if |db.users| == 0 {
      assert InstructorEmail in Seed(db, encode, now).users;
    }
  }
}
