/**
 * The course endpoints (backend/.../course/CourseController.java): listing, lookup, and the
 * instructor-or-admin mutations create, update and delete over the course repository.
 */
module CourseController {
  import opened Wrappers
  import opened Dtos
  import opened Http
  import opened Persistence

  /** A create or update request. */
  datatype CourseRequest = CourseRequest(title: string, description: string, price: Price)

  /** The role guard on every mutation: instructors and administrators. */
  predicate MayManageCourses(role: Role) {
    role == Instructor || role == Admin
  }

  /** A course as reported: its own fields plus the instructor's id and names. */
  function ToDto(c: CourseEntity): (d: CourseDto)
    ensures d.id == c.id && d.title == c.title && d.description == c.description && d.price == c.price
    ensures d.instructorId == c.instructor.id
    ensures d.instructor == InstructorName(c.instructor.firstName, c.instructor.lastName)
    ensures d.createdAt == c.createdAt.iso
  {
    CourseDto(c.id, c.title, c.description, c.price, c.instructor.id,
              InstructorName(c.instructor.firstName, c.instructor.lastName), c.createdAt.iso)
  }

  /** `order` is the repository's iteration order: every stored id exactly once. */
  predicate Enumerates(order: seq<nat>, ids: set<nat>) {
    && (forall i :: 0 <= i < |order| ==> order[i] in ids)
    && (forall id :: id in ids ==> id in order)
    && (forall i, j :: 0 <= i < j < |order| ==> order[i] != order[j])
  }

  function MapToDto(courses: map<nat, CourseEntity>, order: seq<nat>): (dtos: seq<CourseDto>)
    requires forall i :: 0 <= i < |order| ==> order[i] in courses
    ensures |dtos| == |order|
    ensures forall i :: 0 <= i < |order| ==> dtos[i] == ToDto(courses[order[i]])
  {
    seq(|order|, i requires 0 <= i < |order| => ToDto(courses[order[i]]))
  }

  /** The listing: 200 with one DTO per stored course, in repository order. */
  function GetAll(db: Db, order: seq<nat>): (r: Response<seq<CourseDto>>)
    requires Enumerates(order, db.courses.Keys)
    ensures r.status == Ok && r.body.Some? && r.body.value.success && r.body.value.data.Some?
    ensures var dtos := r.body.value.data.value;
      && |dtos| == |order|
      && (forall i :: 0 <= i < |dtos| ==> dtos[i] == ToDto(db.courses[order[i]]))
      && (forall id :: id in db.courses ==> exists i :: 0 <= i < |dtos| && order[i] == id && dtos[i] == ToDto(db.courses[id]))
  {
    var dtos := MapToDto(db.courses, order);
    assert forall id :: id in db.courses ==> exists i :: 0 <= i < |dtos| && order[i] == id && dtos[i] == ToDto(db.courses[id]) by {
      forall id | id in db.courses
        ensures exists i :: 0 <= i < |dtos| && order[i] == id && dtos[i] == ToDto(db.courses[id])
      {
        var i :| 0 <= i < |order| && order[i] == id;
        assert dtos[i] == ToDto(db.courses[id]);
      }
    }
    Response(Ok, Some(OkData(dtos)))
  }

  /** Lookup: 200 with the course's DTO, or 404 with no body. */
  function GetOne(db: Db, id: nat): (r: Response<CourseDto>)
    ensures id in db.courses ==> r == Response(Ok, Some(OkData(ToDto(db.courses[id]))))
    ensures id !in db.courses ==> r == Response(NotFound, None)
  {
    if id in db.courses then Response(Ok, Some(OkData(ToDto(db.courses[id])))) else Response(NotFound, None)
  }

  /**
   * Create: a course with the request's title, description and price, taught by the calling user,
   * under the next course id. A caller with no stored user throws.
   */
  function Create(db: Db, caller: Principal, req: CourseRequest, now: Instant): (r: Effect<CourseDto>)
    requires MayManageCourses(caller.role)
    ensures caller.username !in db.users ==> r == Effect(db, Threw(NoSuchElement))
    ensures caller.username in db.users ==>
              r.db.courses.Keys == db.courses.Keys + {db.nextCourseId}
    ensures caller.username in db.users ==>
              r.db == db.(courses := r.db.courses, nextCourseId := db.nextCourseId + 1)
    ensures caller.username in db.users ==>
              var c := r.db.courses[db.nextCourseId];
              && (forall id :: id in db.courses && id != db.nextCourseId ==> r.db.courses[id] == db.courses[id])
              && c.title == req.title && c.description == req.description && c.price == req.price
              && c.instructor == db.users[caller.username]
              && r.outcome == Returned(Response(Ok, Some(OkData(ToDto(c)))))
    ensures r.db.users == db.users && r.db.enrollments == db.enrollments
    ensures WellFormed(db) ==> WellFormed(r.db)
  {
    if caller.username !in db.users then
      Effect(db, Threw(NoSuchElement))
    else
      var c := CourseEntity(db.nextCourseId, req.title, req.description, req.price, db.users[caller.username], now);
      var db' := db.(courses := db.courses[c.id := c], nextCourseId := db.nextCourseId + 1);
      Effect(db', Returned(Response(Ok, Some(OkData(ToDto(c))))))
  }

  /**
   * Update: an existing course gets the request's title, description and price; its id, instructor
   * and creation time stay. A missing id is 404 with nothing changed.
   */
  function Update(db: Db, caller: Principal, id: nat, req: CourseRequest): (r: Effect<CourseDto>)
    requires MayManageCourses(caller.role)
    ensures id !in db.courses ==> r == Effect(db, Returned(Response(NotFound, None)))
    ensures id in db.courses ==> r.db.courses.Keys == db.courses.Keys
    ensures id in db.courses ==> r.db == db.(courses := r.db.courses)
    ensures id in db.courses ==>
              var before := db.courses[id];
              var c := r.db.courses[id];
              && (forall other :: other in db.courses && other != id ==> r.db.courses[other] == db.courses[other])
              && c.title == req.title && c.description == req.description && c.price == req.price
              && c.id == before.id && c.instructor == before.instructor && c.createdAt == before.createdAt
              && r.outcome == Returned(Response(Ok, Some(OkData(ToDto(c)))))
    ensures r.db.users == db.users && r.db.enrollments == db.enrollments
    ensures WellFormed(db) ==> WellFormed(r.db)
  {
    if id !in db.courses then
      Effect(db, Returned(Response(NotFound, None)))
    else
      var c := db.courses[id].(title := req.title, description := req.description, price := req.price);
      Effect(db.(courses := db.courses[id := c]), Returned(Response(Ok, Some(OkData(ToDto(c))))))
  }

  /** Delete: an existing id is removed with 204; a missing id is 404 with nothing changed. */
  function Delete(db: Db, caller: Principal, id: nat): (r: Effect<()>)
    requires MayManageCourses(caller.role)
    ensures id in db.courses ==>
              r.db == db.(courses := db.courses - {id}) && r.outcome == Returned(Response(NoContent, None))
    ensures id !in db.courses ==> r == Effect(db, Returned(Response(NotFound, None)))
    ensures id !in r.db.courses
    ensures WellFormed(db) ==> WellFormed(r.db)
  {
    if id in db.courses then
      Effect(db.(courses := db.courses - {id}), Returned(Response(NoContent, None)))
    else
      Effect(db, Returned(Response(NotFound, None)))
  }

  /** What create reports is what a later lookup of the new id returns. */
  lemma CreateThenGetOne(db: Db, caller: Principal, req: CourseRequest, now: Instant)
    requires MayManageCourses(caller.role) && caller.username in db.users
    ensures var r := Create(db, caller, req, now);
      GetOne(r.db, db.nextCourseId) == r.outcome.response
  {
  }

  /** After a delete the id is not found, and deleting it again is 404. */
  lemma DeleteThenLookup(db: Db, caller: Principal, id: nat)
    requires MayManageCourses(caller.role) && id in db.courses
    ensures var db' := Delete(db, caller, id).db;
      GetOne(db', id) == Response(NotFound, None) &&
      Delete(db', caller, id) == Effect(db', Returned(Response(NotFound, None)))
  {
  }

  /** No ownership check: any instructor may update or delete a course taught by someone else. */
  lemma AnyInstructorMayUpdate(db: Db, caller: Principal, id: nat, req: CourseRequest)
    requires caller.role == Instructor && id in db.courses
    requires db.courses[id].instructor.email != caller.username
    ensures Update(db, caller, id, req).outcome.response.status == Ok
    ensures Update(db, caller, id, req).db.courses[id].title == req.title
    ensures Delete(db, caller, id).outcome.response.status == NoContent
  {
  }
}
