/** The shapes exchanged between the client and the backend: roles, users and courses as sent over the wire. */
module Dtos {

  /** The closed set of account roles. */
  datatype Role = Student | Instructor | Admin

  /** The role as the wire format spells it. */
  function RoleName(r: Role): string {
    match r
    case Student => "STUDENT"
    case Instructor => "INSTRUCTOR"
    case Admin => "ADMIN"
  }

  /** A user as the backend reports it and the client keeps it in its session. */
  datatype UserDto = UserDto(id: int, email: string, firstName: string, lastName: string, role: Role, createdAt: string)

  /** A course price; the source carries a floating-point number, the model only passes it along. */
  datatype Price = Price(amount: real)

  datatype InstructorName = InstructorName(firstName: string, lastName: string)

  /** A course as the backend reports it. */
  datatype CourseDto = CourseDto(
    id: int,
    title: string,
    description: string,
    price: Price,
    instructorId: int,
    instructor: InstructorName,
    createdAt: string)

  /** The payload of a successful login: a bearer token and the logged-in user. */
  datatype LoginResponse = LoginResponse(token: string, user: UserDto)
}
