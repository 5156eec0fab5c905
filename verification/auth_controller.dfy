/**
 * The authentication endpoints (backend/.../auth/AuthController.java): signup and login over the
 * user repository. Password hashing, credential checking, token generation and the e-mail format
 * check are supplied functions; the not-blank checks that run before either endpoint are modelled.
 */
module AuthController {
  import opened Wrappers
  import opened Dtos
  import opened Http
  import opened Persistence
  import GlobalExceptionHandler

  const EmailInUse := "Email already in use"
  const SignupSuccessful := "Signup successful"
  const LoginSuccessful := "Login successful"

  datatype LoginRequest = LoginRequest(email: string, password: string)

  /** A signup request; the role is optional. */
  datatype SignupRequest = SignupRequest(email: string, password: string, firstName: string, lastName: string, role: Option<Role>)

  /** Not blank: something is left after trimming the characters at or below the space character. */
  predicate NotBlank(s: string) {
    exists i :: 0 <= i < |s| && s[i] as int > 32
  }

  predicate ValidLogin(req: LoginRequest, isEmail: string -> bool) {
    isEmail(req.email) && NotBlank(req.email) && NotBlank(req.password)
  }

  predicate ValidSignup(req: SignupRequest, isEmail: string -> bool) {
    && isEmail(req.email) && NotBlank(req.email) && NotBlank(req.password)
    && NotBlank(req.firstName) && NotBlank(req.lastName)
  }

  /** The role a new account gets: the requested one, or student when none was requested. */
  function SignupRole(requested: Option<Role>): (r: Role)
    ensures requested.None? ==> r == Student
    ensures requested.Some? ==> r == requested.value
  {
    if requested.None? then Student else requested.value
  }

  /** A user as reported to clients: identity, names, role and creation time; never the password. */
  function ToUserDto(u: UserEntity): (d: UserDto)
    ensures d.id == u.id && d.email == u.email && d.role == u.role
    ensures d.firstName == u.firstName && d.lastName == u.lastName
    ensures d.createdAt == u.createdAt.iso
  {
    UserDto(u.id, u.email, u.firstName, u.lastName, u.role, u.createdAt.iso)
  }

  /**
   * Signup: an e-mail already in use is refused with 400 and nothing stored; otherwise exactly one
   * user is added under that e-mail, with the encoded password and the defaulted role.
   */
  function Signup(db: Db, req: SignupRequest, isEmail: string -> bool, encode: string -> string, now: Instant): (r: Effect<()>)
    ensures !ValidSignup(req, isEmail) ==> r == Effect(db, Threw(ArgumentNotValid))
    ensures ValidSignup(req, isEmail) && req.email in db.users ==>
              r == Effect(db, Returned(Response(BadRequest, Some(ErrorEnvelope(EmailInUse)))))
    ensures ValidSignup(req, isEmail) && req.email !in db.users ==>
              && r.outcome == Returned(Response(Ok, Some(OkMessage(SignupSuccessful, None))))
              && r.db.users.Keys == db.users.Keys + {req.email}
              && (forall e :: e in db.users ==> r.db.users[e] == db.users[e])
              && r.db == db.(users := r.db.users, nextUserId := db.nextUserId + 1)
    ensures ValidSignup(req, isEmail) && req.email !in db.users ==>
              var u := r.db.users[req.email];
              && u.email == req.email && u.password == encode(req.password)
              && u.firstName == req.firstName && u.lastName == req.lastName
              && u.role == SignupRole(req.role) && u.createdAt == now
    ensures WellFormed(db) ==> WellFormed(r.db)
  {
    if !ValidSignup(req, isEmail) then
      Effect(db, Threw(ArgumentNotValid))
    else if req.email in db.users then
      Effect(db, Returned(Response(BadRequest, Some(ErrorEnvelope(EmailInUse)))))
    else
      var user := UserEntity(db.nextUserId, req.email, encode(req.password), req.firstName, req.lastName, SignupRole(req.role), now);
      var db' := db.(users := db.users[req.email := user], nextUserId := db.nextUserId + 1);
      Effect(db', Returned(Response(Ok, Some(OkMessage(SignupSuccessful, None)))))
  }

  /** A successful signup stores exactly one more user. */
  lemma SignupAddsOneUser(db: Db, req: SignupRequest, isEmail: string -> bool, encode: string -> string, now: Instant)
    requires ValidSignup(req, isEmail) && req.email !in db.users
    ensures |Signup(db, req, isEmail, encode, now).db.users| == |db.users| + 1
  {
    var users' := Signup(db, req, isEmail, encode, now).db.users;
    assert users'.Keys == db.users.Keys + {req.email};
  }

  /**
   * Login: credentials are checked first and a failure throws before any token exists; then the
   * token for the request e-mail is paired with that e-mail's user.
   */
  function Login(db: Db, req: LoginRequest, isEmail: string -> bool, authenticate: (string, string) -> bool,
                 generateToken: string -> string): (o: Outcome<LoginResponse>)
    ensures !ValidLogin(req, isEmail) ==> o == Threw(ArgumentNotValid)
    ensures ValidLogin(req, isEmail) && !authenticate(req.email, req.password) ==> o == Threw(BadCredentials)
    ensures o.Returned? ==>
              && ValidLogin(req, isEmail) && authenticate(req.email, req.password) && req.email in db.users
              && o.response == Response(Ok, Some(OkMessage(LoginSuccessful, Some(LoginResponse(generateToken(req.email), ToUserDto(db.users[req.email]))))))
    ensures ValidLogin(req, isEmail) && authenticate(req.email, req.password) && req.email !in db.users ==>
              o == Threw(NoSuchElement)
    ensures ValidLogin(req, isEmail) && authenticate(req.email, req.password) && req.email in db.users ==>
              o.Returned?
  {
    if !ValidLogin(req, isEmail) then Threw(ArgumentNotValid)
    else if !authenticate(req.email, req.password) then Threw(BadCredentials)
    else
      var token := generateToken(req.email);
      if req.email !in db.users then Threw(NoSuchElement)
      else
        var resp := LoginResponse(token, ToUserDto(db.users[req.email]));
        Returned(Response(Ok, Some(OkMessage(LoginSuccessful, Some(resp)))))
  }

  /** Rejected credentials reach the caller as 401 "Invalid credentials". */
  lemma RejectedLoginIsUnauthorized(db: Db, req: LoginRequest, isEmail: string -> bool,
                                    authenticate: (string, string) -> bool, generateToken: string -> string)
    requires ValidLogin(req, isEmail) && !authenticate(req.email, req.password)
    ensures var r := GlobalExceptionHandler.Dispatch(Login(db, req, isEmail, authenticate, generateToken));
      r.status == Unauthorized && r.body.Some? && r.body.value.message == Some(GlobalExceptionHandler.InvalidCredentials)
  {
  }

  /** On a well-formed database a successful login reports the user whose e-mail was submitted. */
  lemma LoginReportsRequestedUser(db: Db, req: LoginRequest, isEmail: string -> bool,
                                  authenticate: (string, string) -> bool, generateToken: string -> string)
    requires WellFormed(db)
    requires Login(db, req, isEmail, authenticate, generateToken).Returned?
    ensures var body := Login(db, req, isEmail, authenticate, generateToken).response.body.value;
      body.data.Some? && body.data.value.user.email == req.email && body.data.value.token == generateToken(req.email)
  {
  }

  /** A user who just signed up, once their credentials are accepted, logs in as that new user. */
  lemma SignupThenLogin(db: Db, req: SignupRequest, isEmail: string -> bool, encode: string -> string, now: Instant,
                        authenticate: (string, string) -> bool, generateToken: string -> string)
    requires ValidSignup(req, isEmail) && req.email !in db.users
    requires authenticate(req.email, req.password)
    ensures var db' := Signup(db, req, isEmail, encode, now).db;
      var o := Login(db', LoginRequest(req.email, req.password), isEmail, authenticate, generateToken);
      o.Returned? && o.response.status == Ok &&
      o.response.body.value.data.value.user == UserDto(db.nextUserId, req.email, req.firstName, req.lastName, SignupRole(req.role), now.iso)
  {
  }
}
