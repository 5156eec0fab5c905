/**
 * The client's single chokepoint for backend calls (src/services/api.ts): how a request's URL and
 * headers are built, where the bearer token comes from, and how a reply becomes a value or an error.
 * The network exchange itself is an input (`Transport`): either the request never got an answer or
 * a reply arrived with an `ok` flag, a status and a body that may fail to parse as JSON.
 */
module ApiClient {
  import opened Wrappers
  import opened Storage
  import opened Dtos
  import Decimal

  const BaseUrl := "http://localhost:8080/api"
  const ContentTypeHeader := "Content-Type"
  const JsonMediaType := "application/json"
  const AuthorizationHeader := "Authorization"
  const BearerPrefix := "Bearer "
  /** The storage slot the client reads its bearer token from. */
  const ApiTokenKey := "auth_token"
  const HttpErrorPrefix := "HTTP error! status: "

  type Headers = map<string, string>

  // ---------------------------------------------------------------------------
  // Request shaping

  /** The fetched URL: the fixed base followed by the endpoint, nothing in between. */
  function RequestUrl(endpoint: string): (url: string)
    ensures |url| == |BaseUrl| + |endpoint|
    ensures url[..|BaseUrl|] == BaseUrl
    ensures url[|BaseUrl|..] == endpoint
  {
    BaseUrl + endpoint
  }

  /** The headers actually sent: the JSON content type, overridden by any same-named caller header. */
  function RequestHeaders(caller: Headers): (h: Headers)
    ensures h.Keys == caller.Keys + {ContentTypeHeader}
    ensures forall k :: k in caller ==> h[k] == caller[k]
    ensures ContentTypeHeader !in caller ==> h[ContentTypeHeader] == JsonMediaType
  {
    map[ContentTypeHeader := JsonMediaType] + caller
  }

  /**
   * The authorization headers for a call: the explicit token when it is a non-empty string, else
   * whatever sits under the client's own storage slot; no header at all when neither yields a
   * non-empty token.
   */
  function AuthHeaders(token: Option<string>, store: Store): (h: Headers)
    ensures h == map[] <==> !Truthy(token) && !Truthy(Get(store, ApiTokenKey))
    ensures Truthy(token) ==> h == map[AuthorizationHeader := BearerPrefix + token.value]
    ensures !Truthy(token) && Truthy(Get(store, ApiTokenKey)) ==>
              h == map[AuthorizationHeader := BearerPrefix + store[ApiTokenKey]]
  {
    var authToken := if Truthy(token) then token else Get(store, ApiTokenKey);
    if Truthy(authToken) then
      var h := map[AuthorizationHeader := BearerPrefix + authToken.value];
      assert AuthorizationHeader in h;
      h
    else
      map[]
  }

  datatype Method = HttpGet | HttpPost

  /** What the client sends on signup; the role is optional. */
  datatype SignupData = SignupData(email: string, password: string, firstName: string, lastName: string, role: Option<Role>)

  /** What the client sends to create a course. */
  datatype CourseData = CourseData(title: string, description: string, price: Price)

  /** The JSON body of a request, kept as structured data. */
  datatype Payload =
    | NoPayload
    | Credentials(email: string, password: string)
    | Registration(data: SignupData)
    | NewCourse(course: CourseData)
    | CourseEnrollment(courseId: int)

  /** One endpoint method's call into the request helper: method, endpoint, its own headers, body. */
  datatype Request = Request(verb: Method, endpoint: string, headers: Headers, payload: Payload)

  /** What is handed to the network: the full URL and the merged headers. */
  datatype Config = Config(url: string, verb: Method, headers: Headers, payload: Payload)

  /** The request helper's preparation step. */
  function Prepare(r: Request): (c: Config)
    ensures c.url == RequestUrl(r.endpoint)
    ensures c.headers == RequestHeaders(r.headers)
    ensures c.verb == r.verb && c.payload == r.payload
  {
    Config(RequestUrl(r.endpoint), r.verb, RequestHeaders(r.headers), r.payload)
  }

  function LoginRequest(email: string, password: string): Request {
    Request(HttpPost, "/auth/login", map[], Credentials(email, password))
  }

  function SignupRequest(data: SignupData): Request {
    Request(HttpPost, "/auth/signup", map[], Registration(data))
  }

  function ProfileRequest(token: Option<string>, store: Store): Request {
    Request(HttpGet, "/users/profile", AuthHeaders(token, store), NoPayload)
  }

  function CoursesRequest(): Request {
    Request(HttpGet, "/courses", map[], NoPayload)
  }

  function CourseRequest(id: int): Request {
    Request(HttpGet, "/courses/" + Decimal.IntToString(id), map[], NoPayload)
  }

  /** Course creation takes no explicit token: only the stored one can authorize it. */
  function CreateCourseRequest(data: CourseData, store: Store): Request {
    Request(HttpPost, "/courses", AuthHeaders(None, store), NewCourse(data))
  }

  /** Enrollment takes no explicit token: only the stored one can authorize it. */
  function EnrollRequest(courseId: int, store: Store): Request {
    Request(HttpPost, "/courses/enroll", AuthHeaders(None, store), CourseEnrollment(courseId))
  }

  /** The course listing and single-course lookups never carry an authorization header. */
  lemma PublicCourseRequestsCarryNoAuthorization(id: int)
    ensures AuthorizationHeader !in Prepare(CoursesRequest()).headers
    ensures AuthorizationHeader !in Prepare(CourseRequest(id)).headers
    ensures Prepare(CourseRequest(id)).url == BaseUrl + "/courses/" + Decimal.IntToString(id)
  {
  }

  /** Distinct course ids are fetched from distinct URLs. */
  lemma CourseUrlsDistinct(a: int, b: int)
    requires a != b
    ensures Prepare(CourseRequest(a)).url != Prepare(CourseRequest(b)).url
  {
    Decimal.IntToStringInjective(a, b);
    var prefix := "/courses/";
    var ea := CourseRequest(a).endpoint;
    var eb := CourseRequest(b).endpoint;
    assert ea[|prefix|..] == Decimal.IntToString(a);
    assert eb[|prefix|..] == Decimal.IntToString(b);
    assert ea != eb;
    assert RequestUrl(ea)[|BaseUrl|..] == ea;
    assert RequestUrl(eb)[|BaseUrl|..] == eb;
  }

  /**
   * Course creation and enrollment are authorized exactly when the client's storage slot holds a
   * non-empty token, and then by that token.
   */
  lemma ProtectedRequestsUseStoredToken(data: CourseData, courseId: int, store: Store)
    ensures var h := Prepare(CreateCourseRequest(data, store)).headers;
      (AuthorizationHeader in h <==> Truthy(Get(store, ApiTokenKey))) &&
      (AuthorizationHeader in h ==> h[AuthorizationHeader] == BearerPrefix + store[ApiTokenKey])
    ensures var h := Prepare(EnrollRequest(courseId, store)).headers;
      (AuthorizationHeader in h <==> Truthy(Get(store, ApiTokenKey))) &&
      (AuthorizationHeader in h ==> h[AuthorizationHeader] == BearerPrefix + store[ApiTokenKey])
  {
  }

  /** Every endpoint sends the JSON content type, since none of them sets that header itself. */
  lemma EveryRequestIsJson(email: string, password: string, data: SignupData, token: Option<string>,
                           id: int, course: CourseData, store: Store)
    ensures Prepare(LoginRequest(email, password)).headers[ContentTypeHeader] == JsonMediaType
    ensures Prepare(SignupRequest(data)).headers[ContentTypeHeader] == JsonMediaType
    ensures Prepare(ProfileRequest(token, store)).headers[ContentTypeHeader] == JsonMediaType
    ensures Prepare(CoursesRequest()).headers[ContentTypeHeader] == JsonMediaType
    ensures Prepare(CourseRequest(id)).headers[ContentTypeHeader] == JsonMediaType
    ensures Prepare(CreateCourseRequest(course, store)).headers[ContentTypeHeader] == JsonMediaType
    ensures Prepare(EnrollRequest(id, store)).headers[ContentTypeHeader] == JsonMediaType
  {
  }

  // ---------------------------------------------------------------------------
  // Reply handling

  /** The backend's response envelope. */
  datatype Envelope<T> = Envelope(success: bool, message: Option<string>, data: T)

  /** A reply: the `ok` flag, the status, and the body, absent when it did not parse as JSON. */
  datatype Reply<T> = Reply(ok: bool, status: nat, body: Option<Envelope<T>>)

  /** The network exchange: no answer at all, or a reply. */
  datatype Transport<T> = NetworkDown(reason: string) | Delivered(reply: Reply<T>)

  /** The errors a call surfaces to its caller. */
  datatype ApiError = NetworkError(reason: string) | MalformedJson | HttpError(message: string)

  /** The message of a failed reply: the body's message when it is non-empty, else one naming the status. */
  function HttpErrorMessage(status: nat, message: Option<string>): (m: string)
    ensures Truthy(message) ==> m == message.value
    ensures !Truthy(message) ==> |m| > |HttpErrorPrefix| && m[..|HttpErrorPrefix|] == HttpErrorPrefix
    ensures !Truthy(message) ==> m[|HttpErrorPrefix|..] == Decimal.NatToString(status)
  {
    if Truthy(message) then message.value else HttpErrorPrefix + Decimal.NatToString(status)
  }

  /** Without a body message, the status can be read back from the error message. */
  lemma StatusReadableFromMessage(status: nat, message: Option<string>)
    requires !Truthy(message)
    ensures var m := HttpErrorMessage(status, message);
      Decimal.AllDigits(m[|HttpErrorPrefix|..]) && Decimal.ParseDigits(m[|HttpErrorPrefix|..]) == status
  {
    Decimal.ParsePrinted(status);
  }

  /**
   * The request helper's reply handling. The body is parsed before the status is looked at, so a
   * body that is not JSON is the error reported even for a failing status; only the `ok` flag
   * decides success, whatever the envelope's own `success` field says.
   */
  function Receive<T>(t: Transport<T>): (r: Result<Envelope<T>, ApiError>)
    ensures r.Success? <==> t.Delivered? && t.reply.ok && t.reply.body.Some?
    ensures r.Success? ==> r.value == t.reply.body.value
    ensures t.NetworkDown? ==> r == Failure(NetworkError(t.reason))
    ensures t.Delivered? && t.reply.body.None? ==> r == Failure(MalformedJson)
    ensures t.Delivered? && !t.reply.ok && t.reply.body.Some? ==>
              r == Failure(HttpError(HttpErrorMessage(t.reply.status, t.reply.body.value.message)))
  {
    match t
    case NetworkDown(reason) => Failure(NetworkError(reason))
    case Delivered(reply) =>
      match reply.body
      case None => Failure(MalformedJson)
      case Some(envelope) =>
        if reply.ok then Success(envelope)
        else Failure(HttpError(HttpErrorMessage(reply.status, envelope.message)))
  }

  /** An endpoint method: on success, the envelope's `data` field; otherwise the helper's error. */
  function Call<T>(t: Transport<T>): (r: Result<T, ApiError>)
    ensures r.Success? <==> t.Delivered? && t.reply.ok && t.reply.body.Some?
    ensures r.Success? ==> r.value == t.reply.body.value.data
    ensures r.Failure? ==> Receive(t) == Failure(r.error)
  {
    match Receive(t)
    case Success(envelope) => Success(envelope.data)
    case Failure(e) => Failure(e)
  }

  /** An `ok` reply is a success even when the envelope reports `success: false`. */
  lemma OkReplyIgnoresSuccessFlag<T>(status: nat, message: Option<string>, data: T)
    ensures Call(Delivered(Reply(true, status, Some(Envelope(false, message, data))))) == Success(data)
  {
  }

  /** `isAuthenticated()`: the client's storage slot holds a non-empty token. */
  predicate IsAuthenticated(store: Store)
  {
    Truthy(Get(store, ApiTokenKey))
  }

  /** `getToken()`: the client's storage slot, whatever it holds. */
  function GetToken(store: Store): (t: Option<string>)
    ensures t.Some? <==> ApiTokenKey in store
    ensures t.Some? ==> t.value == store[ApiTokenKey]
  {
    Get(store, ApiTokenKey)
  }

  /** The client counts as authenticated exactly when its own slot holds a non-empty token. */
  lemma IsAuthenticatedIffStoredToken(store: Store)
    ensures IsAuthenticated(store) <==> ApiTokenKey in store && store[ApiTokenKey] != ""
    ensures IsAuthenticated(store) <==> AuthHeaders(None, store) != map[]
  {
  }
}
