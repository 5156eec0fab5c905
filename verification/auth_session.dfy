/**
 * The client session (src/contexts/AuthContext.tsx): the in-memory user, token and loading flag,
 * the browser storage slot the token is persisted under, and the transitions that startup
 * hydration, login, signup and logout make. Each awaited backend call is one atomic step whose
 * network exchange is supplied as a `Transport` and interpreted by the API client.
 */
module AuthSession {
  import opened Wrappers
  import opened Storage
  import opened Dtos
  import ApiClient

  /** The storage slot the session writes, reads and removes its token under. */
  const TokenKey := "token"

  const OutsideProviderMessage := "useAuth must be used within an AuthProvider"

  /** The in-memory session state. */
  datatype Session = Session(user: Option<UserDto>, token: Option<string>, isLoading: bool)

  /** The session together with the browser storage it persists into. */
  datatype Client = Client(session: Session, store: Store)

  /** One user-facing transition: the new client, the backend calls it issued, and the error it rethrew. */
  datatype Step = Step(client: Client, calls: seq<ApiClient.Request>, error: Option<ApiClient.ApiError>)

  /** The context's `isAuthenticated`: a user is present and the token is a non-empty string. */
  predicate IsAuthenticated(s: Session) {
    s.user.Some? && Truthy(s.token)
  }

  /** Authentication needs both halves: a session with either one missing is never authenticated. */
  lemma AuthenticatedNeedsUserAndToken(s: Session)
    ensures IsAuthenticated(s) ==> s.user.Some? && s.token.Some? && s.token.value != ""
    ensures s.user.None? || s.token.None? ==> !IsAuthenticated(s)
  {
  }

  // ---------------------------------------------------------------------------
  // Startup hydration

  /** The provider as first rendered: no user, no token, still loading. */
  function Mount(store: Store): (c: Client)
    ensures c.store == store
    ensures c.session.isLoading && !IsAuthenticated(c.session)
    ensures c.session.user.None? && c.session.token.None?
  {
    Client(Session(None, None, true), store)
  }

  /** The startup effect: the new client and the token whose profile it goes on to fetch, if any. */
  datatype Startup = Startup(client: Client, profileFetch: Option<string>)

  /**
   * Reads the stored token. A non-empty one becomes the in-memory token and is used for a profile
   * fetch; otherwise loading simply ends. Storage and user are left alone.
   */
  function StartupEffect(c: Client): (s: Startup)
    ensures s.client.store == c.store && s.client.session.user == c.session.user
    ensures s.profileFetch.Some? <==> Truthy(Get(c.store, TokenKey))
    ensures s.profileFetch.Some? ==>
              s.profileFetch == Get(c.store, TokenKey) && s.client.session.token == s.profileFetch &&
              s.client.session.isLoading == c.session.isLoading
    ensures s.profileFetch.None? ==> s.client.session == c.session.(isLoading := false)
  {
    var stored := Get(c.store, TokenKey);
    if Truthy(stored) then
      Startup(Client(c.session.(token := stored), c.store), stored)
    else
      Startup(Client(c.session.(isLoading := false), c.store), None)
  }

  /**
   * The profile fetch resolving: a fetched user is kept; any failure removes the stored token and
   * drops the in-memory one. Loading ends either way.
   */
  function ProfileFetched(c: Client, reply: ApiClient.Transport<UserDto>): (c': Client)
    ensures !c'.session.isLoading
    ensures ApiClient.Call(reply).Success? ==>
              c'.session.user == Some(ApiClient.Call(reply).value) &&
              c'.session.token == c.session.token && c'.store == c.store
    ensures ApiClient.Call(reply).Failure? ==>
              c'.session.user == c.session.user && c'.session.token.None? &&
              c'.store == c.store - {TokenKey}
  {
    match ApiClient.Call(reply)
    case Success(user) => Client(c.session.(user := Some(user), isLoading := false), c.store)
    case Failure(_) => Client(c.session.(token := None, isLoading := false), c.store - {TokenKey})
  }

  /** The whole startup: mount, run the effect, and resolve the profile fetch if one was issued. */
  datatype Hydration = Hydration(client: Client, calls: seq<ApiClient.Request>)

  function Hydrate(store: Store, reply: ApiClient.Transport<UserDto>): (h: Hydration)
    ensures !h.client.session.isLoading
    ensures |h.calls| <= 1
  {
    var s := StartupEffect(Mount(store));
    match s.profileFetch
    case None => Hydration(s.client, [])
    case Some(t) => Hydration(ProfileFetched(s.client, reply), [ApiClient.ProfileRequest(Some(t), s.client.store)])
  }

  /** With nothing usable stored, startup makes no call and ends anonymous with loading over. */
  lemma HydrateWithoutToken(store: Store, reply: ApiClient.Transport<UserDto>)
    requires !Truthy(Get(store, TokenKey))
    ensures Hydrate(store, reply).calls == []
    ensures Hydrate(store, reply).client == Client(Session(None, None, false), store)
  {
  }

  /**
   * With a stored token, the token is in memory before the profile arrives, yet the session is not
   * authenticated in that window; the one call made is the profile fetch bearing that token.
   */
  lemma HydrationWindow(store: Store, reply: ApiClient.Transport<UserDto>)
    requires Truthy(Get(store, TokenKey))
    ensures var s := StartupEffect(Mount(store));
      s.client.session == Session(None, Some(store[TokenKey]), true) && !IsAuthenticated(s.client.session)
    ensures var calls := Hydrate(store, reply).calls;
      |calls| == 1 && ApiClient.Prepare(calls[0]).headers[ApiClient.AuthorizationHeader] ==
                      ApiClient.BearerPrefix + store[TokenKey]
  {
  }

  /** A rejected profile fetch erases the stored token and leaves the session anonymous. */
  lemma HydrateFailure(store: Store, reply: ApiClient.Transport<UserDto>)
    requires Truthy(Get(store, TokenKey))
    requires ApiClient.Call(reply).Failure?
    ensures Hydrate(store, reply).client == Client(Session(None, None, false), store - {TokenKey})
  {
  }

  /** A fetched profile gives an authenticated session holding the stored token and that user. */
  lemma HydrateSuccess(store: Store, reply: ApiClient.Transport<UserDto>)
    requires Truthy(Get(store, TokenKey))
    requires ApiClient.Call(reply).Success?
    ensures var c := Hydrate(store, reply).client;
      c == Client(Session(Some(ApiClient.Call(reply).value), Some(store[TokenKey]), false), store) &&
      IsAuthenticated(c.session)
  {
  }

  // ---------------------------------------------------------------------------
  // Login, signup, logout

  /**
   * Login: one call to the login endpoint. On success the returned token and user replace the
   * in-memory ones and the token is written to storage; on failure nothing changes and the error is
   * rethrown.
   */
  function Login(c: Client, email: string, password: string,
                 reply: ApiClient.Transport<LoginResponse>): (s: Step)
    ensures s.calls == [ApiClient.LoginRequest(email, password)]
    ensures s.error.None? <==> ApiClient.Call(reply).Success?
    ensures s.error.Some? ==> s.client == c && ApiClient.Receive(reply) == Failure(s.error.value)
    ensures s.error.None? ==>
              var resp := ApiClient.Call(reply).value;
              s.client.session == c.session.(user := Some(resp.user), token := Some(resp.token)) &&
              s.client.store == c.store[TokenKey := resp.token]
  {
    match ApiClient.Call(reply)
    case Failure(e) => Step(c, [ApiClient.LoginRequest(email, password)], Some(e))
    case Success(resp) =>
      Step(Client(c.session.(token := Some(resp.token), user := Some(resp.user)), c.store[TokenKey := resp.token]),
           [ApiClient.LoginRequest(email, password)], None)
  }

  /**
   * Signup: one call to the signup endpoint and, only when it succeeds, a login with the same
   * email and password. A signup failure is rethrown with nothing changed.
   */
  function Signup(c: Client, data: ApiClient.SignupData, signupReply: ApiClient.Transport<()>,
                  loginReply: ApiClient.Transport<LoginResponse>): (s: Step)
    ensures |s.calls| >= 1 && s.calls[0] == ApiClient.SignupRequest(data)
    ensures ApiClient.Call(signupReply).Failure? ==>
              s == Step(c, [ApiClient.SignupRequest(data)], Some(ApiClient.Call(signupReply).error))
    ensures ApiClient.Call(signupReply).Success? ==>
              var l := Login(c, data.email, data.password, loginReply);
              s.client == l.client && s.error == l.error && s.calls[1..] == l.calls
  {
    match ApiClient.Call(signupReply)
    case Failure(e) => Step(c, [ApiClient.SignupRequest(data)], Some(e))
    case Success(_) =>
      var l := Login(c, data.email, data.password, loginReply);
      Step(l.client, [ApiClient.SignupRequest(data)] + l.calls, l.error)
  }

  /** A login is attempted exactly when the signup call succeeded, and then with the signup credentials. */
  lemma SignupLogsInOnlyAfterSuccess(c: Client, data: ApiClient.SignupData, signupReply: ApiClient.Transport<()>,
                                     loginReply: ApiClient.Transport<LoginResponse>)
    ensures var s := Signup(c, data, signupReply, loginReply);
      (exists i :: 0 <= i < |s.calls| && s.calls[i].endpoint == "/auth/login") <==> ApiClient.Call(signupReply).Success?
    ensures var s := Signup(c, data, signupReply, loginReply);
      ApiClient.Call(signupReply).Success? ==> s.calls == [ApiClient.SignupRequest(data), ApiClient.LoginRequest(data.email, data.password)]
  {
    var s := Signup(c, data, signupReply, loginReply);
    if ApiClient.Call(signupReply).Success? {
      assert s.calls[1].endpoint == "/auth/login";
    } else {
      assert s.calls == [ApiClient.SignupRequest(data)];
    }
  }

  /** Logout: no user, no token, and the stored token removed; it cannot fail. */
  function Logout(c: Client): (c': Client)
    ensures c'.session == c.session.(user := None, token := None)
    ensures c'.store == c.store - {TokenKey}
    ensures !IsAuthenticated(c'.session)
  {
    Client(c.session.(user := None, token := None), c.store - {TokenKey})
  }

  /** Logging out twice is the same as logging out once. */
  lemma LogoutIdempotent(c: Client)
    ensures Logout(Logout(c)) == Logout(c)
  {
  }

  /** `useAuth`: the provider's value, or the error thrown when called outside a provider. */
  function UseAuth(context: Option<Session>): (r: Result<Session, string>)
    ensures context.None? ==> r == Failure(OutsideProviderMessage)
    ensures context.Some? ==> r == Success(context.value)
  {
    match context
    case None => Failure(OutsideProviderMessage)
    case Some(s) => Success(s)
  }

  // ---------------------------------------------------------------------------
  // The session invariant over user-driven transitions

  /**
   * User and token are present together, and an in-memory token is the one in storage: what every
   * completed startup and every later login, signup or logout leaves behind.
   */
  predicate Consistent(c: Client) {
    && (c.session.user.Some? <==> c.session.token.Some?)
    && (c.session.token.Some? ==> Get(c.store, TokenKey) == c.session.token)
  }

  /** A user-driven transition after startup. */
  datatype Action =
    | LoginAction(email: string, password: string, reply: ApiClient.Transport<LoginResponse>)
    | SignupAction(data: ApiClient.SignupData, signupReply: ApiClient.Transport<()>, loginReply: ApiClient.Transport<LoginResponse>)
    | LogoutAction

  function Perform(c: Client, a: Action): Client {
    match a
    case LoginAction(email, password, reply) => Login(c, email, password, reply).client
    case SignupAction(data, signupReply, loginReply) => Signup(c, data, signupReply, loginReply).client
    case LogoutAction => Logout(c)
  }

  function Replay(c: Client, actions: seq<Action>): Client
    decreases |actions|
  {
    if |actions| == 0 then c else Replay(Perform(c, actions[0]), actions[1..])
  }

  /** Every completed startup ends consistent. */
  lemma HydrateConsistent(store: Store, reply: ApiClient.Transport<UserDto>)
    ensures Consistent(Hydrate(store, reply).client)
  {
  }

  /** Each user-driven transition keeps the session consistent. */
  lemma PerformConsistent(c: Client, a: Action)
    requires Consistent(c)
    ensures Consistent(Perform(c, a))
  {
  }

  /** Any sequence of logins, signups and logouts keeps the session consistent. */
  lemma {:induction false} ReplayConsistent(c: Client, actions: seq<Action>)
    requires Consistent(c)
    ensures Consistent(Replay(c, actions))
    decreases |actions|
  {
    if |actions| > 0 {
      PerformConsistent(c, actions[0]);
      ReplayConsistent(Perform(c, actions[0]), actions[1..]);
    }
  }

  /** In a consistent session, being authenticated means holding a user with a non-empty token. */
  lemma ConsistentAuthentication(c: Client)
    requires Consistent(c)
    ensures IsAuthenticated(c.session) <==> c.session.user.Some? && c.session.token.value != ""
  {
  }

  /**
   * The token a successful login persists is read back by a fresh startup: a reload whose profile
   * fetch succeeds restores an authenticated session with the same token.
   */
  lemma LoginSurvivesReload(c: Client, email: string, password: string,
                            reply: ApiClient.Transport<LoginResponse>, profile: ApiClient.Transport<UserDto>)
    requires ApiClient.Call(reply).Success? && ApiClient.Call(reply).value.token != ""
    requires ApiClient.Call(profile).Success?
    ensures var store := Login(c, email, password, reply).client.store;
      var h := Hydrate(store, profile);
      h.client.session == Session(Some(ApiClient.Call(profile).value), Some(ApiClient.Call(reply).value.token), false) &&
      IsAuthenticated(h.client.session)
  {
    var store := Login(c, email, password, reply).client.store;
    HydrateSuccess(store, profile);
  }

  /**
   * The session writes its token under `token` while the API client reads `auth_token`. A login
   * leaves the client's slot as it was, so when that slot was empty the session is authenticated
   * but course creation and enrollment still go out without an authorization header.
   */
  lemma LoginDoesNotAuthorizeApiClient(c: Client, email: string, password: string,
                                       reply: ApiClient.Transport<LoginResponse>, course: ApiClient.CourseData, courseId: int)
    requires ApiClient.Call(reply).Success?
    ensures var store := Login(c, email, password, reply).client.store;
      Get(store, ApiClient.ApiTokenKey) == Get(c.store, ApiClient.ApiTokenKey) &&
      ApiClient.IsAuthenticated(store) == ApiClient.IsAuthenticated(c.store)
    ensures var store := Login(c, email, password, reply).client.store;
      !Truthy(Get(c.store, ApiClient.ApiTokenKey)) ==>
        ApiClient.AuthorizationHeader !in ApiClient.CreateCourseRequest(course, store).headers &&
        ApiClient.AuthorizationHeader !in ApiClient.EnrollRequest(courseId, store).headers
  {
    assert TokenKey != ApiClient.ApiTokenKey;
  }
}
