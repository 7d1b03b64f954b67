/** The two authentication handlers. Both read the identity the session
    middleware attached to the request and echo it back. */
module AuthController {
  import opened Wrappers
  import opened Http
  import opened JsStrings

  const UNAUTHORIZED_ERROR := "Unauthorized"
  const NO_AUTHENTICATED_USER := "No authenticated user found"
  const AUTHENTICATION_REQUIRED := "Authentication required"
  const SERVER_ERROR := "Internal Server Error"
  const FAILED_CURRENT_USER := "Failed to get current user"
  const FAILED_USER_PROFILE := "Failed to get user profile"

  /** What `getAuth(req)` yields: the user and session ids, each possibly
      absent. */
  datatype AuthState = AuthState(userId: Option<string>, sessionId: Option<string>)

  datatype UserData = UserData(id: string, sessionId: Option<string>)

  datatype AuthBody =
    | AuthError(error: string, message: string)
    | UserInfo(success: bool, data: UserData)

  /** The answer both handlers share: 401 with `unauthorized` when there is no
      user id, 500 with `failure` when reading the identity throws, and the
      ids otherwise. */
  function AnswerIdentity(auth: Outcome<AuthState>, unauthorized: string, failure: string): (r: Response<AuthBody>)
    ensures r.status == OK <==> auth.Returned? && Truthy(auth.value.userId)
    ensures r.status == OK ==>
      r.body == UserInfo(true, UserData(auth.value.userId.value, auth.value.sessionId))
    ensures r.status == UNAUTHORIZED <==> auth.Returned? && !Truthy(auth.value.userId)
    ensures r.status == UNAUTHORIZED ==> r.body == AuthError(UNAUTHORIZED_ERROR, unauthorized)
    ensures r.status == INTERNAL_SERVER_ERROR <==> auth.Threw?
    ensures r.status == INTERNAL_SERVER_ERROR ==> r.body == AuthError(SERVER_ERROR, failure)
  {
    match auth
    case Threw(_) => Response(INTERNAL_SERVER_ERROR, AuthError(SERVER_ERROR, failure))
    case Returned(a) =>
      if !Truthy(a.userId) then Response(UNAUTHORIZED, AuthError(UNAUTHORIZED_ERROR, unauthorized))
      else Response(OK, UserInfo(true, UserData(a.userId.value, a.sessionId)))
  }

  /** `getCurrentUser` */
  function GetCurrentUser(auth: Outcome<AuthState>): (r: Response<AuthBody>)
    ensures r.status in {OK, UNAUTHORIZED, INTERNAL_SERVER_ERROR}
    ensures r.status == OK <==> auth.Returned? && Truthy(auth.value.userId)
    ensures r.status == OK ==>
      r.body == UserInfo(true, UserData(auth.value.userId.value, auth.value.sessionId))
    ensures r.status == UNAUTHORIZED ==> r.body == AuthError(UNAUTHORIZED_ERROR, NO_AUTHENTICATED_USER)
    ensures r.status == INTERNAL_SERVER_ERROR <==> auth.Threw?
    ensures r.status == INTERNAL_SERVER_ERROR ==> r.body == AuthError(SERVER_ERROR, FAILED_CURRENT_USER)
  {
    AnswerIdentity(auth, NO_AUTHENTICATED_USER, FAILED_CURRENT_USER)
  }

  /** `getUserProfile` */
  function GetUserProfile(auth: Outcome<AuthState>): (r: Response<AuthBody>)
    ensures r.status in {OK, UNAUTHORIZED, INTERNAL_SERVER_ERROR}
    ensures r.status == OK <==> auth.Returned? && Truthy(auth.value.userId)
    ensures r.status == OK ==>
      r.body == UserInfo(true, UserData(auth.value.userId.value, auth.value.sessionId))
    ensures r.status == UNAUTHORIZED ==> r.body == AuthError(UNAUTHORIZED_ERROR, AUTHENTICATION_REQUIRED)
    ensures r.status == INTERNAL_SERVER_ERROR <==> auth.Threw?
    ensures r.status == INTERNAL_SERVER_ERROR ==> r.body == AuthError(SERVER_ERROR, FAILED_USER_PROFILE)
  {
    AnswerIdentity(auth, AUTHENTICATION_REQUIRED, FAILED_USER_PROFILE)
  }

  /** The two handlers agree on every status and on every successful body;
      they differ only in their error messages. */
  lemma ProfileIsCurrentUser(auth: Outcome<AuthState>)
    ensures GetCurrentUser(auth).status == GetUserProfile(auth).status
    ensures GetCurrentUser(auth).status == OK ==> GetCurrentUser(auth).body == GetUserProfile(auth).body
  {
  }

  /** An empty user id is treated as no user. */
  lemma EmptyUserIdUnauthorized(sessionId: Option<string>)
    ensures GetCurrentUser(Returned(AuthState(Some(""), sessionId))).status == UNAUTHORIZED
  {
  }
}
