/** What a request handler answers, and the login gate in front of the
    handlers that need a logged-in user. Templates, flashing and URL building
    are reduced to tags: the page redirected to, the view rendered with its
    data, and the notice flashed on the way. */
module Web {
  import opened Schema

  datatype Page = RegisterPage | LoginPage | ProfilePage

  /** The flashed messages, one tag per distinct message. */
  datatype Notice =
    | UsernameTaken | EmailTaken | Registered | RegisterFailed
    | LoggedIn | BadCredentials | LoggedOut | PleaseLogIn
    | ProfileUpdated | ProfileUpdateFailed
    | WorkoutAdded | DietAdded | ExerciseAdded

  datatype View =
    | RegisterForm
    | LoginForm
    | ProfileView(user: User)
    | WorkoutList(workouts: seq<LogRow<WorkoutEntry>>)
    | DietList(dietLogs: seq<LogRow<DietEntry>>)
    | ExerciseList(exerciseLogs: seq<LogRow<ExerciseEntry>>)
    | AnalysisView(dietData: map<Date, Option<Quantity>>, exerciseData: map<Date, Option<Quantity>>)

  datatype Response = Redirect(to: Page, notice: Option<Notice>) | Render(view: View, notice: Option<Notice>)

  /** The two forms the session check takes: the `login_required` decorator
      flashes a notice before redirecting, the checks written inline at the top
      of a handler redirect silently. */
  datatype GuardStyle = Decorated | Inline

  /** The answer to a request for a guarded page without a logged-in user. */
  function Denied(style: GuardStyle): (r: Response)
    ensures r.Redirect? && r.to == LoginPage
    ensures r.notice.Some? <==> style == Decorated
  {
    Redirect(LoginPage, if style == Decorated then Some(PleaseLogIn) else None)
  }

  /** A handler behind the session check: without a session user the handler
      is never consulted and the caller is sent to the login page; with one,
      the answer is exactly the handler's answer for that user. */
  function Guard(style: GuardStyle, session: Option<UserId>, handler: UserId -> Response): (r: Response)
    ensures session.None? ==> r == Denied(style)
    ensures session.Some? ==> r == handler(session.value)
  {
    match session
    case None => Denied(style)
    case Some(uid) => handler(uid)
  }

  /** The root page: to the profile when someone is logged in, else to the
      login page; it is the inline session check around a redirect to the
      profile. */
  function Index(session: Option<UserId>): (r: Response)
    ensures r.Redirect? && r.notice.None?
    ensures r.to == ProfilePage <==> session.Some?
    ensures r.to == LoginPage <==> session.None?
    ensures r == Guard(Inline, session, _ => Redirect(ProfilePage, None))
  {
    if session.None? then Redirect(LoginPage, None) else Redirect(ProfilePage, None)
  }
}
