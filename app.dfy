/** The application's state and its request handlers: the four tables with
    their autoincrement counters, the session, and the password hasher the
    application was configured with. Each route that changes something is a
    method that updates this state the way the route's body does. */
module App {
  import opened Schema
  import opened Web
  import opened Analysis

  /** The fields of the registration form. */
  datatype Registration = Registration(username: string, password: Password, email: string)

  /** The fields of the login form. */
  datatype Credentials = Credentials(username: string, password: Password)

  /** The profile form, as read with `type=float`: a missing or unparsable
      field reads as absent. */
  datatype Measurements = Measurements(height: Option<Quantity>, weight: Option<Quantity>)

  /** A posted log form: its parsed date and the table's other columns. */
  datatype Posted<E> = Posted(date: Date, entry: E)

  /** What the password hasher promises: a hash made from a password, with
      any salt, verifies against that same password. */
  ghost predicate HashVerifies(hash: (Salt, Password) -> Digest, check: (Digest, Password) -> bool) {
    forall s, p :: check(hash(s, p), p)
  }

  /** The row a successful registration inserts: no height or weight yet. */
  function NewUser(id: UserId, f: Registration, digest: Digest): User {
    User(id, f.username, digest, f.email, None, None)
  }

  /** Registration goes ahead only when neither the username nor the email
      is taken. */
  predicate Admissible(users: seq<User>, f: Registration)
    ensures Admissible(users, f) <==>
              forall i :: 0 <= i < |users| ==> users[i].username != f.username && users[i].email != f.email
  {
    FindUser(users, ByUsername(f.username)).None? && FindUser(users, ByEmail(f.email)).None?
  }

  /** Whether a login form's username is this user's and its password
      verifies against this user's stored hash. */
  predicate Verifies(u: User, check: (Digest, Password) -> bool, c: Credentials) {
    u.username == c.username && check(u.password, c.password)
  }

  /** The user a login form identifies: the first user with that username,
      provided its stored hash verifies against the typed password. */
  function Authenticate(users: seq<User>, check: (Digest, Password) -> bool, c: Credentials): (r: Option<UserId>)
    ensures r.Some? ==>
              exists i :: 0 <= i < |users| && users[i].id == r.value && Verifies(users[i], check, c)
    ensures Unique(users) && (exists i :: 0 <= i < |users| && Verifies(users[i], check, c)) ==>
              r.Some?
  {
    match FindUser(users, ByUsername(c.username))
    case None => None
    case Some(i) => if check(users[i].password, c.password) then Some(users[i].id) else None
  }

  /** Whoever has just registered can log in with the password they chose:
      the stored hash verifies against it, and no earlier user shares the
      username. */
  lemma RegisteredCanLogIn(users: seq<User>, hash: (Salt, Password) -> Digest,
                           check: (Digest, Password) -> bool, salt: Salt, f: Registration, id: UserId)
    requires HashVerifies(hash, check)
    requires Admissible(users, f)
    ensures Authenticate(users + [NewUser(id, f, hash(salt, f.password))], check,
                         Credentials(f.username, f.password)) == Some(id)
  {
    var u := NewUser(id, f, hash(salt, f.password));
    FindUserAppend(users, u, ByUsername(f.username));
    assert (users + [u])[|users|] == u;
  }

  /** The row a posted log form adds: owned by `uid`, with key `id`. */
  function Stamp<E>(p: Posted<E>, id: nat, uid: UserId): LogRow<E> {
    LogRow(id, uid, p.date, p.entry)
  }

  /** The users table after user `uid` submits the profile form: the row
      `User.query.get(uid)` finds gets the submitted height and weight. */
  function Remeasured(users: seq<User>, uid: UserId, m: Measurements): (r: seq<User>)
    ensures |r| == |users|
    ensures !HasUser(users, uid) ==> r == users
    ensures forall i :: 0 <= i < |users| && users[i].id != uid ==> r[i] == users[i]
  {
    match FindUser(users, ById(uid))
    case None => users
    case Some(k) => users[k := users[k].(height := m.height, weight := m.weight)]
  }

  /** In a table with unique keys, the profile form rewrites the height and
      weight of user `uid` and nothing else: every other row, and every other
      column of that row, is as it was. */
  lemma RemeasuredOnlyOwner(users: seq<User>, uid: UserId, m: Measurements)
    requires Unique(users)
    ensures |Remeasured(users, uid, m)| == |users|
    ensures forall i :: 0 <= i < |users| && users[i].id != uid ==> Remeasured(users, uid, m)[i] == users[i]
    ensures forall i :: 0 <= i < |users| && users[i].id == uid ==>
              Remeasured(users, uid, m)[i] == users[i].(height := m.height, weight := m.weight)
  {
    forall i | 0 <= i < |users| && users[i].id == uid
      ensures FindUser(users, ById(uid)) == Some(i)
    {
      FoundByIdIsOnly(users, uid, i);
    }
  }

  /** The profile form leaves every key, username, stored hash and email as it
      was, so it changes no login outcome. */
  lemma RemeasuredKeepsCredentials(users: seq<User>, uid: UserId, m: Measurements)
    ensures SameCredentials(Remeasured(users, uid, m), users)
    ensures forall check, c :: Authenticate(Remeasured(users, uid, m), check, c) == Authenticate(users, check, c)
  {
    var after := Remeasured(users, uid, m);
    FindUserSameCredentials(after, users, ById(uid));
    forall c: Credentials ensures FindUser(after, ByUsername(c.username)) == FindUser(users, ByUsername(c.username)) {
      FindUserSameCredentials(after, users, ByUsername(c.username));
    }
  }

  /** The table constraints and the three foreign keys only look at the
      columns a profile update leaves alone. */
  lemma KeepsUniqueAndOwners(before: seq<User>, after: seq<User>, uid: UserId,
                             workouts: seq<LogRow<WorkoutEntry>>, dietLogs: seq<LogRow<DietEntry>>,
                             exerciseLogs: seq<LogRow<ExerciseEntry>>)
    requires SameCredentials(after, before)
    requires Unique(before) && HasUser(before, uid)
    requires OwnersExist(workouts, before) && OwnersExist(dietLogs, before) && OwnersExist(exerciseLogs, before)
    ensures Unique(after) && HasUser(after, uid)
    ensures OwnersExist(workouts, after) && OwnersExist(dietLogs, after) && OwnersExist(exerciseLogs, after)
  {
    forall v: UserId ensures HasUser(after, v) == HasUser(before, v) {
      FindUserSameCredentials(after, before, ById(v));
    }
  }

  /** The notice a log handler flashes: `added` when a form was posted. */
  function Added<E>(form: Option<Posted<E>>, added: Notice): Option<Notice> {
    if form.Some? then Some(added) else None
  }

  class Server {
    var users: seq<User>
    var workouts: seq<LogRow<WorkoutEntry>>
    var dietLogs: seq<LogRow<DietEntry>>
    var exerciseLogs: seq<LogRow<ExerciseEntry>>
    /** The next key each table's autoincrement column hands out. */
    var nextUserId: nat
    var nextWorkoutId: nat
    var nextDietId: nat
    var nextExerciseId: nat
    /** `session['user_id']`, or None when no one is logged in. */
    var session: Option<UserId>
    /** The password hasher: hashing with a salt, and verifying a password
        against a stored hash. */
    const hash: (Salt, Password) -> Digest
    const check: (Digest, Password) -> bool

    ghost predicate Valid()
      reads this
    {
      HashVerifies(hash, check) &&
      Unique(users) && (forall u :: u in users ==> u.id < nextUserId) &&
      (session.Some? ==> HasUser(users, session.value)) &&
      Ascending(workouts, nextWorkoutId) && OwnersExist(workouts, users) &&
      Ascending(dietLogs, nextDietId) && OwnersExist(dietLogs, users) &&
      Ascending(exerciseLogs, nextExerciseId) && OwnersExist(exerciseLogs, users)
    }

    /** Empty tables, counters at 1, no one logged in. */
    constructor (hash: (Salt, Password) -> Digest, check: (Digest, Password) -> bool)
      requires HashVerifies(hash, check)
      ensures Valid()
      ensures this.hash == hash && this.check == check
      ensures users == [] && workouts == [] && dietLogs == [] && exerciseLogs == []
      ensures nextUserId == nextWorkoutId == nextDietId == nextExerciseId == 1
      ensures session == None
    {
      this.hash, this.check := hash, check;
      users, workouts, dietLogs, exerciseLogs := [], [], [], [];
      nextUserId, nextWorkoutId, nextDietId, nextExerciseId := 1, 1, 1, 1;
      session := None;
    }

    /** `/register`. A GET shows the form. A POST is refused when the
        username is taken, and otherwise when the email is taken; else one
        user is appended holding the salted hash of the password, unless the
        commit fails (`committed` is false), which leaves the table as it was.
        The session is never touched. */
    method Register(form: Option<Registration>, salt: Salt, committed: bool) returns (r: Response)
      requires Valid()
      modifies this`users, this`nextUserId
      ensures Valid()
      ensures form.None? ==> r == Render(RegisterForm, None)
      ensures form.Some? && FindUser(old(users), ByUsername(form.value.username)).Some? ==>
        r == Redirect(RegisterPage, Some(UsernameTaken))
      ensures form.Some? && FindUser(old(users), ByUsername(form.value.username)).None?
              && FindUser(old(users), ByEmail(form.value.email)).Some?
              ==> r == Redirect(RegisterPage, Some(EmailTaken))
      ensures form.Some? && Admissible(old(users), form.value) ==>
        r == Redirect(if committed then LoginPage else RegisterPage,
                      Some(if committed then Registered else RegisterFailed))
      ensures if form.Some? && Admissible(old(users), form.value) && committed then
          users == old(users) + [NewUser(old(nextUserId), form.value, hash(salt, form.value.password))] &&
          nextUserId == old(nextUserId) + 1
        else
          users == old(users) && nextUserId == old(nextUserId)
    {
      if form.None? {
        return Render(RegisterForm, None);
      }
      var f := form.value;
      if FindUser(users, ByUsername(f.username)).Some? {
        return Redirect(RegisterPage, Some(UsernameTaken));
      }
      if FindUser(users, ByEmail(f.email)).Some? {
        return Redirect(RegisterPage, Some(EmailTaken));
      }
      if !committed {
        return Redirect(RegisterPage, Some(RegisterFailed));
      }
      var u := NewUser(nextUserId, f, hash(salt, f.password));
      AdmitKeepsUnique(users, u);
      forall uid | HasUser(users, uid) ensures HasUser(users + [u], uid) {
        HasUserAppend(users, u, uid);
      }
      users := users + [u];
      nextUserId := nextUserId + 1;
      r := Redirect(LoginPage, Some(Registered));
    }

    /** `/login`. A GET shows the form. A POST logs in the user that
        `Authenticate` identifies; otherwise it shows the form again with a
        notice that does not say whether the username or the password was
        wrong, and leaves the session as it was. */
    method Login(form: Option<Credentials>) returns (r: Response)
      requires Valid()
      modifies this`session
      ensures Valid()
      ensures form.None? ==> session == old(session) && r == Render(LoginForm, None)
      ensures form.Some? && Authenticate(users, check, form.value).Some? ==>
        session == Authenticate(users, check, form.value) && r == Redirect(ProfilePage, Some(LoggedIn))
      ensures form.Some? && Authenticate(users, check, form.value).None? ==>
        session == old(session) && r == Render(LoginForm, Some(BadCredentials))
    {
      if form.None? {
        return Render(LoginForm, None);
      }
      var who := Authenticate(users, check, form.value);
      if who.Some? {
        // The user found by name carries this key, so looking the key up finds a user.
        assert Matches(users[FindUser(users, ByUsername(form.value.username)).value], ById(who.value));
        session := who;
        r := Redirect(ProfilePage, Some(LoggedIn));
      } else {
        r := Render(LoginForm, Some(BadCredentials));
      }
    }

    /** `/logout`: whatever the session held, afterwards no one is logged in. */
    method Logout() returns (r: Response)
      requires Valid()
      modifies this`session
      ensures Valid()
      ensures session.None?
      ensures r == Redirect(LoginPage, Some(LoggedOut))
    {
      session := None;
      r := Redirect(LoginPage, Some(LoggedOut));
    }

    /** `/profile`, behind `login_required`. A POST replaces the logged-in
        user's height and weight and nothing else, unless the commit fails;
        either way the page shows that user's stored row. */
    method Profile(form: Option<Measurements>, committed: bool) returns (r: Response)
      requires Valid()
      modifies this`users
      ensures Valid()
      ensures old(session).None? ==> users == old(users) && r == Denied(Decorated)
      ensures old(session).Some? ==>
        var uid := old(session).value;
        users == (if form.Some? && committed then Remeasured(old(users), uid, form.value) else old(users)) &&
        r.Render? && r.view.ProfileView? && r.view.user in users && r.view.user.id == uid &&
        r.notice == (if form.None? then None
                     else if committed then Some(ProfileUpdated) else Some(ProfileUpdateFailed))
    {
      if session.None? {
        return Denied(Decorated);
      }
      var uid := session.value;
      var k := FindUser(users, ById(uid)).value;
      if form.Some? && committed {
        RemeasuredKeepsCredentials(users, uid, form.value);
        KeepsUniqueAndOwners(users, Remeasured(users, uid, form.value), uid, workouts, dietLogs, exerciseLogs);
        users := Remeasured(users, uid, form.value);
      }
      var notice := if form.None? then None
                    else if committed then Some(ProfileUpdated) else Some(ProfileUpdateFailed);
      r := Render(ProfileView(users[k]), notice);
    }

    /** `/workout`, behind the inline session check. A POST appends one row
        owned by the session user and leaves every other row as it was; then
        the page lists that user's rows in table order. */
    method Workout(form: Option<Posted<WorkoutEntry>>) returns (r: Response)
      requires Valid()
      modifies this`workouts, this`nextWorkoutId
      ensures Valid()
      ensures old(session).None? || form.None? ==> workouts == old(workouts) && nextWorkoutId == old(nextWorkoutId)
      ensures old(session).Some? && form.Some? ==>
        workouts == old(workouts) + [Stamp(form.value, old(nextWorkoutId), old(session).value)] &&
        nextWorkoutId == old(nextWorkoutId) + 1
      ensures var rows := workouts;
              r == Guard(Inline, old(session), (uid: UserId) => Render(WorkoutList(Owned(rows, uid)), Added(form, WorkoutAdded)))
    {
      if session.None? {
        return Denied(Inline);
      }
      var uid := session.value;
      if form.Some? {
        var row := Stamp(form.value, nextWorkoutId, uid);
        LogAppendKeepsKeys(workouts, nextWorkoutId, users, row);
        workouts := workouts + [row];
        nextWorkoutId := nextWorkoutId + 1;
      }
      r := Render(WorkoutList(Owned(workouts, uid)), Added(form, WorkoutAdded));
    }

    /** `/diet`, the same shape as `/workout` over the diet log table. */
    method Diet(form: Option<Posted<DietEntry>>) returns (r: Response)
      requires Valid()
      modifies this`dietLogs, this`nextDietId
      ensures Valid()
      ensures old(session).None? || form.None? ==> dietLogs == old(dietLogs) && nextDietId == old(nextDietId)
      ensures old(session).Some? && form.Some? ==>
        dietLogs == old(dietLogs) + [Stamp(form.value, old(nextDietId), old(session).value)] &&
        nextDietId == old(nextDietId) + 1
      ensures var rows := dietLogs;
              r == Guard(Inline, old(session), (uid: UserId) => Render(DietList(Owned(rows, uid)), Added(form, DietAdded)))
    {
      if session.None? {
        return Denied(Inline);
      }
      var uid := session.value;
      if form.Some? {
        var row := Stamp(form.value, nextDietId, uid);
        LogAppendKeepsKeys(dietLogs, nextDietId, users, row);
        dietLogs := dietLogs + [row];
        nextDietId := nextDietId + 1;
      }
      r := Render(DietList(Owned(dietLogs, uid)), Added(form, DietAdded));
    }

    /** `/exercise`, the same shape as `/workout` over the exercise log table. */
    method Exercise(form: Option<Posted<ExerciseEntry>>) returns (r: Response)
      requires Valid()
      modifies this`exerciseLogs, this`nextExerciseId
      ensures Valid()
      ensures old(session).None? || form.None? ==> exerciseLogs == old(exerciseLogs) && nextExerciseId == old(nextExerciseId)
      ensures old(session).Some? && form.Some? ==>
        exerciseLogs == old(exerciseLogs) + [Stamp(form.value, old(nextExerciseId), old(session).value)] &&
        nextExerciseId == old(nextExerciseId) + 1
      ensures var rows := exerciseLogs;
              r == Guard(Inline, old(session), (uid: UserId) => Render(ExerciseList(Owned(rows, uid)), Added(form, ExerciseAdded)))
    {
      if session.None? {
        return Denied(Inline);
      }
      var uid := session.value;
      if form.Some? {
        var row := Stamp(form.value, nextExerciseId, uid);
        LogAppendKeepsKeys(exerciseLogs, nextExerciseId, users, row);
        exerciseLogs := exerciseLogs + [row];
        nextExerciseId := nextExerciseId + 1;
      }
      r := Render(ExerciseList(Owned(exerciseLogs, uid)), Added(form, ExerciseAdded));
    }

    /** `/analysis`, behind the inline session check: the chart data of the
        session user, one mapping from day to calories over their diet logs
        and one from day to calories burned over their exercise logs (see
        `ByDayKeys` and `ByDayLast` for what the mappings hold). */
    function AnalysisPage(): (r: Response)
      reads this
      ensures var diet, exercise := dietLogs, exerciseLogs;
              r == Guard(Inline, session, (uid: UserId) =>
                     Render(AnalysisView(DietData(diet, uid), ExerciseData(exercise, uid)), None))
    {
      match session
      case None => Denied(Inline)
      case Some(uid) => Render(AnalysisView(DietData(dietLogs, uid), ExerciseData(exerciseLogs, uid)), None)
    }
  }
}
