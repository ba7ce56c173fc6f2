/** Sequences of requests against a fresh application, with what a client
    can conclude from the handlers' contracts alone. */
module Scenarios {
  import opened Schema
  import opened Web
  import opened Analysis
  import opened App

  const Alice := Registration("alice", "pw1", "a@x.com")
  const NewYear := Date(2024, 1, 1)

  /** A fresh application where the user of form `f` has registered, as user
      1, and no one is logged in. */
  method Registered(hash: (Salt, Password) -> Digest, check: (Digest, Password) -> bool,
                    salt: Salt, f: Registration)
    returns (app: Server)
    requires HashVerifies(hash, check)
    ensures fresh(app) && app.Valid() && app.hash == hash && app.check == check
    ensures app.users == [NewUser(1, f, hash(salt, f.password))] && app.session == None
    ensures app.workouts == [] && app.dietLogs == [] && app.exerciseLogs == []
    ensures app.nextUserId == 2 && app.nextWorkoutId == app.nextDietId == app.nextExerciseId == 1
  {
    app := new Server(hash, check);
    var r := app.Register(Some(f), salt, true);
  }

  /** The same application after that user has logged in with the password
      they registered with. */
  method SignedIn(hash: (Salt, Password) -> Digest, check: (Digest, Password) -> bool,
                  salt: Salt, f: Registration)
    returns (app: Server)
    requires HashVerifies(hash, check)
    ensures fresh(app) && app.Valid() && app.hash == hash && app.check == check
    ensures app.users == [NewUser(1, f, hash(salt, f.password))] && app.session == Some(1)
    ensures app.workouts == [] && app.dietLogs == [] && app.exerciseLogs == []
    ensures app.nextUserId == 2 && app.nextWorkoutId == app.nextDietId == app.nextExerciseId == 1
  {
    app := Registered(hash, check, salt, f);
    RegisteredCanLogIn([], hash, check, salt, f, 1);
    var r := app.Login(Some(Credentials(f.username, f.password)));
  }

  /** Register alice, log her in and post one diet log of an egg on
      2024-01-01: the diet page lists exactly that log, and the chart maps
      that day to its calories. */
  method AliceLogsAMeal(hash: (Salt, Password) -> Digest, check: (Digest, Password) -> bool,
                        salt: Salt, calories: Quantity)
    returns (listed: seq<LogRow<DietEntry>>, chart: map<Date, Option<Quantity>>)
    requires HashVerifies(hash, check)
    ensures |listed| == 1 && listed[0].date == NewYear && listed[0].entry.calories == Some(calories)
    ensures chart == map[NewYear := Some(calories)]
  {
    var app := SignedIn(hash, check, salt, Alice);
    var meal := Posted(NewYear, DietEntry("egg", Some(calories), None, None, None));
    var row := Stamp(meal, 1, 1);
    var r := app.Diet(Some(meal));
    assert app.dietLogs == [row];
    assert Owned([row], 1) == [row] by {
      OwnedAppend([], row, 1);
      assert [] + [row] == [row];
    }
    listed := r.view.dietLogs;
    var a := app.AnalysisPage();
    assert DietData([row], 1) == map[NewYear := Some(calories)] by {
      ByDayAppend([], row, 1, CaloriesOf);
      assert [] + [row] == [row];
      assert ByDay([], 1, CaloriesOf) == map[] by {
        assert Points(Owned([], 1), CaloriesOf) == [];
      }
    }
    chart := a.view.dietData;
  }

  /** A second registration with alice's username is refused for the
      username, and one with a new username but alice's email is refused for
      the email; neither adds a user. */
  method DuplicatesRefused(hash: (Salt, Password) -> Digest, check: (Digest, Password) -> bool,
                           salt: Salt)
    returns (sameName: Response, sameEmail: Response, users: seq<User>)
    requires HashVerifies(hash, check)
    ensures sameName == Redirect(RegisterPage, Some(UsernameTaken))
    ensures sameEmail == Redirect(RegisterPage, Some(EmailTaken))
    ensures |users| == 1 && users[0].username == "alice"
  {
    var app := new Server(hash, check);
    var r := app.Register(Some(Alice), salt, true);
    assert Matches(app.users[0], ByUsername("alice"));
    assert Matches(app.users[0], ByEmail("a@x.com"));
    sameName := app.Register(Some(Registration("alice", "other", "b@x.com")), salt, true);
    assert !Matches(app.users[0], ByUsername("bob"));
    sameEmail := app.Register(Some(Registration("bob", "pw2", "a@x.com")), salt, true);
    users := app.users;
  }

  /** Alice registers, logs in, posts a workout and logs out again: her list
      held exactly that workout, and the workouts table still holds it. */
  method AlicePostsAndLeaves(hash: (Salt, Password) -> Digest, check: (Digest, Password) -> bool,
                             salt: Salt, lift: Posted<WorkoutEntry>)
    returns (app: Server, aliceSees: seq<LogRow<WorkoutEntry>>)
    requires HashVerifies(hash, check)
    ensures fresh(app) && app.Valid() && app.hash == hash && app.check == check
    ensures app.users == [NewUser(1, Alice, hash(salt, Alice.password))] && app.nextUserId == 2
    ensures app.session.None? && app.workouts == [Stamp(lift, 1, 1)]
    ensures aliceSees == [Stamp(lift, 1, 1)]
  {
    app := SignedIn(hash, check, salt, Alice);
    var r := app.Workout(Some(lift));
    var row := Stamp(lift, 1, 1);
    assert app.workouts == [row];
    assert Owned([row], 1) == [row] by {
      OwnedAppend([], row, 1);
      assert [] + [row] == [row];
    }
    aliceSees := r.view.workouts;
    r := app.Logout();
  }

  /** A second user registers on an application whose only user is alice
      and logs in: he becomes user 2 and the session holds his key. */
  method SecondSignsIn(app: Server, salt: Salt, f: Registration)
    requires app.Valid() && |app.users| == 1 && app.nextUserId == 2
    requires f.username != app.users[0].username && f.email != app.users[0].email
    modifies app
    ensures app.Valid() && app.session == Some(2)
    ensures app.workouts == old(app.workouts)
  {
    var alice := app.users[0];
    assert !Matches(alice, ByUsername(f.username)) && !Matches(alice, ByEmail(f.email));
    var r := app.Register(Some(f), salt, true);
    RegisteredCanLogIn([alice], app.hash, app.check, salt, f, 2);
    assert [alice] == old(app.users);
    r := app.Login(Some(Credentials(f.username, f.password)));
  }

  /** After alice has posted a workout and left, bob registers, logs in and
      lists workouts: he sees none of hers. */
  method OthersSeeNothing(hash: (Salt, Password) -> Digest, check: (Digest, Password) -> bool,
                          salt: Salt, lift: Posted<WorkoutEntry>)
    returns (aliceSees: seq<LogRow<WorkoutEntry>>, bobSees: seq<LogRow<WorkoutEntry>>)
    requires HashVerifies(hash, check)
    ensures |aliceSees| == 1 && aliceSees[0].userId == 1
    ensures bobSees == []
  {
    var app;
    app, aliceSees := AlicePostsAndLeaves(hash, check, salt, lift);
    SecondSignsIn(app, salt, Registration("bob", "pw2", "b@x.com"));
    var row := Stamp(lift, 1, 1);
    assert Owned([row], 2) == [] by {
      OwnedAppend([], row, 2);
    }
    var r := app.Workout(None);
    bobSees := r.view.workouts;
  }

  /** After logging out, every page behind the session check sends the
      caller to the login page and changes nothing; logging out again
      changes nothing either. */
  method LoggedOutIsLockedOut(app: Server, m: Measurements, lift: Posted<WorkoutEntry>,
                              meal: Posted<DietEntry>, run: Posted<ExerciseEntry>)
    returns (answers: seq<Response>)
    requires app.Valid()
    modifies app
    ensures app.Valid() && app.session.None?
    ensures answers == [Denied(Decorated), Denied(Inline), Denied(Inline), Denied(Inline), Denied(Inline),
                        Index(None), Redirect(LoginPage, Some(LoggedOut))]
    ensures app.users == old(app.users) && app.workouts == old(app.workouts)
    ensures app.dietLogs == old(app.dietLogs) && app.exerciseLogs == old(app.exerciseLogs)
  {
    var r := app.Logout();
    var profile := app.Profile(Some(m), true);
    var workout := app.Workout(Some(lift));
    var diet := app.Diet(Some(meal));
    var exercise := app.Exercise(Some(run));
    var chart := app.AnalysisPage();
    var again := app.Logout();
    answers := [profile, workout, diet, exercise, chart, Index(app.session), again];
  }
}
