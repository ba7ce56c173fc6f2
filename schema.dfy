/** The persisted tables of the fitness tracker: the users table and the three
    per-user log tables (workouts, diet logs, exercise logs), with the lookups
    the request handlers run against them. The relational store is replaced by
    in-memory sequences in insertion order. */
module Schema {

  datatype Option<T> = None | Some(value: T)

  /** A floating-point column (height, weight, calories, ...). The application
      only stores and returns these values and never computes with them. */
  type Quantity(==)

  /** A password as the user typed it. */
  type Password = string

  /** The stored one-way hash of a password. It is a different type from
      Password, so the users table cannot hold a plaintext password. */
  type Digest(==)

  /** The random salt drawn by the password hasher. */
  type Salt(!new)

  /** Primary key of the users table. */
  type UserId = nat

  /** A calendar day, as parsed from a `YYYY-MM-DD` form field. */
  datatype Date = Date(year: int, month: int, day: int)

  /** A row of the users table; height and weight are absent until the
      profile form sets them. */
  datatype User = User(
    id: UserId,
    username: string,
    password: Digest,
    email: string,
    height: Option<Quantity>,
    weight: Option<Quantity>)

  /** A row of one of the three log tables: every one has its own key, the
      owning user and a date; `entry` holds the table's other columns. */
  datatype LogRow<E> = LogRow(id: nat, userId: UserId, date: Date, entry: E)

  datatype WorkoutEntry = WorkoutEntry(
    exerciseType: string,
    sets: Option<int>,
    reps: Option<int>,
    weight: Option<Quantity>)

  datatype DietEntry = DietEntry(
    foodName: string,
    calories: Option<Quantity>,
    protein: Option<Quantity>,
    carbs: Option<Quantity>,
    fat: Option<Quantity>)

  datatype ExerciseEntry = ExerciseEntry(
    caloriesBurned: Option<Quantity>,
    duration: Option<int>)

  /** The three ways the handlers look a user up. */
  datatype UserKey = ByUsername(name: string) | ByEmail(address: string) | ById(id: UserId)

  predicate Matches(u: User, key: UserKey) {
    match key
    case ByUsername(n) => u.username == n
    case ByEmail(e) => u.email == e
    case ById(i) => u.id == i
  }

  /** `User.query.filter_by(...).first()` and `User.query.get(...)`: the
      position of the first user matching `key`, if any. */
  function FindUser(users: seq<User>, key: UserKey): (r: Option<nat>)
    ensures r.Some? ==> r.value < |users| && Matches(users[r.value], key)
    ensures r.Some? ==> forall j :: 0 <= j < r.value ==> !Matches(users[j], key)
    ensures r.None? <==> forall j :: 0 <= j < |users| ==> !Matches(users[j], key)
  {
    if |users| == 0 then None
    else if Matches(users[0], key) then Some(0)
    else match FindUser(users[1..], key)
      case None => None
      case Some(i) => Some(i + 1)
  }

  /** Whether the users table holds a user with this primary key. */
  predicate HasUser(users: seq<User>, uid: UserId) {
    FindUser(users, ById(uid)).Some?
  }

  /** The constraints of the users table: keys ascend in insertion order
      (so they are unique), and the username and email columns are unique. */
  ghost predicate Unique(users: seq<User>)
    ensures Unique(users) ==> forall i, j :: 0 <= i < |users| && 0 <= j < |users| && users[i].id == users[j].id ==> i == j
  {
    forall i, j :: 0 <= i < j < |users| ==>
      users[i].id < users[j].id &&
      users[i].username != users[j].username &&
      users[i].email != users[j].email
  }

  /** Appending a user whose username and email are both absent from the table
      and whose key is above every existing key keeps the table's constraints. */
  lemma AdmitKeepsUnique(users: seq<User>, u: User)
    requires Unique(users)
    requires FindUser(users, ByUsername(u.username)).None?
    requires FindUser(users, ByEmail(u.email)).None?
    requires forall v :: v in users ==> v.id < u.id
    ensures Unique(users + [u])
  {
    var t := users + [u];
    forall i, j | 0 <= i < j < |t|
      ensures t[i].id < t[j].id && t[i].username != t[j].username && t[i].email != t[j].email
    {
      if j == |users| {
        assert t[i] == users[i] && t[j] == u;
        assert !Matches(users[i], ByUsername(u.username));
        assert !Matches(users[i], ByEmail(u.email));
      }
    }
  }

  /** Appending a user moves no earlier match: the first match in `users + [u]`
      is the first match in `users` if there is one, else `u` if it matches. */
  lemma FindUserAppend(users: seq<User>, u: User, key: UserKey)
    ensures FindUser(users + [u], key) ==
      if FindUser(users, key).Some? then FindUser(users, key)
      else if Matches(u, key) then Some(|users|)
      else None
  {
    var t := users + [u];
    forall j | 0 <= j < |users| ensures t[j] == users[j] { }
    assert t[|users|] == u;
  }

  /** Whether a user with key `uid` exists stays true when a row is appended,
      and becomes true for the appended row's key. */
  lemma HasUserAppend(users: seq<User>, u: User, uid: UserId)
    ensures HasUser(users + [u], uid) <==> HasUser(users, uid) || u.id == uid
  {
    FindUserAppend(users, u, ById(uid));
  }

  /** Two versions of the users table that agree, row by row, on the key,
      the username, the stored hash and the email. */
  ghost predicate SameCredentials(a: seq<User>, b: seq<User>) {
    |a| == |b| &&
    forall i :: 0 <= i < |a| ==>
      a[i].id == b[i].id && a[i].username == b[i].username &&
      a[i].password == b[i].password && a[i].email == b[i].email
  }

  /** Lookups by key, username or email only look at those columns. */
  lemma {:induction false} FindUserSameCredentials(a: seq<User>, b: seq<User>, key: UserKey)
    requires SameCredentials(a, b)
    ensures FindUser(a, key) == FindUser(b, key)
  {
    if |a| > 0 {
      assert Matches(a[0], key) == Matches(b[0], key);
      FindUserSameCredentials(a[1..], b[1..], key);
    }
  }

  /** In a table whose keys are unique, the user found by key `uid` is the only
      row with that key. */
  lemma FoundByIdIsOnly(users: seq<User>, uid: UserId, i: nat)
    requires Unique(users)
    requires FindUser(users, ById(uid)).Some?
    requires i < |users| && users[i].id == uid
    ensures FindUser(users, ById(uid)) == Some(i)
  {
    assert Matches(users[i], ById(uid));
  }

  /** `X.query.filter_by(user_id=uid).all()`: the rows owned by `uid`, in table
      order. */
  function Owned<E>(rows: seq<LogRow<E>>, uid: UserId): seq<LogRow<E>> {
    if |rows| == 0 then []
    else Owned(rows[..|rows| - 1], uid) + (if rows[|rows| - 1].userId == uid then [rows[|rows| - 1]] else [])
  }

  /** The list holds every row of `uid` and no row of anyone else: one user
      never sees another user's rows. */
  lemma {:induction false} OwnedExactly<E>(rows: seq<LogRow<E>>, uid: UserId)
    ensures forall x :: x in Owned(rows, uid) ==> x in rows && x.userId == uid
    ensures forall i :: 0 <= i < |rows| && rows[i].userId == uid ==> rows[i] in Owned(rows, uid)
  {
    if |rows| > 0 {
      var pre, last := rows[..|rows| - 1], rows[|rows| - 1];
      assert rows == pre + [last];
      OwnedExactly(pre, uid);
    }
  }

  /** A new row shows up at the end of its owner's list and nowhere else:
      the list of any other user is unchanged. */
  lemma OwnedAppend<E>(rows: seq<LogRow<E>>, x: LogRow<E>, uid: UserId)
    ensures Owned(rows + [x], uid) == Owned(rows, uid) + (if x.userId == uid then [x] else [])
  {
    assert (rows + [x])[..|rows|] == rows;
  }

  /** Keys of a log table ascend in insertion order and stay below the
      table's next key. */
  ghost predicate Ascending<E>(rows: seq<LogRow<E>>, next: nat) {
    (forall i, j :: 0 <= i < j < |rows| ==> rows[i].id < rows[j].id) &&
    (forall x :: x in rows ==> x.id < next)
  }

  /** Every row of a log table is owned by an existing user (the foreign key). */
  ghost predicate OwnersExist<E>(rows: seq<LogRow<E>>, users: seq<User>) {
    forall x :: x in rows ==> HasUser(users, x.userId)
  }

  /** Appending a row that takes the next key and is owned by an existing
      user keeps the log table's key order and its foreign key. */
  lemma LogAppendKeepsKeys<E>(rows: seq<LogRow<E>>, next: nat, users: seq<User>, x: LogRow<E>)
    requires Ascending(rows, next) && OwnersExist(rows, users)
    requires x.id == next && HasUser(users, x.userId)
    ensures Ascending(rows + [x], next + 1) && OwnersExist(rows + [x], users)
  {
    var t := rows + [x];
    forall i, j | 0 <= i < j < |t| ensures t[i].id < t[j].id {
      assert t[i] in rows;
      if j < |rows| { assert t[j] == rows[j]; }
    }
  }
}
