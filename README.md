# Fitness tracker: a verified model of the request handlers

The system is a small Flask web application. It tracks a user's workouts,
meals and exercise. A visitor registers with a username, a password and an
email address, then logs in. A logged-in user can:

- set their height and weight on the profile page;
- post and list workouts, diet logs and exercise logs;
- open an analysis page that charts calories eaten and burned per day.

All state lives in four database tables (users, workouts, diet logs,
exercise logs) and in the session cookie's `user_id`.

This project replaces the database with in-memory sequences kept in insertion
order, and the cookie with an optional user key. The `.all()` queries of the
source carry no `ORDER BY`; the model takes them to return rows in insertion
order. Both the order of a listed page and which log of a day "comes last"
in the analysis mappings rest on that choice. The handlers become methods
of one class, `App.Server`. Each method changes only the tables its route
writes. Each is proved against a contract that states the new tables, the
new session and the response. The response is a tag:

- a redirect to a page, with the notice flashed on the way; or
- a rendered view, with the data the template receives.

The modules:

- `Schema` (schema.dfy):
  - the rows of the four tables;
  - the lookups `User.query.filter_by(...).first()` and `User.query.get(...)` (`FindUser`);
  - the per-user listing `filter_by(user_id=...).all()` (`Owned`);
  - the table constraints: unique keys, usernames and emails, and ascending log keys whose owners exist.
- `Web` (web.dfy): the responses and the session check. The check comes in two forms:
  - the `login_required` decorator, which flashes a notice;
  - the inline checks, which redirect silently.
- `Analysis` (analysis.dfy): the two dictionary comprehensions of the
  analysis page. They are written as `LastWins` over the (day, value) pairs of
  the user's logs, so a later log of the same day overwrites an earlier one.
- `App` (app.dfy): the application state and its handlers. `Valid()` is the
  invariant every handler keeps:
  - usernames, emails and keys are unique;
  - the session user exists;
  - log keys ascend;
  - every log row's owner exists.
- `Scenarios` (scenarios.dfy): short request sequences. They show what a
  client can conclude from the handlers' contracts alone: a logged meal
  appears in the list and the chart, and one user does not see another's logs.

The password hasher is not part of the model. It is two function values fixed
when the application is built:

- `hash(salt, password)` gives a `Digest`;
- `check(digest, password)` verifies a password against a digest.

They are tied together by `HashVerifies`: a hash verifies against the password
it was made from. `Digest` and `Password` are different types, so the users
table cannot hold a plaintext password. The salt the hasher draws at random
is a parameter of `Register`.

## Model

| member | source | states |
|---|---|---|
| Schema.FindUser | main.py:114 | the first row matching the key, if any: the row matches, no earlier row does, and None exactly when no row matches |
| Schema.AdmitKeepsUnique | main.py:80-96 | appending a user whose username and email are both absent and whose key is new keeps usernames, emails and keys unique |
| Schema.FindUserAppend | main.py:90-100 | after an insert, a lookup still finds the earlier match; it finds the new row only if nothing earlier matched |
| Schema.HasUserAppend | main.py:96-98 | after an insert, a key exists if and only if it existed before or is the new row's key |
| Schema.FindUserSameCredentials | main.py:148-153 | lookups by key, username or email give the same answer on two tables that agree on those columns and the stored hash |
| Schema.FoundByIdIsOnly | main.py:148 | with unique keys, `User.query.get(uid)` finds the one row carrying key `uid` |
| Schema.OwnedExactly | main.py:176 | a user's list holds every row that user owns and no row of anyone else |
| Schema.OwnedAppend | main.py:165-176 | a new row is added at the end of its owner's list; every other user's list is unchanged |
| Schema.Unique | main.py:21-24 | the primary key and the `unique=True` username and email columns: keys ascend in insertion order, usernames and emails differ pairwise; hence a key names at most one row |
| Schema.Owned | main.py:176 | `filter_by(user_id=uid).all()` (also main.py:196, 213, 223-224): the rows owned by `uid` in table order; `Schema.OwnedExactly` proves it holds all of that user's rows and no one else's, and `Schema.OwnedAppend` how it grows |
| Schema.LogAppendKeepsKeys | main.py:165-174 | appending a row with the next key and an existing owner keeps the log keys ascending and every owner existing |
| Web.Denied | main.py:132-134 | a request without a session user is redirected to the login page; only the decorated form flashes a notice |
| Web.Guard | main.py:130-137 | without a session user the handler is not consulted and the answer is the login redirect; with one, the answer is exactly the handler's answer for that user |
| Web.Index | main.py:139-143 | the root page redirects to the profile if and only if someone is logged in, otherwise to the login page, flashing nothing |
| Analysis.LastWins | main.py:227-228 | the keys of a comprehension-built dictionary are exactly the keys of its pairs |
| Analysis.LastWinsValue | main.py:227-228 | the value under a key is that of the last pair carrying the key |
| Analysis.ByDay | main.py:227-228 | a comprehension over the user's logs in table order, each storing its value under its day; its key set and values are stated by `Analysis.ByDayKeys` and `Analysis.ByDayLast` |
| Analysis.DietData | main.py:227 | `diet_data`: `Analysis.ByDay` over the diet logs with each log's calories |
| Analysis.ExerciseData | main.py:228 | `exercise_data`: `Analysis.ByDay` over the exercise logs with each log's calories burned |
| Analysis.ByDayAppend | main.py:227-228 | a new row of the user stores its value under its day and replaces any earlier value; a row of another user changes nothing |
| Analysis.ByDayKeys | main.py:227-228 | the days in `diet_data` and `exercise_data` are exactly the days of the user's logs |
| Analysis.ByDayLast | main.py:227-228 | the value for a day is that of the user's last log with that day in table order |
| Analysis.SameDayKeepsLater | main.py:227 | two meals of the user on the same day: the chart holds the later one's calories, not their sum |
| App.Admissible | main.py:80-87 | a registration goes ahead if and only if no row has the form's username and no row has its email |
| App.NewUser | main.py:90-94 | the row a registration inserts: the form's username and email, the hash of the password in place of the password, no height or weight; `App.RegisteredCanLogIn` states what it guarantees |
| App.Authenticate | main.py:114-116 | a login identifies a user only if that user's username and stored hash match the form; with unique usernames, a matching user is always identified |
| App.RegisteredCanLogIn | main.py:90-100 | a user who has just registered can log in with the password they chose and gets their own key |
| App.Remeasured | main.py:150-151 | the profile update keeps the table's length, changes nothing when no row has key `uid`, and leaves every row with another key as it was |
| App.Stamp | main.py:165-172 | the row a posted log form adds (also main.py:184-192, 204-209): owned by the session user, with the table's next key and the posted date and columns |
| App.RemeasuredOnlyOwner | main.py:148-151 | the profile form rewrites the height and weight of the session user's row and changes no other row or column |
| App.RemeasuredKeepsCredentials | main.py:148-153 | a profile update changes no key, username, hash or email, so it changes no login outcome |
| App.KeepsUniqueAndOwners | main.py:148-153 | a profile update keeps the table constraints, the session user and every log row's owner |
| App.Server.Valid | main.py:19-59 | the invariant every handler keeps: the users table's constraints, keys below the next autoincrement value, ascending log keys, every log row's owner present, and a session user who is a row of the users table |
| App.Server.constructor | main.py:243-245 | the tables `db.create_all` makes are empty, every autoincrement counter starts at 1, and no one is logged in |
| App.Server.Register | main.py:72-107 | a GET shows the form. A taken username is refused before the email is checked, then a taken email is refused. Otherwise one user is appended with the salted hash, no height or weight and the next key, unless the commit fails. The session is untouched. `Valid()` is kept |
| App.Server.Login | main.py:109-121 | a GET shows the form. The session becomes the identified user's key exactly when `Authenticate` identifies one. Otherwise the form is shown again with an error and the session is left as it was |
| App.Server.Logout | main.py:123-127 | afterwards no one is logged in, whatever the session held, and the answer is the login redirect with its notice |
| App.Server.Profile | main.py:145-158 | without a session user: the decorated redirect and no change. With one: a committed POST stores `Remeasured` of the table; the page shows that user's stored row with the matching notice |
| App.Server.Workout | main.py:160-177 | without a session user nothing changes. With one, a POST appends exactly one row owned by that user with the next key. The page lists that user's rows in table order |
| App.Server.Diet | main.py:179-197 | the same as `Workout`, over the diet log table |
| App.Server.Exercise | main.py:199-214 | the same as `Workout`, over the exercise log table |
| App.Server.AnalysisPage | main.py:216-236 | behind the inline session check, the page receives the session user's day-to-calories and day-to-calories-burned mappings |
| Scenarios.AliceLogsAMeal | main.py:179-228 | after registering, logging in and posting one meal, the diet list is exactly that meal and the chart maps its day to its calories |
| Scenarios.DuplicatesRefused | main.py:80-87 | re-registering a taken username, or a new username with a taken email, is refused with the matching notice and adds no user |
| Scenarios.OthersSeeNothing | main.py:160-177 | after alice posts a workout and logs out, bob registers, logs in and sees an empty workout list |
| Scenarios.LoggedOutIsLockedOut | main.py:123-163 | after logout every guarded page redirects to login and changes no table; a second logout changes nothing |

## Left out

- Web plumbing: routing, templates, flash message texts (each message is a tag of `Notice`), `url_for`, the 404 handler and `app.run`.
- Password hashing: `generate_password_hash` and `check_password_hash` are outside the model. They become the function values `hash` and `check`, related only by `HashVerifies`. The random salt is a parameter.
- Form parsing: `datetime.strptime`, the `type=float` and `type=int` coercions and `json.dumps` are library code. Dates arrive as `(year, month, day)`. A field read with `request.form.get(..., type=...)` that is missing or does not parse arrives as `None`.
- Missing required form fields: `request.form[...]` raises when the field is absent, and the request ends with a 400 answer and no change. This applies to `username`, `password` and `email` (main.py:75-77, 112-113), `date` (main.py:167, 186, 206), `exercise_type` (main.py:168) and `foodName` (main.py:187). A malformed `date` likewise makes `strptime` raise. The model's `Registration`, `Credentials`, `Posted` dates, `WorkoutEntry.exerciseType` and `DietEntry.foodName` are always present and well formed, so it has no such input and no such error path.
- Analysis.ByDay, Analysis.DietData, Analysis.ExerciseData: the source's dictionaries keep their keys in insertion order. A day sits where the user's first log of that day put it, even though its value comes from the last such log. `json.dumps` (main.py:235-236) hands the chart the days in that order. The model's `map` has no order, so it records which days appear and their values, but not the order in which the chart receives them.
- `str(log.date.date())`: a day is keyed by the `Date` value. Two logs share a key exactly when their dates are the same day.
- Floating-point columns (height, weight, calories, ...) are the abstract type `Quantity`, because the application stores and returns them without computing with them.
- `created_at` timestamps, the debug `print` calls and the unused `HealthGoal` table.
- Schema.Matches, Schema.Unique: usernames and emails are compared by exact string equality, in the lookups (main.py:80, 85, 114) and in the unique columns (main.py:22, 24). In the source the database compares them, and MySQL's default collations ignore case and, depending on the server's collation, accents or trailing spaces (so "josé" may be refused once "jose" exists). There, "Alice" is refused once "alice" exists, and logging in as "ALICE" finds alice; the model accepts that registration and refuses that login. Its guarantees hold for a binary (exact) collation.
- The MySQL configuration, and the cascade-delete foreign keys: no handler deletes anything. `db.create_all` is the constructor of `App.Server`.
- The column length limits `String(80)`, `String(120)` and `String(100)`: a database rejection on commit is modelled only through the `committed` flag of `Register` and `Profile`.
- App.Server.Register: a rolled-back insert does not consume an autoincrement key in the model, whereas the database may consume one.
- App.Server.Workout, App.Server.Diet, App.Server.Exercise: the commit in these handlers is not wrapped in `try`; a failure there aborts the request with an error page and is not modelled.
- App.Server.Profile: `User.query.get` returning no user (the session naming a deleted user) cannot happen under `Valid()`, so the model does not represent that path, where the source would fail on `user.height`.
- App.Server.AnalysisPage: the handler also looks up the session user (main.py:220) but never uses that user; the lookup is not modelled.
- App.Server.Workout, App.Server.Diet, App.Server.Exercise: their contracts state the rendered list as `Owned` of the new table. That the list holds exactly the user's rows, and that a post leaves other users' lists unchanged, is proved separately in `Schema.OwnedExactly` and `Schema.OwnedAppend`. This keeps each handler's proof small.
- Concurrent requests and sessions of several browsers: the model has one session and handles one request at a time.
