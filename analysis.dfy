/** The analysis view's aggregation: each of the current user's diet (and
    exercise) logs contributes its day and its calories (or calories burned)
    to a dictionary built by a comprehension, so when two logs share a day
    the one iterated later overwrites the earlier one; nothing is summed. */
module Analysis {
  import opened Schema

  /** A dictionary comprehension over `ps` in order: each pair stores its value
      under its key, overwriting whatever an earlier pair stored there. */
  function LastWins<K(==), V>(ps: seq<(K, V)>): (m: map<K, V>)
    ensures m.Keys == set p | p in ps :: p.0
  {
    if |ps| == 0 then map[]
    else
      var pre, last := ps[..|ps| - 1], ps[|ps| - 1];
      assert ps == pre + [last];
      LastWins(pre)[last.0 := last.1]
  }

  /** The value under a key is that of the LAST pair carrying the key. */
  lemma {:induction false} LastWinsValue<K, V>(ps: seq<(K, V)>, i: nat)
    requires i < |ps|
    requires forall j :: i < j < |ps| ==> ps[j].0 != ps[i].0
    ensures ps[i].0 in LastWins(ps) && LastWins(ps)[ps[i].0] == ps[i].1
  {
    if i < |ps| - 1 {
      var pre := ps[..|ps| - 1];
      assert pre[i] == ps[i];
      LastWinsValue(pre, i);
    }
  }

  /** The (day, value) pairs of a sequence of log rows, in order. */
  function Points<E, V>(rows: seq<LogRow<E>>, value: E -> V): seq<(Date, V)> {
    seq(|rows|, i requires 0 <= i < |rows| => (rows[i].date, value(rows[i].entry)))
  }

  lemma PointsAppend<E, V>(rows: seq<LogRow<E>>, x: LogRow<E>, value: E -> V)
    ensures Points(rows + [x], value) == Points(rows, value) + [(x.date, value(x.entry))]
  {
  }

  lemma LastWinsAppend<K, V>(ps: seq<(K, V)>, p: (K, V))
    ensures LastWins(ps + [p]) == LastWins(ps)[p.0 := p.1]
  {
    assert (ps + [p])[..|ps|] == ps;
  }

  /** `{str(log.date.date()): value(log) for log in logs}` where `logs` are the
      rows of the table owned by `uid`. */
  function ByDay<E, V>(rows: seq<LogRow<E>>, uid: UserId, value: E -> V): map<Date, V> {
    LastWins(Points(Owned(rows, uid), value))
  }

  /** A row of another user leaves the mapping as it was; a row of the user
      stores its value under its day, replacing any earlier value. */
  lemma ByDayAppend<E, V>(rows: seq<LogRow<E>>, x: LogRow<E>, uid: UserId, value: E -> V)
    ensures ByDay(rows + [x], uid, value) ==
      if x.userId == uid then ByDay(rows, uid, value)[x.date := value(x.entry)]
      else ByDay(rows, uid, value)
  {
    OwnedAppend(rows, x, uid);
    var os := Owned(rows, uid);
    if x.userId == uid {
      calc {
        ByDay(rows + [x], uid, value);
        LastWins(Points(os + [x], value));
        { PointsAppend(os, x, value); }
        LastWins(Points(os, value) + [(x.date, value(x.entry))]);
        { LastWinsAppend(Points(os, value), (x.date, value(x.entry))); }
        LastWins(Points(os, value))[x.date := value(x.entry)];
      }
    } else {
      assert os + [] == os;
      assert Owned(rows + [x], uid) == os;
    }
  }

  /** The days in the mapping are exactly the days of the user's rows. */
  lemma {:induction false} ByDayKeys<E, V>(rows: seq<LogRow<E>>, uid: UserId, value: E -> V)
    ensures ByDay(rows, uid, value).Keys == set x | x in rows && x.userId == uid :: x.date
  {
    if |rows| > 0 {
      var pre, last := rows[..|rows| - 1], rows[|rows| - 1];
      assert rows == pre + [last];
      ByDayAppend(pre, last, uid, value);
      ByDayKeys(pre, uid, value);
    }
  }

  /** The value stored for a day is that of the user's LAST row with that day
      in table order. */
  lemma {:induction false} ByDayLast<E, V>(rows: seq<LogRow<E>>, uid: UserId, value: E -> V, i: nat)
    requires i < |rows| && rows[i].userId == uid
    requires forall j :: i < j < |rows| && rows[j].userId == uid ==> rows[j].date != rows[i].date
    ensures rows[i].date in ByDay(rows, uid, value)
    ensures ByDay(rows, uid, value)[rows[i].date] == value(rows[i].entry)
  {
    var pre, last := rows[..|rows| - 1], rows[|rows| - 1];
    assert rows == pre + [last];
    ByDayAppend(pre, last, uid, value);
    if i < |rows| - 1 {
      ByDayLast(pre, uid, value, i);
    }
  }

  function CaloriesOf(e: DietEntry): Option<Quantity> { e.calories }
  function BurnedOf(e: ExerciseEntry): Option<Quantity> { e.caloriesBurned }

  /** `diet_data`: day to calories over the user's diet logs. */
  function DietData(logs: seq<LogRow<DietEntry>>, uid: UserId): map<Date, Option<Quantity>> {
    ByDay(logs, uid, CaloriesOf)
  }

  /** `exercise_data`: day to calories burned over the user's exercise logs. */
  function ExerciseData(logs: seq<LogRow<ExerciseEntry>>, uid: UserId): map<Date, Option<Quantity>> {
    ByDay(logs, uid, BurnedOf)
  }

  /** Two diet logs of the user on the same day: the chart keeps the later
      one's calories, it does not add them up. */
  lemma SameDayKeepsLater(logs: seq<LogRow<DietEntry>>, a: LogRow<DietEntry>, b: LogRow<DietEntry>)
    requires a.userId == b.userId && a.date == b.date
    ensures DietData(logs + [a, b], a.userId) == DietData(logs, a.userId)[a.date := b.entry.calories]
  {
    assert logs + [a, b] == (logs + [a]) + [b];
    ByDayAppend(logs, a, a.userId, CaloriesOf);
    ByDayAppend(logs + [a], b, a.userId, CaloriesOf);
  }
}
