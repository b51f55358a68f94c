/** The records of the habit tracker's store and the rules they share.
    Dates are whole day numbers; a user is known by the username. */
module Models {

  /** Length of a habit's tracking window, in days. */
  const HabitWindowDays: int := 40

  /** The profile row created alongside a user. */
  datatype Profile = Profile(user: string, firstName: string, lastName: string)

  /** A tracked behaviour owned by one user, with its fixed tracking window. */
  datatype Habit = Habit(id: nat, owner: string, name: string, startDate: int, endDate: int)

  /** One day's completion record for a habit. */
  datatype DailyProgress = DailyProgress(habit: nat, date: int, completed: bool)

  /** What a request handler reports: the flash message or re-render it ends with. */
  datatype Outcome =
    | Ok
    | PasswordMismatch
    | UserExists
    | NotChecked
    | AlreadyLogged
    | InvalidForm
    | HabitNotFound

  /** The progress records of one habit, in store order. */
  function RecordsOf(records: seq<DailyProgress>, habitId: nat): (r: seq<DailyProgress>)
    ensures |r| <= |records|
    ensures forall p :: p in r <==> p in records && p.habit == habitId
    ensures forall p :: multiset(r)[p] == if p.habit == habitId then multiset(records)[p] else 0
  {
    if records == [] then []
    else
      assert records == [records[0]] + records[1..];
      if records[0].habit == habitId then [records[0]] + RecordsOf(records[1..], habitId)
      else RecordsOf(records[1..], habitId)
  }

  /** Whether the habit already has a record dated `today`. */
  predicate LoggedOn(records: seq<DailyProgress>, habitId: nat, today: int)
  {
    exists p | p in RecordsOf(records, habitId) :: p.date == today
  }

  /** At most one record per (habit, date). */
  predicate OnePerDay(records: seq<DailyProgress>)
  {
    forall i, j | 0 <= i < j < |records| ::
      records[i].habit != records[j].habit || records[i].date != records[j].date
  }

  /** Every record holds a checked box. */
  predicate AllCompleted(records: seq<DailyProgress>)
  {
    forall p | p in records :: p.completed
  }

  /** Whether a habit with this id is stored. */
  predicate HasHabit(habits: seq<Habit>, habitId: nat)
  {
    exists h | h in habits :: h.id == habitId
  }

  /** The today-exists check asks whether some stored record has this habit and date. */
  lemma LoggedOnMeansRecordExists(records: seq<DailyProgress>, habitId: nat, today: int)
    ensures LoggedOn(records, habitId, today) <==>
            exists i | 0 <= i < |records| :: records[i].habit == habitId && records[i].date == today
  {
  }

  /** Appending a record for a (habit, day) pair not yet logged keeps one record per day. */
  lemma AppendKeepsOnePerDay(records: seq<DailyProgress>, p: DailyProgress)
    requires OnePerDay(records)
    requires !LoggedOn(records, p.habit, p.date)
    ensures OnePerDay(records + [p])
  {
  }
}
