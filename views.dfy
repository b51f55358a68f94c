/** The request handlers that change the store: registration, habit creation
    and the submission of a day's progress. The database is the object `Store`;
    each handler is a method that returns the outcome it reports. */
module Views {
  import opened Models

  class Store {
    /** Registered users: username to the password they registered with. */
    var users: map<string, string>
    var profiles: seq<Profile>
    var habits: seq<Habit>
    var progress: seq<DailyProgress>
    /** The id the next saved habit receives. */
    var nextHabitId: nat

    /** What every handler keeps true of the store. */
    ghost predicate Valid()
      reads this
    {
      && (forall p | p in profiles :: p.user in users)
      && (forall i, j | 0 <= i < j < |profiles| :: profiles[i].user != profiles[j].user)
      && (forall h | h in habits ::
            h.owner in users && h.id < nextHabitId && h.endDate == h.startDate + HabitWindowDays)
      && (forall i, j | 0 <= i < j < |habits| :: habits[i].id != habits[j].id)
      && (forall p | p in progress :: HasHabit(habits, p.habit))
      && AllCompleted(progress)
      && OnePerDay(progress)
    }

    constructor ()
      ensures Valid()
      ensures users == map[] && profiles == [] && habits == [] && progress == []
    {
      users := map[];
      profiles := [];
      habits := [];
      progress := [];
      nextHabitId := 1;
    }

    /** Registration: a password mismatch is rejected first, then a taken username;
        otherwise one user and its profile are created. */
    method Register(username: string, lastName: string, password: string, confirmPassword: string)
      returns (o: Outcome)
      requires Valid()
      modifies this
      ensures Valid()
      ensures password != confirmPassword ==> o == PasswordMismatch
      ensures password == confirmPassword && username in old(users) ==> o == UserExists
      ensures password == confirmPassword && username !in old(users) ==> o == Ok
      ensures o == Ok ==>
        users == old(users)[username := password] &&
        profiles == old(profiles) + [Profile(username, username, lastName)]
      ensures o != Ok ==> users == old(users) && profiles == old(profiles)
      ensures habits == old(habits) && progress == old(progress) && nextHabitId == old(nextHabitId)
    {
      if password != confirmPassword {
        return PasswordMismatch;
      }
      if username in users {
        return UserExists;
      }
      users := users[username := password];
      profiles := profiles + [Profile(username, username, lastName)];
      o := Ok;
    }

    /** Habit creation for the logged-in `user`: on a valid form the habit starts
        `today` and ends 40 days later; an invalid form stores nothing. */
    method AddHabit(user: string, name: string, formValid: bool, today: int)
      returns (o: Outcome)
      requires Valid()
      requires user in users
      modifies this
      ensures Valid()
      ensures o == (if formValid then Ok else InvalidForm)
      ensures o == Ok ==>
        habits == old(habits) + [Habit(old(nextHabitId), user, name, today, today + HabitWindowDays)] &&
        nextHabitId == old(nextHabitId) + 1
      ensures o != Ok ==> habits == old(habits) && nextHabitId == old(nextHabitId)
      ensures users == old(users) && profiles == old(profiles) && progress == old(progress)
    {
      if !formValid {
        return InvalidForm;
      }
      var start := today;
      var habit := Habit(nextHabitId, user, name, start, start + HabitWindowDays);
      habits := habits + [habit];
      nextHabitId := nextHabitId + 1;
      o := Ok;
      assert forall p | p in progress :: HasHabit(habits, p.habit) by {
        forall p | p in progress ensures HasHabit(habits, p.habit) {
          var h :| h in old(habits) && h.id == p.habit;
          assert h in habits;
        }
      }
    }

    /** A progress submission for habit `habitId` on day `today`. The habit must
        exist; then an invalid form, an unchecked box and a record already made
        today are rejected in that order; otherwise one completed record dated
        today is stored. Whose habit it is is not checked. */
    method SubmitProgress(habitId: nat, completed: bool, formValid: bool, today: int)
      returns (o: Outcome)
      requires Valid()
      modifies this
      ensures Valid()
      ensures !HasHabit(habits, habitId) ==> o == HabitNotFound
      ensures HasHabit(habits, habitId) && !formValid ==> o == InvalidForm
      ensures HasHabit(habits, habitId) && formValid && !completed ==> o == NotChecked
      ensures HasHabit(habits, habitId) && formValid && completed ==>
        o == (if old(LoggedOn(progress, habitId, today)) then AlreadyLogged else Ok)
      ensures o == Ok ==> progress == old(progress) + [DailyProgress(habitId, today, true)]
      ensures o != Ok ==> progress == old(progress)
      ensures users == old(users) && profiles == old(profiles)
      ensures habits == old(habits) && nextHabitId == old(nextHabitId)
    {
      if !HasHabit(habits, habitId) {
        return HabitNotFound;
      }
      var todayProgress := LoggedOn(progress, habitId, today);
      if !formValid {
        return InvalidForm;
      }
      var record := DailyProgress(habitId, today, completed);
      if !record.completed {
        return NotChecked;
      } else if todayProgress {
        return AlreadyLogged;
      }
      AppendKeepsOnePerDay(progress, record);
      progress := progress + [record];
      o := Ok;
    }
  }

  /** Submitting the same habit's progress twice on one day: the second attempt
      is turned away and the store holds one record for that day. */
  method SubmitTwice(store: Store, habitId: nat, today: int) returns (first: Outcome, second: Outcome)
    requires store.Valid() && HasHabit(store.habits, habitId)
    modifies store
    ensures store.Valid()
    ensures first == Ok <==> !old(LoggedOn(store.progress, habitId, today))
    ensures second == AlreadyLogged
    ensures LoggedOn(store.progress, habitId, today)
  {
    first := store.SubmitProgress(habitId, true, true, today);
    assert LoggedOn(store.progress, habitId, today) by {
      LoggedOnMeansRecordExists(store.progress, habitId, today);
      if first == Ok {
        assert store.progress[|store.progress| - 1] == DailyProgress(habitId, today, true);
      }
    }
    second := store.SubmitProgress(habitId, true, true, today);
  }
}
