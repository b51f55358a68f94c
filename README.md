# Habit tracker: a model of the request handlers

This project models the business rules of the habit tracker's Django views
(`habits/views.py`) in Dafny. Users register, create habits with a fixed
40-day tracking window, log one completed record per habit per day, and page
through their habits on the home page.

The database becomes the object `Views.Store`, which holds:

- registered users, as a map from username to the submitted password;
- their profiles;
- habits;
- daily-progress records.

Each handler that writes to the database is a method on that object. It
returns an `Outcome` in place of the flash message, redirect or re-render:
`Ok`, `PasswordMismatch`, `UserExists`, `NotChecked`, `AlreadyLogged`,
`InvalidForm`, or `HabitNotFound`.

The object invariant `Store.Valid()` is kept by every handler. It states:

- every profile belongs to an existing user, and no user has two profiles;
- every habit is owned by an existing user and ends 40 days after it starts;
- habit ids are distinct;
- every progress record points at an existing habit, is marked completed, and
  is the only record for its (habit, date) pair.

The home page is pure. The user's habits are filtered out of the store,
ordered newest start date first, split into pages of five, and the requested
page number is clamped into range.

Dates are whole day numbers, and the current day is a parameter (`today`).
Form validity, which Django's form classes decide, is a boolean input.

Modules:

- `Models` (models.dfy): the records, the outcomes, and the predicates that
  several handlers share.
- `Paging` (paging.dfy): the part of Django's paginator the home page uses.
- `Home` (home.dfy): the home listing and page.
- `Chart` (chart.dfy): the series plotted on the daily-progress page.
- `Views` (views.dfy): the store and its handlers.

## Model

| member | source | states |
|---|---|---|
| Models.RecordsOf | HABIT_TRACKER/habit_tracker/habits/views.py:171 | A habit's progress records are exactly the stored records that point at that habit, each as often as the store holds it. |
| Models.LoggedOnMeansRecordExists | HABIT_TRACKER/habit_tracker/habits/views.py:168 | The "already logged today" check holds iff some stored record has this habit and today's date. |
| Models.AppendKeepsOnePerDay | HABIT_TRACKER/habit_tracker/habits/views.py:199-203 | Saving a record only when no record exists for that habit and date keeps at most one record per (habit, date). |
| Paging.NumPages | HABIT_TRACKER/habit_tracker/habits/views.py:232 | There is always at least one page. Every page but the last is full, and the pages together hold all the items. |
| Paging.Page | HABIT_TRACKER/habit_tracker/habits/views.py:235 | Page k is the run of at most 5 consecutive items that starts at index 5(k-1). Every page before the last holds exactly 5 items, and the last page ends at the end of the listing. |
| Paging.Pages | HABIT_TRACKER/habit_tracker/habits/views.py:232 | The paginator has one page per page number, 1 up to the page count. |
| Paging.PagesPartition | HABIT_TRACKER/habit_tracker/habits/views.py:232 | The pages, read in order, give back the whole listing, and none holds more than 5 items. |
| Paging.ChoosePage | HABIT_TRACKER/habit_tracker/habits/views.py:231-239 | The chosen page is always in 1..num_pages. A missing or non-integer parameter gives page 1. An integer outside 1..num_pages (zero and negative numbers included) gives the last page. Any other integer is returned unchanged. |
| Home.Owned | HABIT_TRACKER/habit_tracker/habits/views.py:229 | The filter keeps exactly the habits owned by the user, each as often as the store holds it, and no other habit. |
| Home.Insert | HABIT_TRACKER/habit_tracker/habits/views.py:229 | Inserting one habit into a newest-first sequence keeps it newest-first and adds exactly that habit. |
| Home.SortNewestFirst | HABIT_TRACKER/habit_tracker/habits/views.py:229 | The `-start_date` ordering gives a permutation of its input, ordered by start date non-increasing. |
| Home.ListingIsUsersHabits | HABIT_TRACKER/habit_tracker/habits/views.py:229 | The home listing holds each of the user's habits as often as the store does and no other habit, in newest-first order. |
| Home.HomePage | HABIT_TRACKER/habit_tracker/habits/views.py:229-241 | The page number shown is the clamped request (`ChoosePage`), so it is in 1..num_pages. The items are that page of the user's listing, at most 5 habits. |
| Home.HomeShowsOnlyOwnHabits | HABIT_TRACKER/habit_tracker/habits/views.py:229-235 | Every habit shown on the home page is in the store and owned by the requesting user. |
| Home.HomePagesCoverListing | HABIT_TRACKER/habit_tracker/habits/views.py:229-232 | The home pages, read in order, give back the whole listing of the user's habits. |
| Chart.ChartSeries | HABIT_TRACKER/habit_tracker/habits/views.py:171-173 | The date series and the completion series have one entry per record. Entry i of each comes from record i. |
| Chart.RecordsOfOnePerDay | HABIT_TRACKER/habit_tracker/habits/views.py:168-171 | If the store has at most one record per (habit, date), so does a single habit's history. |
| Chart.ChartOfHabit | HABIT_TRACKER/habit_tracker/habits/views.py:171-173 | On a store the handlers maintain, a habit's chart has pairwise distinct dates and every point marked complete. |
| Views.Store.Register | HABIT_TRACKER/habit_tracker/habits/views.py:84-104 | The password mismatch is checked first and changes nothing, even for a taken username. A taken username changes nothing. Otherwise exactly one user and its profile (first name = username) are added. Habits and records are unchanged, and the store invariant is kept. |
| Views.Store.AddHabit | HABIT_TRACKER/habit_tracker/habits/views.py:128-137 | An invalid form stores nothing. A valid form appends one habit owned by the requesting user, with start = today and end = start + 40, under a fresh id. Nothing else changes, and the store invariant is kept. |
| Views.Store.SubmitProgress | HABIT_TRACKER/habit_tracker/habits/views.py:164-205 | Checks in order: missing habit, invalid form, unchecked box, record already made today. Each of these stores nothing. Otherwise exactly one record (habit, today, completed) is appended. Habit ownership is not checked. The invariant is kept, so at most one record per (habit, date) exists and all records are completed. |
| Views.SubmitTwice | HABIT_TRACKER/habit_tracker/habits/views.py:185-205 | Two submissions for one habit on one day: the first succeeds iff nothing was logged that day. The second is always rejected as `AlreadyLogged`. |

## Left out

- `login_user`, `welcome` and `about_us` are left out. Credential checking, the session and plain template renders have no business rule to model.
- The GET branches of `register_user`, `add_habit` and `daily_progress` are left out. They render forms and the chart and write nothing to the store.
- Password hashing inside `create_user` is left out. The store keeps the submitted password as the credential.
- Logging the new user in after registration is left out. The model has no session.
- Views.Store.Register: does not model the case where a POST field is missing (Python `None`). It also does not model `create_user` rejecting an empty username. Nor does it model the Unicode NFKC normalization that `create_user` applies to the stored username, while the lookup and the profile's first name use the raw string. Under it, a new name whose normalized form is already taken ends in an unhandled uniqueness error with nothing created, where the model returns `Ok`; and a name NFKC changes is stored normalized as the username but raw as the first name, where the model stores it raw in both. All three are Django library behaviour; every field is taken to be a string.
- Usernames are compared exactly. A database collation that compares them case-insensitively is not modelled.
- Views.Store.AddHabit: takes `formValid` as given. The name field's validation belongs to Django's `ModelForm`.
- Views.Store.SubmitProgress: returns `HabitNotFound` and changes nothing where the source lets `Habit.objects.get` raise an unhandled error. The view requires a logged-in user but never uses who it is, since there is no ownership check. So the method takes no user.
- Chart.ChartSeries: takes a habit's records in store order. The source reads them with no `order_by`, so the database decides that order.
- The chart's dates are day numbers, not `dd-mm-YYYY` strings. Plotting, PNG rendering and base64 encoding are left out.
- The race between the "already logged today" check and the save is left out. Two concurrent submissions could both pass the check, and the model is sequential.
- Home.SortNewestFirst: its contract does not fix the order of habits with equal start dates; the function keeps them in store order. The model builds one listing and slices every page from it, so all pages share one order for such ties. In the source each page is a separate request running its own query with an offset, ordered only by `start_date`, and `order_by('-start_date')` does not promise that tied rows come back in the same order from one query to the next. Ties are common, because every habit added on the same day gets the same start date. So `Paging.PagesPartition` and `Home.HomePagesCoverListing` hold for the source only if the database orders ties the same way on every request; otherwise a habit can appear on two pages and another on none.
- Paging.ChoosePage: does not model Python's conversion of the query string to an integer. The parameter arrives already classified as absent, an integer, or not an integer.
- The paginator's other options, orphans and disallowing an empty first page, are left out. The view uses their defaults.
- The date arithmetic works on day numbers. Calendar overflow of Python's `date` type is not modelled.
