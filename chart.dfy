/** The data behind the progress chart of the daily-progress page: one point
    per record of the habit, its date against its completion flag. */
module Chart {
  import opened Models

  /** The two series handed to the plot, in the order of the records. */
  datatype Series = Series(dates: seq<int>, completions: seq<bool>)

  function ChartSeries(records: seq<DailyProgress>): (s: Series)
    ensures |s.dates| == |s.completions| == |records|
    ensures forall i | 0 <= i < |records| ::
      s.dates[i] == records[i].date && s.completions[i] == records[i].completed
  {
    Series(seq(|records|, i requires 0 <= i < |records| => records[i].date),
           seq(|records|, i requires 0 <= i < |records| => records[i].completed))
  }

  /** The first record differs in habit or date from every later record. */
  lemma HeadUnlikeTail(records: seq<DailyProgress>)
    requires OnePerDay(records) && records != []
    ensures forall q | q in records[1..] :: q.habit != records[0].habit || q.date != records[0].date
  {
    forall q | q in records[1..]
      ensures q.habit != records[0].habit || q.date != records[0].date
    {
      var k :| 0 <= k < |records[1..]| && records[1..][k] == q;
      assert records[k + 1] == q;
    }
  }

  /** A record unlike every record of a one-per-day sequence may go in front of it. */
  lemma ConsOnePerDay(p: DailyProgress, rest: seq<DailyProgress>)
    requires OnePerDay(rest)
    requires forall q | q in rest :: q.habit != p.habit || q.date != p.date
    ensures OnePerDay([p] + rest)
  {
    var r := [p] + rest;
    forall i, j | 0 <= i < j < |r|
      ensures r[i].habit != r[j].habit || r[i].date != r[j].date
    {
      assert r[j] == rest[j - 1] && rest[j - 1] in rest;
      if i > 0 {
        assert r[i] == rest[i - 1];
      }
    }
  }

  /** One habit's records keep the one-record-per-day rule of the whole table. */
  lemma {:induction false} RecordsOfOnePerDay(records: seq<DailyProgress>, habitId: nat)
    requires OnePerDay(records)
    ensures OnePerDay(RecordsOf(records, habitId))
  {
    if records != [] {
      var tail := records[1..];
      assert OnePerDay(tail) by {
        forall i, j | 0 <= i < j < |tail|
          ensures tail[i].habit != tail[j].habit || tail[i].date != tail[j].date
        {
          assert tail[i] == records[i + 1] && tail[j] == records[j + 1];
        }
      }
      RecordsOfOnePerDay(tail, habitId);
      if records[0].habit == habitId {
        HeadUnlikeTail(records);
        ConsOnePerDay(records[0], RecordsOf(tail, habitId));
      }
    }
  }

  /** On a store that keeps one completed record per (habit, day), a habit's
      chart has distinct dates and every point marked complete. */
  lemma ChartOfHabit(records: seq<DailyProgress>, habitId: nat)
    requires OnePerDay(records) && AllCompleted(records)
    ensures var s := ChartSeries(RecordsOf(records, habitId));
      && (forall i | 0 <= i < |s.completions| :: s.completions[i])
      && (forall i, j | 0 <= i < j < |s.dates| :: s.dates[i] != s.dates[j])
  {
    var mine := RecordsOf(records, habitId);
    RecordsOfOnePerDay(records, habitId);
    assert forall i | 0 <= i < |mine| :: mine[i] in mine && mine[i].habit == habitId;
  }
}
