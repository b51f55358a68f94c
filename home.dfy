/** The home page: the current user's habits, newest start date first, shown
    five to a page, with the requested page number clamped into range. */
module Home {
  import opened Models
  import opened Paging

  /** The habits owned by `user`, in store order. */
  function Owned(habits: seq<Habit>, user: string): (r: seq<Habit>)
    ensures |r| <= |habits|
    ensures forall h :: h in r <==> h in habits && h.owner == user
    ensures forall h :: multiset(r)[h] == if h.owner == user then multiset(habits)[h] else 0
  {
    if habits == [] then []
    else
      assert habits == [habits[0]] + habits[1..];
      if habits[0].owner == user then [habits[0]] + Owned(habits[1..], user)
      else Owned(habits[1..], user)
  }

  /** Ordered by start date, newest first; ties in any order. */
  predicate NewestFirst(hs: seq<Habit>)
  {
    forall i, j | 0 <= i < j < |hs| :: hs[i].startDate >= hs[j].startDate
  }

  /** Places `h` before the first habit that started no later than it. */
  function Insert(h: Habit, hs: seq<Habit>): (r: seq<Habit>)
    requires NewestFirst(hs)
    ensures NewestFirst(r)
    ensures multiset(r) == multiset(hs) + multiset{h}
  {
    if hs == [] || h.startDate >= hs[0].startDate then
      ConsNewestFirst(h, hs);
      [h] + hs
    else
      var rest := Insert(h, hs[1..]);
      assert hs == [hs[0]] + hs[1..];
      HeadBoundsRest(h, hs, rest);
      ConsNewestFirst(hs[0], rest);
      [hs[0]] + rest
  }

  /** Every habit of `rest` started no later than the head of `hs`, when `rest` holds
      `h` (which started before that head) and the tail of `hs`. */
  lemma HeadBoundsRest(h: Habit, hs: seq<Habit>, rest: seq<Habit>)
    requires NewestFirst(hs) && hs != [] && h.startDate < hs[0].startDate
    requires multiset(rest) == multiset(hs[1..]) + multiset{h}
    ensures forall x | x in rest :: x.startDate <= hs[0].startDate
  {
    forall x | x in rest
      ensures x.startDate <= hs[0].startDate
    {
      assert x in multiset(rest);
      if x != h {
        assert x in multiset(hs[1..]);
        var k :| 0 <= k < |hs[1..]| && hs[1..][k] == x;
        assert hs[k + 1] == x;
      }
    }
  }

  /** A habit that started no earlier than the head of a newest-first sequence,
      or than all of it, may go in front of it. */
  lemma ConsNewestFirst(a: Habit, hs: seq<Habit>)
    requires NewestFirst(hs)
    requires (hs != [] && a.startDate >= hs[0].startDate) || forall x | x in hs :: x.startDate <= a.startDate
    ensures NewestFirst([a] + hs)
  {
  }

  /** Orders habits by start date, newest first (the `-start_date` ordering). */
  function SortNewestFirst(hs: seq<Habit>): (r: seq<Habit>)
    ensures NewestFirst(r)
    ensures multiset(r) == multiset(hs)
  {
    if hs == [] then []
    else
      assert hs == [hs[0]] + hs[1..];
      Insert(hs[0], SortNewestFirst(hs[1..]))
  }

  /** Everything the user sees across all pages of the home listing. */
  function Listing(habits: seq<Habit>, user: string): seq<Habit>
  {
    SortNewestFirst(Owned(habits, user))
  }

  /** The rendered home page: the chosen page's habits, its number and the page count. */
  datatype HomeView = HomeView(items: seq<Habit>, number: nat, numPages: nat)

  /** The home page for `user` when the `page` parameter is `param`. */
  function HomePage(habits: seq<Habit>, user: string, param: PageParam): (v: HomeView)
    ensures 1 <= v.number <= v.numPages
    ensures v.number == ChoosePage(param, |Listing(habits, user)|)
    ensures v.numPages == NumPages(|Listing(habits, user)|)
    ensures v.items == Pages(Listing(habits, user))[v.number - 1]
    ensures |v.items| <= PageSize
  {
    var listing := Listing(habits, user);
    var k := ChoosePage(param, |listing|);
    HomeView(Page(listing, k), k, NumPages(|listing|))
  }

  /** The listing holds each of the user's habits exactly as often as the store
      does, none of anyone else's, newest first. */
  lemma ListingIsUsersHabits(habits: seq<Habit>, user: string)
    ensures forall h :: h in Listing(habits, user) <==> h in habits && h.owner == user
    ensures forall h :: multiset(Listing(habits, user))[h] == if h.owner == user then multiset(habits)[h] else 0
    ensures NewestFirst(Listing(habits, user))
  {
    var owned := Owned(habits, user);
    assert multiset(Listing(habits, user)) == multiset(owned);
    assert forall h :: h in Listing(habits, user) <==> h in multiset(owned);
  }

  /** Every habit shown on the home page is one of the user's own. */
  lemma HomeShowsOnlyOwnHabits(habits: seq<Habit>, user: string, param: PageParam)
    ensures forall h | h in HomePage(habits, user, param).items :: h in habits && h.owner == user
  {
    var listing := Listing(habits, user);
    var v := HomePage(habits, user, param);
    ListingIsUsersHabits(habits, user);
    assert v.items == Page(listing, v.number);
    assert forall h | h in v.items :: h in listing;
  }

  /** Stepping through the pages in order shows the user's whole listing. */
  lemma HomePagesCoverListing(habits: seq<Habit>, user: string)
    ensures Concat(Pages(Listing(habits, user))) == Listing(habits, user)
  {
    PagesPartition(Listing(habits, user));
  }
}
