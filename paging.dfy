/** The part of Django's Paginator that the home page relies on: a fixed page
    size, the page count with an empty first page allowed and no orphans, the
    slice for each page, and the clamping of the requested page number. */
module Paging {

  /** Habits shown per page on the home page. */
  const PageSize: nat := 5

  /** The `page` query parameter, after Python's integer conversion. */
  datatype PageParam =
    | Absent             // no parameter: the default 1
    | IntParam(n: int)   // a value that converts to an integer
    | NotAnInteger       // a value that does not convert

  /** Number of pages for `count` items; an empty listing still has one (empty) page. */
  function NumPages(count: nat): (n: nat)
    ensures n >= 1
    ensures (n - 1) * PageSize < count <= n * PageSize || (count == 0 && n == 1)
  {
    var hits := if count < 1 then 1 else count;
    (hits + PageSize - 1) / PageSize
  }

  /** Index of the first item on page `k` (numbered from 1). */
  function PageStart(k: nat): nat
    requires k >= 1
  {
    (k - 1) * PageSize
  }

  /** The items on page `k` (numbered from 1). */
  function Page<T>(items: seq<T>, k: nat): (p: seq<T>)
    requires 1 <= k <= NumPages(|items|)
    ensures |p| <= PageSize
    ensures PageStart(k) + |p| <= |items|
    ensures p == items[PageStart(k) .. PageStart(k) + |p|]
    ensures k < NumPages(|items|) ==> |p| == PageSize
    ensures k == NumPages(|items|) ==> PageStart(k) + |p| == |items|
  {
    var bottom := PageStart(k);
    var top := if bottom + PageSize >= |items| then |items| else bottom + PageSize;
    items[bottom .. top]
  }

  /** All pages, in order. */
  function Pages<T>(items: seq<T>): (ps: seq<seq<T>>)
    ensures |ps| == NumPages(|items|)
  {
    seq(NumPages(|items|), i requires 0 <= i < NumPages(|items|) => Page(items, i + 1))
  }

  /** The pages joined end to end. */
  function Concat<T>(ps: seq<seq<T>>): seq<T>
  {
    if ps == [] then [] else ps[0] + Concat(ps[1..])
  }

  /** The pages from `k` onwards hold exactly the items from that page's first index on. */
  lemma {:induction false} PagesFrom<T>(items: seq<T>, k: nat)
    requires 1 <= k <= NumPages(|items|)
    ensures PageStart(k) <= |items|
    ensures Concat(Pages(items)[k - 1..]) == items[PageStart(k)..]
    decreases NumPages(|items|) - k
  {
    var ps := Pages(items);
    var page := Page(items, k);
    assert ps[k - 1..] == [page] + ps[k..];
    if k == NumPages(|items|) {
      assert ps[k..] == [];
    } else {
      PagesFrom(items, k + 1);
      assert Concat(ps[k - 1..]) == page + Concat(ps[k..]);
    }
  }

  /** Reading the pages in order gives back the whole listing; no page exceeds the page size. */
  lemma PagesPartition<T>(items: seq<T>)
    ensures Concat(Pages(items)) == items
    ensures forall i | 0 <= i < |Pages(items)| :: |Pages(items)[i]| <= PageSize
  {
    PagesFrom(items, 1);
    assert Pages(items)[0..] == Pages(items);
  }

  /** The page shown for a request: a non-integer gives the first page, an integer
      outside 1..NumPages(count) the last page, and any other integer itself. */
  function ChoosePage(param: PageParam, count: nat): (k: nat)
    ensures 1 <= k <= NumPages(count)
    ensures param.NotAnInteger? || param.Absent? ==> k == 1
    ensures param.IntParam? && 1 <= param.n <= NumPages(count) ==> k == param.n
    ensures param.IntParam? && !(1 <= param.n <= NumPages(count)) ==> k == NumPages(count)
  {
    var requested := if param.IntParam? then param.n else 1;
    if param.NotAnInteger? then 1
    else if 1 <= requested <= NumPages(count) then requested
    else NumPages(count)
  }
}
