/** The notification feed's pages. */
module Pagination {
  import opened Json

  const DEFAULT_PAGE := 1
  const DEFAULT_PER_PAGE := 20
  const MAX_PER_PAGE := 50

  /** A missing number is None; zero counts as missing. */
  function NormalizePagination(page: Option<int>, perPage: Option<int>): (r: (nat, nat))
    ensures r.0 >= 1 && 1 <= r.1 <= 50
    ensures page.Some? && page.value >= 1 ==> r.0 == page.value
    ensures page.None? || page.value <= 0 ==> r.0 == 1
    ensures perPage.Some? && 1 <= perPage.value <= 50 ==> r.1 == perPage.value
    ensures perPage.Some? && perPage.value > 50 ==> r.1 == 50
    ensures perPage.None? || perPage.value <= 0 ==> r.1 == 20
  {
    (if page.Some? && page.value >= 1 then page.value else DEFAULT_PAGE,
     if perPage.None? || perPage.value <= 0 then DEFAULT_PER_PAGE
     else if perPage.value < MAX_PER_PAGE then perPage.value
     else MAX_PER_PAGE)
  }

  /** OFFSET skip LIMIT take */
  function SkipTake<T>(xs: seq<T>, skip: nat, take: nat): seq<T> {
    if skip >= |xs| then [] else if skip + take >= |xs| then xs[skip..] else xs[skip..skip + take]
  }

  datatype Feed<T> = Feed(items: seq<T>, page: nat, perPage: nat, hasNext: bool)

  /** One page of the list, which is sorted by a total order. */
  function GetFeed<T>(xs: seq<T>, page: Option<int>, perPage: Option<int>): Feed<T> {
    var (p, n) := NormalizePagination(page, perPage);
    Feed(SkipTake(xs, (p - 1) * n, n), p, n, p * n < |xs|)
  }

  lemma NextPage(p: nat, n: nat)
    ensures (p + 1) * n == p * n + n
  {
  }

  /** What a client collects that asks for the next page as long as there is one. */
  function Collect<T>(xs: seq<T>, page: nat, perPage: Option<int>): (r: seq<seq<T>>)
    requires page >= 1
    decreases |xs| - (page - 1) * NormalizePagination(None, perPage).1
  {
    var n := NormalizePagination(None, perPage).1;
    var feed := GetFeed(xs, Some(page), perPage);
    if !feed.hasNext then [feed.items]
    else
      assert page * n == (page - 1) * n + n by { NextPage(page - 1, n); }
      [feed.items] + Collect(xs, page + 1, perPage)
  }

  function Concat<T>(pages: seq<seq<T>>): seq<T> {
    if pages == [] then [] else pages[0] + Concat(pages[1..])
  }

  lemma CollectUnfolds<T>(xs: seq<T>, page: nat, perPage: Option<int>, n: nat, skip: nat)
    requires page >= 1 && n == NormalizePagination(None, perPage).1 && skip == (page - 1) * n
    ensures skip + n == (page + 1 - 1) * n
    ensures Collect(xs, page, perPage)
            == if skip + n < |xs| then [SkipTake(xs, skip, n)] + Collect(xs, page + 1, perPage)
               else [SkipTake(xs, skip, n)]
  {
    NextPage(page - 1, n);
  }

  /** From any page on the client stops and has seen exactly the rest of the list, in order. */
  lemma {:induction false} CollectVisitsRest<T>(xs: seq<T>, page: nat, perPage: Option<int>, n: nat, skip: nat)
    requires page >= 1 && n == NormalizePagination(None, perPage).1 && skip == (page - 1) * n
    ensures Concat(Collect(xs, page, perPage)) == if skip < |xs| then xs[skip..] else []
    decreases |xs| - skip
  {
    CollectUnfolds(xs, page, perPage, n, skip);
    if skip + n < |xs| {
      CollectVisitsRest(xs, page + 1, perPage, n, skip + n);
      OneMorePage(xs, skip, n, Collect(xs, page + 1, perPage));
    } else {
      LastPage(xs, skip, n);
    }
  }

  lemma LastPage<T>(xs: seq<T>, skip: nat, n: nat)
    requires skip + n >= |xs|
    ensures Concat([SkipTake(xs, skip, n)]) == if skip < |xs| then xs[skip..] else []
  {
    assert [SkipTake(xs, skip, n)][1..] == [];
  }

  lemma OneMorePage<T>(xs: seq<T>, skip: nat, n: nat, rest: seq<seq<T>>)
    requires skip + n < |xs| && Concat(rest) == xs[skip + n..]
    ensures Concat([SkipTake(xs, skip, n)] + rest) == xs[skip..]
  {
    var pages := [SkipTake(xs, skip, n)] + rest;
    assert pages[1..] == rest;
    assert xs[skip..] == xs[skip..skip + n] + xs[skip + n..];
  }

  /** From page 1 every item is visited exactly once, in order, whatever page size was asked for. */
  lemma FollowingHasNextVisitsAll<T>(xs: seq<T>, perPage: Option<int>)
    ensures Concat(Collect(xs, 1, perPage)) == xs
  {
    CollectVisitsRest(xs, 1, perPage, NormalizePagination(None, perPage).1, 0);
    assert xs[0..] == xs;
  }
}
