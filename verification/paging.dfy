/** `page_view`: a feed cut into numbered pages of `MAX_POSTS` items, the way
    the paginator's `get_page` resolves the requested page number. */
module Paging {
  import opened Wrappers

  /** `MAX_POSTS`, the number of posts on a page. */
  const PageSize: nat := 10

  /** One page of a feed: its items, its 1-based number and the page count. */
  datatype Page<T> = Page(items: seq<T>, number: nat, numPages: nat)
  {
    predicate HasNext() { number < numPages }
    predicate HasPrevious() { number > 1 }
  }

  /** Number of pages of a feed of `count` items; an empty feed still has one
      (empty) first page. */
  function NumPages(count: nat): (n: nat)
    ensures n >= 1
    ensures count <= n * PageSize
    ensures count > 0 ==> (n - 1) * PageSize < count
    ensures count == 0 ==> n == 1
  {
    if count == 0 then 1 else (count + PageSize - 1) / PageSize
  }

  /** The page actually shown for a requested page parameter: a missing or
      non-numeric parameter (None) shows page 1, a number outside
      1..NumPages shows the last page. */
  function ResolvePage(requested: Option<int>, count: nat): (n: nat)
    ensures 1 <= n <= NumPages(count)
    ensures requested.None? ==> n == 1
    ensures requested.Some? && 1 <= requested.value <= NumPages(count) ==> n == requested.value
    ensures requested.Some? && !(1 <= requested.value <= NumPages(count)) ==> n == NumPages(count)
  {
    match requested
    case None => 1
    case Some(k) => if 1 <= k <= NumPages(count) then k else NumPages(count)
  }

  function Min(a: nat, b: nat): nat { if a <= b then a else b }

  /** The items of page `n`: positions (n-1)*PageSize up to n*PageSize, cut at the end. */
  function PageItems<T>(items: seq<T>, n: nat): (r: seq<T>)
    requires n >= 1
    ensures |r| <= PageSize
    ensures (n - 1) * PageSize <= |items| ==> r == items[(n - 1) * PageSize .. Min(n * PageSize, |items|)]
    ensures |items| <= (n - 1) * PageSize ==> r == []
  {
    items[Min((n - 1) * PageSize, |items|) .. Min(n * PageSize, |items|)]
  }

  /** `page_view(post_list, request)`: the page the request asks for. */
  function PageView<T>(items: seq<T>, requested: Option<int>): (page: Page<T>)
    ensures page.numPages == NumPages(|items|)
    ensures 1 <= page.number <= page.numPages
    ensures requested.None? ==> page.number == 1
    ensures requested.Some? && 1 <= requested.value <= NumPages(|items|) ==> page.number == requested.value
    ensures requested.Some? && !(1 <= requested.value <= NumPages(|items|)) ==> page.number == page.numPages
    ensures |page.items| <= PageSize
    ensures forall x :: x in page.items ==> x in items
    ensures page.items == PageItems(items, page.number)
  {
    var n := ResolvePage(requested, |items|);
    Page(PageItems(items, n), n, NumPages(|items|))
  }

  /** Every page but the last is full; the last holds the remainder, at least
      one item when the feed is not empty. */
  lemma PageSizes<T>(items: seq<T>, n: nat)
    requires 1 <= n <= NumPages(|items|)
    ensures n < NumPages(|items|) ==> |PageItems(items, n)| == PageSize
    ensures n == NumPages(|items|) ==> |PageItems(items, n)| == |items| - (n - 1) * PageSize
    ensures |items| > 0 ==> |PageItems(items, n)| >= 1
  {
  }

  /** Pages 1..k read one after the other. */
  function PagesUpTo<T>(items: seq<T>, k: nat): seq<T>
  {
    if k == 0 then [] else PagesUpTo(items, k - 1) + PageItems(items, k)
  }

  /** Reading pages 1..k in order gives the first k*PageSize items. */
  lemma {:induction false} PagesUpToIsPrefix<T>(items: seq<T>, k: nat)
    ensures PagesUpTo(items, k) == items[..Min(k * PageSize, |items|)]
  {
    if k > 0 {
      PagesUpToIsPrefix(items, k - 1);
      var a := Min((k - 1) * PageSize, |items|);
      var b := Min(k * PageSize, |items|);
      assert PageItems(items, k) == items[a..b];
      assert items[..a] + items[a..b] == items[..b];
    }
  }

  /** The pages partition the feed: read in order they give back every item
      exactly once, in feed order. */
  lemma PagesPartitionFeed<T>(items: seq<T>)
    ensures PagesUpTo(items, NumPages(|items|)) == items
  {
    PagesUpToIsPrefix(items, NumPages(|items|));
  }

  /** Thirteen posts make two pages: ten on the first, three on the second;
      asking past the end shows the second page again. */
  lemma ThirteenItemsTwoPages<T>(items: seq<T>)
    requires |items| == 13
    ensures NumPages(|items|) == 2
    ensures |PageView(items, None).items| == 10
    ensures |PageView(items, Some(1)).items| == 10
    ensures |PageView(items, Some(2)).items| == 3
    ensures PageView(items, Some(2)).HasPrevious() && !PageView(items, Some(2)).HasNext()
    ensures PageView(items, Some(3)).number == 2
  {
  }
}
