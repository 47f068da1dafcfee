/** Cursor pagination of the customer and subscription lists: the list-request parameters,
    the next-page rule, the "Load more" sequence of fetches, and the flattening of the
    fetched pages into one list. */
module Pagination {
  import opened Wrappers
  import opened Records

  const PageLimit: nat := 100

  /** One page of a Stripe list response. */
  datatype Page<T> = Page(data: seq<T>, hasMore: bool)

  datatype SubscriptionListParams =
    SubscriptionListParams(startingAfter: Option<string>, limit: nat, expand: seq<string>, status: string)

  datatype CustomerListParams = CustomerListParams(startingAfter: Option<string>, limit: nat)

  /** The parameters `getSubscriptions` sends: `starting_after` only for a non-empty page
      parameter, always 100 per page, customers expanded, every status. */
  function SubscriptionParams(pageParam: Option<string>): (p: SubscriptionListParams)
    ensures p.startingAfter.Some? <==> Truthy(pageParam)
    ensures p.startingAfter.Some? ==> p.startingAfter == pageParam
    ensures p.limit == PageLimit && p.expand == ["data.customer"] && p.status == "all"
  {
    var after := if Truthy(pageParam) then pageParam else None;
    SubscriptionListParams(after, PageLimit, ["data.customer"], "all")
  }

  /** The parameters `fetchCustomersPage` sends: `starting_after` only for a non-empty page
      parameter, always 100 per page. */
  function CustomerParams(pageParam: Option<string>): (p: CustomerListParams)
    ensures p.startingAfter.Some? <==> Truthy(pageParam)
    ensures p.startingAfter.Some? ==> p.startingAfter == pageParam
    ensures p.limit == PageLimit
  {
    var after := if Truthy(pageParam) then pageParam else None;
    CustomerListParams(after, PageLimit)
  }

  /** The next-page rule both lists share: the id of the last item, and only when the page
      says there is more and is not empty. */
  function NextCursor<T>(page: Page<T>, id: T -> string): (r: Option<string>)
    ensures r.Some? <==> page.hasMore && |page.data| > 0
    ensures r.Some? ==> r.value == id(page.data[|page.data| - 1])
  {
    if page.hasMore && |page.data| > 0 then Some(id(page.data[|page.data| - 1])) else None
  }

  /** `getNextPageParam` of the subscriptions query. */
  function SubscriptionsNextPageParam(page: Page<Subscription>): (r: Option<string>)
    ensures r.Some? <==> page.hasMore && |page.data| > 0
    ensures r.Some? ==> r.value == page.data[|page.data| - 1].id
  {
    NextCursor(page, (s: Subscription) => s.id)
  }

  /** `getNextPageParam` of the customers query. */
  function CustomersNextPageParam(page: Page<Customer>): (r: Option<string>)
    ensures r.Some? <==> page.hasMore && |page.data| > 0
    ensures r.Some? ==> r.value == page.data[|page.data| - 1].id
  {
    NextCursor(page, (c: Customer) => c.id)
  }

  /** The pages an infinite list query holds after the user pressed "Load more" up to
      `loadMoreClicks` times: the first page is fetched without a cursor, each further page
      with the cursor the previous page yields, and the button disappears once a page yields
      none. `fetch` stands for the list request. */
  method LoadPages<T>(fetch: Option<string> -> Page<T>, id: T -> string, loadMoreClicks: nat)
    returns (pages: seq<Page<T>>)
    ensures 1 <= |pages| <= loadMoreClicks + 1
    ensures pages[0] == fetch(None)
    ensures forall i :: 0 <= i < |pages| - 1 ==>
      NextCursor(pages[i], id).Some? && pages[i + 1] == fetch(NextCursor(pages[i], id))
    ensures forall i :: 0 <= i < |pages| - 1 ==> pages[i].hasMore && |pages[i].data| > 0
    ensures |pages| <= loadMoreClicks ==> NextCursor(pages[|pages| - 1], id).None?
  {
    pages := [fetch(None)];
    while |pages| <= loadMoreClicks && NextCursor(pages[|pages| - 1], id).Some?
      invariant 1 <= |pages| <= loadMoreClicks + 1
      invariant pages[0] == fetch(None)
      invariant forall i :: 0 <= i < |pages| - 1 ==>
        NextCursor(pages[i], id).Some? && pages[i + 1] == fetch(NextCursor(pages[i], id))
      decreases loadMoreClicks + 1 - |pages|
    {
      var cursor := NextCursor(pages[|pages| - 1], id);
      pages := pages + [fetch(cursor)];
    }
  }

  /** The subscriptions query: `LoadPages` over the subscription list request. */
  method LoadSubscriptionPages(list: SubscriptionListParams -> Page<Subscription>, loadMoreClicks: nat)
    returns (pages: seq<Page<Subscription>>)
    ensures 1 <= |pages| <= loadMoreClicks + 1
    ensures pages[0] == list(SubscriptionParams(None))
    ensures SubscriptionParams(None).startingAfter.None?
    ensures forall i :: 0 <= i < |pages| - 1 ==>
      && |pages[i].data| > 0
      && pages[i + 1] == list(SubscriptionParams(Some(pages[i].data[|pages[i].data| - 1].id)))
    ensures |pages| <= loadMoreClicks ==> SubscriptionsNextPageParam(pages[|pages| - 1]).None?
  {
    pages := LoadPages((c: Option<string>) => list(SubscriptionParams(c)), (s: Subscription) => s.id, loadMoreClicks);
  }

  /** The customers query: `LoadPages` over the customer list request. */
  method LoadCustomerPages(list: CustomerListParams -> Page<Customer>, loadMoreClicks: nat)
    returns (pages: seq<Page<Customer>>)
    ensures 1 <= |pages| <= loadMoreClicks + 1
    ensures pages[0] == list(CustomerParams(None))
    ensures forall i :: 0 <= i < |pages| - 1 ==>
      && |pages[i].data| > 0
      && pages[i + 1] == list(CustomerParams(Some(pages[i].data[|pages[i].data| - 1].id)))
    ensures |pages| <= loadMoreClicks ==> CustomersNextPageParam(pages[|pages| - 1]).None?
  {
    pages := LoadPages((c: Option<string>) => list(CustomerParams(c)), (c: Customer) => c.id, loadMoreClicks);
  }

  /** Number of items over all pages. */
  function TotalLength<T>(pages: seq<Page<T>>): nat {
    if pages == [] then 0 else |pages[0].data| + TotalLength(pages[1..])
  }

  /** `pages.flatMap((page) => page.data)`. */
  function Flatten<T>(pages: seq<Page<T>>): (r: seq<T>)
    ensures |r| == TotalLength(pages)
  {
    if pages == [] then [] else pages[0].data + Flatten(pages[1..])
  }

  lemma {:induction false} FlattenAppend<T>(a: seq<Page<T>>, b: seq<Page<T>>)
    ensures Flatten(a + b) == Flatten(a) + Flatten(b)
    decreases |a|
  {
    if a == [] {
      assert a + b == b;
    } else {
      assert (a + b)[1..] == a[1..] + b;
      FlattenAppend(a[1..], b);
    }
  }

  /** Flattening keeps every item in page order: item `j` of page `i` sits right after the
      items of the pages before it. */
  lemma FlattenIndex<T>(pages: seq<Page<T>>, i: nat, j: nat)
    requires i < |pages| && j < |pages[i].data|
    ensures TotalLength(pages[..i]) + j < |Flatten(pages)|
    ensures Flatten(pages)[TotalLength(pages[..i]) + j] == pages[i].data[j]
  {
    assert pages == pages[..i] + ([pages[i]] + pages[i + 1..]);
    FlattenAppend(pages[..i], [pages[i]] + pages[i + 1..]);
    assert Flatten([pages[i]] + pages[i + 1..]) == pages[i].data + Flatten(pages[i + 1..]);
  }
}
