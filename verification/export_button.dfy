/** The export button of the dashboard: it shows how many subscriptions will be exported
    and, when clicked, exports the flattened subscription list. */
module ExportButton {
  import opened Wrappers
  import opened Text
  import opened Records
  import opened Csv
  import opened Pagination
  import opened Rows
  import opened Export

  /** What the button area shows: the button with its count, or the empty-list message. */
  datatype View = ExportOffer(count: nat) | NothingToExport

  predicate NoneCanceled(subs: seq<Subscription>) {
    forall k :: 0 <= k < |subs| ==> subs[k].status != Canceled
  }

  /** Number of subscriptions whose status is not canceled. */
  function CountNotCanceled(subs: seq<Subscription>): (n: nat)
    ensures n <= |subs|
    ensures n == |subs| <==> NoneCanceled(subs)
    ensures n == 0 <==> forall k :: 0 <= k < |subs| ==> subs[k].status == Canceled
  {
    if subs == [] then 0
    else
      var rest := CountNotCanceled(subs[1..]);
      assert forall k :: 1 <= k < |subs| ==> subs[k] == subs[1..][k - 1];
      (if subs[0].status != Canceled then 1 else 0) + rest
  }

  /** The subscriptions not canceled, in order. */
  function NotCanceled(subs: seq<Subscription>): (r: seq<Subscription>)
    ensures |r| == CountNotCanceled(subs)
    ensures forall k :: 0 <= k < |r| ==> r[k].status != Canceled && r[k] in subs
  {
    if subs == [] then []
    else if subs[0].status != Canceled then [subs[0]] + NotCanceled(subs[1..])
    else NotCanceled(subs[1..])
  }

  /** `NotCanceled` is the order-keeping filter: it distributes over concatenation, keeps a
      single subscription exactly when it is not canceled, and keeps the empty list empty.
      Together these fix its result on every list. */
  lemma NotCanceledIsFilter(a: seq<Subscription>, b: seq<Subscription>)
    ensures NotCanceled(a + b) == NotCanceled(a) + NotCanceled(b)
    ensures NotCanceled([]) == []
    ensures forall s :: NotCanceled([s]) == if s.status != Canceled then [s] else []
  {
    NotCanceledAppend(a, b);
    forall s ensures NotCanceled([s]) == if s.status != Canceled then [s] else [] {
      NotCanceledSingle(s);
    }
  }

  lemma {:induction false} NotCanceledAppend(a: seq<Subscription>, b: seq<Subscription>)
    ensures NotCanceled(a + b) == NotCanceled(a) + NotCanceled(b)
    decreases |a|
  {
    if a == [] {
      assert a + b == b;
    } else {
      var x := a[0];
      assert a == [x] + a[1..];
      assert a + b == [x] + (a[1..] + b);
      NotCanceledAppend(a[1..], b);
      NotCanceledCons(x, a[1..]);
      NotCanceledCons(x, a[1..] + b);
      AppendAssoc(if x.status != Canceled then [x] else [], NotCanceled(a[1..]), NotCanceled(b));
    }
  }

  /** The filter on a list with a first element: that element if kept, then the rest. */
  lemma NotCanceledCons(x: Subscription, rest: seq<Subscription>)
    ensures NotCanceled([x] + rest) == (if x.status != Canceled then [x] else []) + NotCanceled(rest)
  {
    assert ([x] + rest)[0] == x;
    assert ([x] + rest)[1..] == rest;
  }

  lemma NotCanceledSingle(s: Subscription)
    ensures NotCanceled([s]) == if s.status != Canceled then [s] else []
  {
    assert [s][1..] == [];
  }

  /** `pages.flatMap((page) => page.data)` of the loaded query, or nothing before it loads. */
  function Subscriptions(loaded: Option<seq<Page<Subscription>>>): Option<seq<Subscription>> {
    match loaded
    case Some(pages) => Some(Flatten(pages))
    case None => None
  }

  /** `ExportCsvButton`'s rendering: the button only for a loaded, non-empty list, labelled
      with the number of subscriptions that are not canceled. */
  function ButtonView(loaded: Option<seq<Page<Subscription>>>): (v: View)
    ensures v.ExportOffer? <==> loaded.Some? && TotalLength(loaded.value) > 0
    ensures v.ExportOffer? ==> v.count <= TotalLength(loaded.value)
    ensures v.ExportOffer? ==>
      (v.count == TotalLength(loaded.value) <==> NoneCanceled(Flatten(loaded.value)))
    ensures v.ExportOffer? ==> v.count == |NotCanceled(Flatten(loaded.value))|
  {
    match Subscriptions(loaded)
    case Some(subs) =>
      assert subs == Flatten(loaded.value) && |subs| == TotalLength(loaded.value);
      var n := CountNotCanceled(subs);
      assert n <= TotalLength(loaded.value);
      if |subs| > 0 then ExportOffer(n) else NothingToExport
    case None => NothingToExport
  }

  /** `handleExportCsv`: the document exported on click, built from the whole flattened list;
      nothing is exported before the list has loaded. */
  function HandleExportCsv(loaded: Option<seq<Page<Subscription>>>): (doc: Option<string>)
    ensures doc.Some? <==> loaded.Some?
    ensures doc.Some? ==> ParseDocument(doc.value).Some? && |ParseDocument(doc.value).value| == 1 + TotalLength(loaded.value)
    ensures doc.Some? ==> forall k :: 0 <= k < TotalLength(loaded.value) ==>
      ParseDocument(doc.value).value[k + 1] == CsvRowFromShipping(ShippingOf(Flatten(loaded.value)[k].customer))
  {
    match Subscriptions(loaded)
    case Some(subs) => Some(ExportSubscriptionsCsv(subs))
    case None => None
  }

  /** As written, the exported file has more data lines than the button announces as soon
      as one loaded subscription is canceled, although the button says canceled ones are
      not included. */
  lemma CanceledSubscriptionsAreExported(pages: seq<Page<Subscription>>, k: nat)
    requires k < |Flatten(pages)| && Flatten(pages)[k].status == Canceled
    ensures var v := ButtonView(Some(pages));
      var records := ParseDocument(HandleExportCsv(Some(pages)).value).value;
      v.ExportOffer? && v.count < |records| - 1
  {
  }

  /** The export the button's label and note describe: only subscriptions that are not
      canceled, so the file has exactly as many data lines as the button announces. */
  function IntendedExportCsv(loaded: Option<seq<Page<Subscription>>>): (doc: Option<string>)
    ensures doc.Some? <==> loaded.Some?
    ensures doc.Some? ==> ParseDocument(doc.value).Some? && |ParseDocument(doc.value).value| == 1 + CountNotCanceled(Flatten(loaded.value))
    ensures doc.Some? ==> forall k :: 0 <= k < CountNotCanceled(Flatten(loaded.value)) ==>
      ParseDocument(doc.value).value[k + 1] == CsvRowFromShipping(ShippingOf(NotCanceled(Flatten(loaded.value))[k].customer))
  {
    match Subscriptions(loaded)
    case Some(subs) => Some(ExportSubscriptionsCsv(NotCanceled(subs)))
    case None => None
  }

  /** With the intended export, the announced count and the exported data lines agree. */
  lemma IntendedExportMatchesCount(pages: seq<Page<Subscription>>)
    requires TotalLength(pages) > 0
    ensures var v := ButtonView(Some(pages));
      var records := ParseDocument(IntendedExportCsv(Some(pages)).value).value;
      v.ExportOffer? && v.count == |records| - 1
  {
  }
}
