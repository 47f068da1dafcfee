/** The two CSV documents: the subscriptions export (one shipping row per subscription) and
    the customers export (contact and one-line shipping address per customer). Each is a
    header line followed by one line per record, joined by line feeds with no trailing one. */
module Export {
  import opened Wrappers
  import opened Text
  import opened Records
  import opened Rows
  import opened AddressFormat
  import opened Csv

  const SubscriptionHeaders: seq<string> :=
    ["Prénom", "Nom", "Rue", "Code postal", "Ville", "Dép/Region", "Pays"]

  const CustomerHeaders: seq<string> :=
    ["Email", "Name", "Shipping Name", "Shipping Address", "Carrier", "Tracking #", "Phone"]

  /** The shipping row of one subscription, read through the cast
      `subscription.customer as Stripe.Customer`; a bare id gives `BlankRow`. */
  function SubscriptionRow(s: Subscription): (r: seq<string>)
    ensures |r| == |SubscriptionHeaders|
    ensures s.customer.Unexpanded? ==> r == BlankRow
  {
    var r := CsvRowFromShipping(ShippingOf(s.customer));
    assert s.customer.Unexpanded? ==>
      r[0] == "" && r[1] == "" && r[2] == "" && r[3] == "" && r[4] == "" && r[5] == "" && r[6] == "";
    r
  }

  const BlankRow: seq<string> := ["", "", "", "", "", "", ""]

  function SubscriptionRows(subs: seq<Subscription>): (r: seq<seq<Option<string>>>)
    ensures |r| == |subs|
    ensures forall k :: 0 <= k < |subs| ==> r[k] == Present(SubscriptionRow(subs[k]))
  {
    if subs == [] then [] else [Present(SubscriptionRow(subs[0]))] + SubscriptionRows(subs[1..])
  }

  /** The cells of one customer's row, before escaping. */
  function CustomerRow(c: Customer): (r: seq<Option<string>>)
    ensures |r| == |CustomerHeaders|
  {
    var sh := c.shipping;
    [c.email, c.name, NameOf(sh), Some(FormatShippingAddress(sh)),
     CarrierOf(sh), TrackingNumberOf(sh), PhoneOf(sh)]
  }

  /** What a CSV reader sees of one customer's row: absent values read as "". */
  function CustomerCells(c: Customer): seq<string> {
    var sh := c.shipping;
    [OrEmpty(c.email), OrEmpty(c.name), OrEmpty(NameOf(sh)), FormatShippingAddress(sh),
     OrEmpty(CarrierOf(sh)), OrEmpty(TrackingNumberOf(sh)), OrEmpty(PhoneOf(sh))]
  }

  lemma PlainCustomerRow(c: Customer)
    ensures Plain(CustomerRow(c)) == CustomerCells(c)
  {
    var p := Plain(CustomerRow(c));
    var q := CustomerCells(c);
    assert p[0] == q[0] && p[1] == q[1] && p[2] == q[2];
    assert p[3] == q[3];
    assert p[4] == q[4] && p[5] == q[5] && p[6] == q[6];
  }

  function CustomerRows(cs: seq<Customer>): (r: seq<seq<Option<string>>>)
    ensures |r| == |cs|
    ensures forall k :: 0 <= k < |cs| ==> r[k] == CustomerRow(cs[k])
  {
    if cs == [] then [] else [CustomerRow(cs[0])] + CustomerRows(cs[1..])
  }

  lemma PlainPresent(ss: seq<string>)
    ensures Plain(Present(ss)) == ss
  {
  }

  /** No header contains a comma, a quote or a line feed. */
  lemma HeadersNeedNoQuoting()
    ensures forall k :: 0 <= k < |SubscriptionHeaders| ==> !NeedsQuoting(SubscriptionHeaders[k])
    ensures forall k :: 0 <= k < |CustomerHeaders| ==> !NeedsQuoting(CustomerHeaders[k])
  {
    SubscriptionHeadersPlain();
    CustomerHeadersPlain();
  }

  lemma SubscriptionHeadersPlain()
    ensures forall k :: 0 <= k < |SubscriptionHeaders| ==> !NeedsQuoting(SubscriptionHeaders[k])
  {
  }

  lemma CustomerHeadersPlain()
    ensures forall k :: 0 <= k < |CustomerHeaders| ==> !NeedsQuoting(CustomerHeaders[k])
  {
  }

  /** A document of a header line and rendered rows decodes to the headers and the rows. */
  lemma DocumentWithHeaders(headers: seq<string>, rows: seq<seq<Option<string>>>)
    requires |headers| >= 1
    requires forall k :: 0 <= k < |headers| ==> !NeedsQuoting(headers[k])
    requires forall k :: 0 <= k < |rows| ==> |rows[k]| >= 1
    ensures ParseDocument(Join([Join(headers, ",")] + RenderRows(rows), "\n"))
         == Some([headers] + PlainRows(rows))
  {
    UnescapedHeaders(headers);
    var all := [Present(headers)] + rows;
    assert all[1..] == rows;
    assert RenderRows(all) == [Join(headers, ",")] + RenderRows(rows);
    DocumentRoundTrip(all);
    PlainPresent(headers);
    assert PlainRows(all) == [headers] + PlainRows(rows);
  }

  /** The document of one export, with one of the two fixed header lines. */
  lemma HeadedDocument(headers: seq<string>, rows: seq<seq<Option<string>>>)
    requires headers == SubscriptionHeaders || headers == CustomerHeaders
    requires forall k :: 0 <= k < |rows| ==> |rows[k]| == |headers|
    ensures ParseDocument(Join([Join(headers, ",")] + RenderRows(rows), "\n"))
         == Some([headers] + PlainRows(rows))
  {
    HeadersNeedNoQuoting();
    DocumentWithHeaders(headers, rows);
  }

  /** What a reader gets back of the subscription rows: each subscription's shipping row. */
  lemma SubscriptionRecords(subs: seq<Subscription>)
    ensures forall k :: 0 <= k < |subs| ==> PlainRows(SubscriptionRows(subs))[k] == SubscriptionRow(subs[k])
  {
    forall k | 0 <= k < |subs| {
      SubscriptionRecord(subs, k);
    }
  }

  lemma SubscriptionRecord(subs: seq<Subscription>, k: nat)
    requires k < |subs|
    ensures PlainRows(SubscriptionRows(subs))[k] == SubscriptionRow(subs[k])
  {
    var row := SubscriptionRow(subs[k]);
    PlainPresent(row);
    assert SubscriptionRows(subs)[k] == Present(row);
  }

  /** What a reader gets back of the customer rows: each customer's cells. */
  lemma CustomerRecords(cs: seq<Customer>)
    ensures forall k :: 0 <= k < |cs| ==> PlainRows(CustomerRows(cs))[k] == CustomerCells(cs[k])
  {
    forall k | 0 <= k < |cs| {
      CustomerRecord(cs, k);
    }
  }

  lemma CustomerRecord(cs: seq<Customer>, k: nat)
    requires k < |cs|
    ensures PlainRows(CustomerRows(cs))[k] == CustomerCells(cs[k])
  {
    PlainCustomerRow(cs[k]);
    assert CustomerRows(cs)[k] == CustomerRow(cs[k]);
  }

  /** `exportSubscriptionsToCsv` (the text it hands to the download). A CSV reader gets back
      the headers and then, for every subscription in order and whatever its status, its
      seven shipping columns. */
  function ExportSubscriptionsCsv(subs: seq<Subscription>): (doc: string)
    ensures ParseDocument(doc).Some?
    ensures var records := ParseDocument(doc).value;
      && |records| == 1 + |subs|
      && records[0] == SubscriptionHeaders
      && forall k :: 0 <= k < |subs| ==> records[k + 1] == CsvRowFromShipping(ShippingOf(subs[k].customer))
  {
    var rows := SubscriptionRows(subs);
    HeadedDocument(SubscriptionHeaders, rows);
    SubscriptionRecords(subs);
    assert forall k :: 0 <= k < |subs| ==> ([SubscriptionHeaders] + PlainRows(rows))[k + 1] == PlainRows(rows)[k];
    Join([Join(SubscriptionHeaders, ",")] + RenderRows(rows), "\n")
  }

  /** `exportCustomersToCsv` (the text it hands to the download). A CSV reader gets back the
      headers and then, for every customer in order, email, name, shipping name, one-line
      shipping address, carrier, tracking number and phone, with absent values as "". */
  function ExportCustomersCsv(cs: seq<Customer>): (doc: string)
    ensures ParseDocument(doc).Some?
    ensures var records := ParseDocument(doc).value;
      && |records| == 1 + |cs|
      && records[0] == CustomerHeaders
      && forall k :: 0 <= k < |cs| ==> records[k + 1] == CustomerCells(cs[k])
  {
    var rows := CustomerRows(cs);
    HeadedDocument(CustomerHeaders, rows);
    CustomerRecords(cs);
    assert forall k :: 0 <= k < |cs| ==> ([CustomerHeaders] + PlainRows(rows))[k + 1] == PlainRows(rows)[k];
    Join([Join(CustomerHeaders, ",")] + RenderRows(rows), "\n")
  }

  /** A subscription whose customer was not expanded is not rejected: it silently exports a
      row of seven empty cells. */
  lemma UnexpandedCustomerGivesBlankRow(s: Subscription)
    requires s.customer.Unexpanded?
    ensures var records := ParseDocument(ExportSubscriptionsCsv([s])).value;
      records == [SubscriptionHeaders, BlankRow]
  {
    var records := ParseDocument(ExportSubscriptionsCsv([s])).value;
    assert records[1] == SubscriptionRow(s);
  }
}
