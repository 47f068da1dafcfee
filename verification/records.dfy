/** The loosely-typed Stripe records the export and list views read, with every
    `string | null | undefined` field as an `Option<string>`, and JavaScript's
    truthiness of such a field. */
module Records {
  import opened Wrappers

  /** A Stripe postal address; any field may be missing. */
  datatype Address = Address(
    city: Option<string>,
    country: Option<string>,
    line1: Option<string>,
    line2: Option<string>,
    postalCode: Option<string>,
    state: Option<string>)

  /** A customer's shipping details; the address itself may be missing. */
  datatype Shipping = Shipping(
    address: Option<Address>,
    carrier: Option<string>,
    name: Option<string>,
    phone: Option<string>,
    trackingNumber: Option<string>)

  datatype Customer = Customer(
    id: string,
    email: Option<string>,
    name: Option<string>,
    shipping: Option<Shipping>)

  /** The subscription statuses Stripe defines. */
  datatype Status =
    | Active | Canceled | Incomplete | IncompleteExpired | PastDue | Paused | Trialing | Unpaid

  /** A subscription's `customer` field: the full customer when the list request expanded it,
      otherwise a bare customer id (or a deleted-customer stub, which likewise has no shipping). */
  datatype CustomerRef = Expanded(customer: Customer) | Unexpanded(id: string)

  datatype Subscription = Subscription(id: string, status: Status, customer: CustomerRef)

  /** JavaScript truthiness of an optional string: present and non-empty. */
  predicate Truthy(o: Option<string>) {
    o.Some? && o.value != ""
  }

  /** `o || ""`: the value when truthy, otherwise the empty string. */
  function OrEmpty(o: Option<string>): (r: string)
    ensures r == "" <==> !Truthy(o)
    ensures Truthy(o) ==> r == o.value
  {
    match o
    case Some(v) => v
    case None => ""
  }

  /** `customer.shipping` read through the cast `subscription.customer as Stripe.Customer`:
      a bare id has no `shipping` property, so it reads as undefined. */
  function ShippingOf(ref: CustomerRef): (r: Option<Shipping>)
    ensures ref.Unexpanded? ==> r.None?
    ensures ref.Expanded? ==> r == ref.customer.shipping
  {
    match ref
    case Expanded(c) => c.shipping
    case Unexpanded(_) => None
  }

  /** `shipping?.address`. */
  function AddressOf(sh: Option<Shipping>): Option<Address> {
    match sh
    case Some(s) => s.address
    case None => None
  }

  /** `shipping?.carrier`. */
  function CarrierOf(sh: Option<Shipping>): Option<string> {
    match sh
    case Some(s) => s.carrier
    case None => None
  }

  /** `shipping?.tracking_number`. */
  function TrackingNumberOf(sh: Option<Shipping>): Option<string> {
    match sh
    case Some(s) => s.trackingNumber
    case None => None
  }

  /** `shipping?.phone`. */
  function PhoneOf(sh: Option<Shipping>): Option<string> {
    match sh
    case Some(s) => s.phone
    case None => None
  }

  /** `shipping?.name`. */
  function NameOf(sh: Option<Shipping>): Option<string> {
    match sh
    case Some(s) => s.name
    case None => None
  }
}
