/** The seven-column shipping row of the subscriptions export
    (first name, last name, street, postal code, city, state, country), built either from a
    whole shipping record or from an address alone. */
module Rows {
  import opened Wrappers
  import opened Records
  import opened Names

  const Columns: nat := 7

  /** The street: `line1`, then `line2` after a comma when both are present. */
  function Street(a: Address): (r: string)
    ensures r == "" <==> !Truthy(a.line1) && !Truthy(a.line2)
    ensures !Truthy(a.line2) ==> r == OrEmpty(a.line1)
    ensures !Truthy(a.line1) ==> r == OrEmpty(a.line2)
    ensures Truthy(a.line1) && Truthy(a.line2) ==> r == a.line1.value + ", " + a.line2.value
  {
    var street := OrEmpty(a.line1);
    if Truthy(a.line2) then
      (if street != "" then street + ", " + a.line2.value else a.line2.value)
    else street
  }

  /** The city column: for a US address with both a city and a state, the state is appended
      after a space; in every other case the city is left as it is. */
  function City(a: Address): (r: string)
    ensures r != OrEmpty(a.city) <==> a.country == Some("US") && Truthy(a.city) && Truthy(a.state)
    ensures r != OrEmpty(a.city) ==> r == a.city.value + " " + a.state.value
  {
    var city := OrEmpty(a.city);
    var state := OrEmpty(a.state);
    if a.country == Some("US") && city != "" && state != "" then
      assert |city + " " + state| > |city|;
      city + " " + state
    else city
  }

  /** Columns 3 to 7 of a row for a present address. */
  function AddressColumns(a: Address): (r: seq<string>)
    ensures |r| == 5
    ensures r[0] == Street(a) && r[1] == OrEmpty(a.postalCode) && r[2] == City(a)
    ensures r[3] == OrEmpty(a.state) && r[4] == OrEmpty(a.country)
  {
    [Street(a), OrEmpty(a.postalCode), City(a), OrEmpty(a.state), OrEmpty(a.country)]
  }

  /** Columns 1 and 2: first name and last name. */
  function NameColumns(name: (string, string)): (r: seq<string>)
    ensures |r| == 2 && r[0] == name.0 && r[1] == name.1
  {
    [name.0, name.1]
  }

  /** Columns 3 to 7, all empty when there is no address. */
  function OptAddressColumns(a: Option<Address>): (r: seq<string>)
    ensures |r| == 5
    ensures a.None? ==> forall k :: 0 <= k < 5 ==> r[k] == ""
    ensures a.Some? ==> r == AddressColumns(a.value)
  {
    match a
    case None => ["", "", "", "", ""]
    case Some(a) => AddressColumns(a)
  }

  /** `getCsvRowFromShipping`: the split shipping name, then the address columns, which are
      all empty when there is no address. */
  function CsvRowFromShipping(shipping: Option<Shipping>): (r: seq<string>)
    ensures |r| == Columns
    ensures (r[0], r[1]) == SplitName(NameOf(shipping))
    ensures AddressOf(shipping).None? ==> forall k :: 2 <= k < Columns ==> r[k] == ""
    ensures AddressOf(shipping).Some? ==> r[2..] == AddressColumns(AddressOf(shipping).value)
  {
    var name := SplitName(NameOf(shipping));
    NameColumns(name) + OptAddressColumns(AddressOf(shipping))
  }

  /** `getCsvRowFromAddress`: two empty name columns, then the address columns, which are
      all empty when there is no address. */
  function CsvRowFromAddress(address: Option<Address>): (r: seq<string>)
    ensures |r| == Columns
    ensures r[0] == "" && r[1] == ""
    ensures address.None? ==> forall k :: 0 <= k < Columns ==> r[k] == ""
    ensures address.Some? ==> r[2..] == AddressColumns(address.value)
  {
    ["", ""] + OptAddressColumns(address)
  }

  /** The state column always carries the raw state, and the city column differs from the
      raw city exactly for US addresses with both a city and a state; in both row builders. */
  lemma CityAndStateColumns(shipping: Option<Shipping>)
    requires AddressOf(shipping).Some?
    ensures var a := AddressOf(shipping).value;
      var r := CsvRowFromShipping(shipping);
      && r[5] == OrEmpty(a.state)
      && (r[4] != OrEmpty(a.city) <==> a.country == Some("US") && Truthy(a.city) && Truthy(a.state))
      && r[4..] == CsvRowFromAddress(AddressOf(shipping))[4..]
  {
    var r := CsvRowFromShipping(shipping);
    assert r[4] == r[2..][2];
    assert r[5] == r[2..][3];
  }

  /** The two row builders agree on every address column; they differ only in the name
      columns, which only the shipping variant fills. */
  lemma RowBuildersAgree(shipping: Option<Shipping>)
    ensures CsvRowFromShipping(shipping)[2..] == CsvRowFromAddress(AddressOf(shipping))[2..]
    ensures CsvRowFromShipping(shipping)[..2] == [SplitName(NameOf(shipping)).0, SplitName(NameOf(shipping)).1]
  {
  }
}
