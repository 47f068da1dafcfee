/** `formatShippingAddress`, the one-line address shown in the customer and subscription
    lists and written to the customers export: the non-empty segments line 1, line 2,
    "city, state, postal code" and country, separated by " | ". */
module AddressFormat {
  import opened Wrappers
  import opened Text
  import opened Records

  const SegmentSeparator := " | "
  const GroupSeparator := ", "

  /** The strings of `ss` that are not empty, in order (`filter(Boolean)`). */
  function NonEmpty(ss: seq<string>): (r: seq<string>)
    ensures |r| <= |ss|
    ensures forall k :: 0 <= k < |r| ==> r[k] != "" && r[k] in ss
    ensures r == [] <==> forall k :: 0 <= k < |ss| ==> ss[k] == ""
  {
    if ss == [] then []
    else if ss[0] == "" then NonEmpty(ss[1..])
    else [ss[0]] + NonEmpty(ss[1..])
  }

  /** The city, state and postal code that are present, joined by ", ". */
  function CityStatePostal(a: Address): (r: string)
    ensures r == "" <==> !Truthy(a.city) && !Truthy(a.state) && !Truthy(a.postalCode)
  {
    var group := [OrEmpty(a.city), OrEmpty(a.state), OrEmpty(a.postalCode)];
    assert (forall k :: 0 <= k < |group| ==> group[k] == "")
       <==> !Truthy(a.city) && !Truthy(a.state) && !Truthy(a.postalCode) by {
      assert group[0] == OrEmpty(a.city) && group[1] == OrEmpty(a.state);
      assert group[2] == OrEmpty(a.postalCode);
    }
    var present := NonEmpty(group);
    JoinEmptyIff(present, GroupSeparator);
    Join(present, GroupSeparator)
  }

  /** The segments `formatShippingAddress` pushes, in push order. */
  function Segments(a: Address): (r: seq<string>)
    ensures forall k :: 0 <= k < |r| ==> r[k] != ""
    ensures r == [] <==> AllFieldsEmpty(a)
  {
    var all := [OrEmpty(a.line1), OrEmpty(a.line2), CityStatePostal(a), OrEmpty(a.country)];
    assert (forall k :: 0 <= k < |all| ==> all[k] == "") <==> AllFieldsEmpty(a) by {
      assert all[0] == OrEmpty(a.line1) && all[1] == OrEmpty(a.line2);
      assert all[2] == CityStatePostal(a) && all[3] == OrEmpty(a.country);
    }
    NonEmpty(all)
  }

  predicate AllFieldsEmpty(a: Address) {
    && !Truthy(a.line1) && !Truthy(a.line2) && !Truthy(a.city)
    && !Truthy(a.state) && !Truthy(a.postalCode) && !Truthy(a.country)
  }

  /** `formatShippingAddress`. */
  function FormatShippingAddress(shipping: Option<Shipping>): (r: string)
    ensures AddressOf(shipping).None? ==> r == ""
    ensures r == "" <==> AddressOf(shipping).None? || AllFieldsEmpty(AddressOf(shipping).value)
  {
    match AddressOf(shipping)
    case None => ""
    case Some(a) =>
      JoinEmptyIff(Segments(a), SegmentSeparator);
      Join(Segments(a), SegmentSeparator)
  }

  /** No field holds the '|' that marks a segment separator. */
  predicate NoBar(a: Address) {
    && '|' !in OrEmpty(a.line1) && '|' !in OrEmpty(a.line2) && '|' !in OrEmpty(a.city)
    && '|' !in OrEmpty(a.state) && '|' !in OrEmpty(a.postalCode) && '|' !in OrEmpty(a.country)
  }

  lemma {:induction false} NonEmptyKeepsAbsence(ss: seq<string>, c: char)
    requires forall k :: 0 <= k < |ss| ==> c !in ss[k]
    ensures forall k :: 0 <= k < |NonEmpty(ss)| ==> c !in NonEmpty(ss)[k]
  {
  }

  /** When no field contains '|', splitting the one-line address at " | " gives back exactly
      its non-empty segments, in order: line 1, line 2, the city/state/postal group, country. */
  lemma FormatSegmentsRoundTrip(shipping: Option<Shipping>)
    requires AddressOf(shipping).Some?
    requires !AllFieldsEmpty(AddressOf(shipping).value)
    requires NoBar(AddressOf(shipping).value)
    ensures Unjoin(FormatShippingAddress(shipping), SegmentSeparator, 1) == Segments(AddressOf(shipping).value)
  {
    var a := AddressOf(shipping).value;
    var group := [OrEmpty(a.city), OrEmpty(a.state), OrEmpty(a.postalCode)];
    NonEmptyKeepsAbsence(group, '|');
    JoinKeepsAbsence(NonEmpty(group), GroupSeparator, '|');
    var all := [OrEmpty(a.line1), OrEmpty(a.line2), CityStatePostal(a), OrEmpty(a.country)];
    NonEmptyKeepsAbsence(all, '|');
    assert SegmentSeparator[1] == '|' && SegmentSeparator[..1] == " ";
    UnjoinJoin(Segments(a), SegmentSeparator, 1);
  }

  /** When no city, state or postal code contains ',', splitting the group at ", " gives
      back the present ones among them, in that order. */
  lemma CityStatePostalRoundTrip(a: Address)
    requires Truthy(a.city) || Truthy(a.state) || Truthy(a.postalCode)
    requires ',' !in OrEmpty(a.city) && ',' !in OrEmpty(a.state) && ',' !in OrEmpty(a.postalCode)
    ensures Unjoin(CityStatePostal(a), GroupSeparator, 0)
         == NonEmpty([OrEmpty(a.city), OrEmpty(a.state), OrEmpty(a.postalCode)])
  {
    var group := [OrEmpty(a.city), OrEmpty(a.state), OrEmpty(a.postalCode)];
    NonEmptyKeepsAbsence(group, ',');
    assert group[0] == OrEmpty(a.city) && group[1] == OrEmpty(a.state);
    assert group[2] == OrEmpty(a.postalCode);
    assert NonEmpty(group) != [];
    assert GroupSeparator[0] == ',';
    UnjoinJoin(NonEmpty(group), GroupSeparator, 0);
  }

  /** A present first address line opens the one-line address and a present country
      closes it. */
  lemma FormatEnds(shipping: Option<Shipping>)
    requires AddressOf(shipping).Some?
    ensures var a := AddressOf(shipping).value;
      var r := FormatShippingAddress(shipping);
      && (Truthy(a.line1) ==> |a.line1.value| <= |r| && r[..|a.line1.value|] == a.line1.value)
      && (Truthy(a.country) ==> |a.country.value| <= |r| && r[|r| - |a.country.value|..] == a.country.value)
  {
    var a := AddressOf(shipping).value;
    if Truthy(a.line1) {
      FormatStartsWithLine1(a);
    }
    if Truthy(a.country) {
      FormatEndsWithCountry(a);
    }
  }

  lemma FormatStartsWithLine1(a: Address)
    requires Truthy(a.line1)
    ensures var r := Join(Segments(a), SegmentSeparator);
      |a.line1.value| <= |r| && r[..|a.line1.value|] == a.line1.value
  {
    assert Segments(a)[0] == a.line1.value;
    JoinStartsWithFirst(Segments(a), SegmentSeparator);
  }

  lemma FormatEndsWithCountry(a: Address)
    requires Truthy(a.country)
    ensures var r := Join(Segments(a), SegmentSeparator);
      |a.country.value| <= |r| && r[|r| - |a.country.value|..] == a.country.value
  {
    var segs := Segments(a);
    var front := [OrEmpty(a.line1), OrEmpty(a.line2), CityStatePostal(a)];
    assert front + [OrEmpty(a.country)]
        == [OrEmpty(a.line1), OrEmpty(a.line2), CityStatePostal(a), OrEmpty(a.country)];
    NonEmptyLast(front, OrEmpty(a.country));
    assert segs[|segs| - 1] == a.country.value;
    JoinEndsWithLast(segs, SegmentSeparator);
  }

  lemma {:induction false} NonEmptyLast(ss: seq<string>, last: string)
    requires last != ""
    ensures NonEmpty(ss + [last]) == NonEmpty(ss) + [last]
    decreases |ss|
  {
    if ss != [] {
      assert (ss + [last])[1..] == ss[1..] + [last];
      NonEmptyLast(ss[1..], last);
    } else {
      assert ss + [last] == [last];
    }
  }
}
