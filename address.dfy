/**
 * A supplier's address. StreetAddress is [Required]; Region, Province,
 * City, Barangay and PostalCode are optional. FullAddress renders it on
 * one line.
 */
module AddressModel {
  import opened Wrappers
  import opened Text
  import opened Common

  datatype Address = Address(
    region: Option<string>,
    province: Option<string>,
    city: Option<string>,
    barangay: Option<string>,
    streetAddress: Option<string>,
    postalCode: Option<string>)

  /** String interpolation renders null as nothing. */
  function Render(s: Option<string>): (r: string)
    ensures s.None? ==> r == []
    ensures s.Some? ==> r == s.value
  {
    s.GetOr([])
  }

  /** parts joined with sep between neighbours. */
  function JoinWith(sep: string, parts: seq<string>): string {
    if parts == [] then []
    else if |parts| == 1 then parts[0]
    else parts[0] + sep + JoinWith(sep, parts[1..])
  }

  /** The line Street, Barangay, City, Province, Region. */
  function FullAddress(a: Address): string {
    Render(a.streetAddress) + ", " + Render(a.barangay) + ", " + Render(a.city) + ", "
      + Render(a.province) + ", " + Render(a.region)
  }

  lemma {:induction false} JoinWithCons(sep: string, x: string, rest: seq<string>)
    requires rest != []
    ensures JoinWith(sep, [x] + rest) == x + sep + JoinWith(sep, rest)
  {
    assert ([x] + rest)[1..] == rest;
  }

  /** FullAddress is the five parts, street first and region last, joined
      by ", ". */
  lemma FullAddressIsJoin(a: Address)
    ensures FullAddress(a) == JoinWith(", ", [Render(a.streetAddress), Render(a.barangay), Render(a.city), Render(a.province), Render(a.region)])
  {
    var sep := ", ";
    var p0, p1, p2, p3, p4 := Render(a.streetAddress), Render(a.barangay), Render(a.city), Render(a.province), Render(a.region);
    JoinWithCons(sep, p3, [p4]);
    assert [p3, p4] == [p3] + [p4];
    JoinWithCons(sep, p2, [p3, p4]);
    assert [p2, p3, p4] == [p2] + [p3, p4];
    JoinWithCons(sep, p1, [p2, p3, p4]);
    assert [p1, p2, p3, p4] == [p1] + [p2, p3, p4];
    JoinWithCons(sep, p0, [p1, p2, p3, p4]);
    assert [p0, p1, p2, p3, p4] == [p0] + [p1, p2, p3, p4];
    var j := p0 + sep + (p1 + sep + (p2 + sep + (p3 + sep + p4)));
    assert JoinWith(sep, [p0, p1, p2, p3, p4]) == j;
    assert j == p0 + sep + p1 + sep + p2 + sep + p3 + sep + p4;
  }

  /** The line starts with the street address, and its length is that of
      the five parts plus four separators. */
  lemma FullAddressShape(a: Address)
    ensures var street := Render(a.streetAddress);
      |street| <= |FullAddress(a)| && FullAddress(a)[..|street|] == street
    ensures |FullAddress(a)| == |Render(a.streetAddress)| + |Render(a.barangay)| + |Render(a.city)|
                                + |Render(a.province)| + |Render(a.region)| + 8
  {
    var street := Render(a.streetAddress);
    var rest := ", " + Render(a.barangay) + ", " + Render(a.city) + ", " + Render(a.province) + ", " + Render(a.region);
    assert FullAddress(a) == street + rest;
  }

  /** Any part that is null leaves an empty segment between its separators,
      and the other parts stay where they are. */
  lemma MissingPartsRenderEmpty(a: Address)
    ensures a.streetAddress.None? ==>
      FullAddress(a) == ", " + Render(a.barangay) + ", " + Render(a.city) + ", " + Render(a.province) + ", " + Render(a.region)
    ensures a.barangay.None? ==>
      FullAddress(a) == Render(a.streetAddress) + ", , " + Render(a.city) + ", " + Render(a.province) + ", " + Render(a.region)
    ensures a.city.None? ==>
      FullAddress(a) == Render(a.streetAddress) + ", " + Render(a.barangay) + ", , " + Render(a.province) + ", " + Render(a.region)
    ensures a.province.None? ==>
      FullAddress(a) == Render(a.streetAddress) + ", " + Render(a.barangay) + ", " + Render(a.city) + ", , " + Render(a.region)
    ensures a.region.None? ==>
      FullAddress(a) == Render(a.streetAddress) + ", " + Render(a.barangay) + ", " + Render(a.city) + ", " + Render(a.province) + ", "
  {
  }

  /** With only the street given, the line is the street and four empty
      segments. */
  lemma OnlyStreetAddress(street: string)
    ensures FullAddress(Address(None, None, None, None, Some(street), None)) == street + ", , , , "
  {
  }

  /** The [Required] error of the address, recorded under its nested key. */
  function AddressErrors(a: Address): (r: set<Error>)
    ensures r == {} <==> Required(a.streetAddress)
    ensures r <= {Invalid(StreetAddress)}
  {
    Check(Required(a.streetAddress), Invalid(StreetAddress))
  }

  /** The Suppliers controller trims StreetAddress and PostalCode and leaves
      the parts chosen from the location dropdowns as given. */
  function TrimAddress(a: Address): (t: Address)
    ensures t.streetAddress == TrimOpt(a.streetAddress) && t.postalCode == TrimOpt(a.postalCode)
    ensures t.region == a.region && t.province == a.province && t.city == a.city && t.barangay == a.barangay
  {
    a.(streetAddress := TrimOpt(a.streetAddress), postalCode := TrimOpt(a.postalCode))
  }

  /** An address the binder accepted still has a street after trimming. */
  lemma TrimKeepsAddressValid(a: Address)
    requires AddressErrors(a) == {}
    ensures AddressErrors(TrimAddress(a)) == {}
    ensures TrimAddress(TrimAddress(a)) == TrimAddress(a)
  {
    RequiredIffTrimmedNonEmpty(a.streetAddress);
    var s := TrimOpt(a.streetAddress).value;
    assert !IsWhiteSpace(s[0]);
    TrimIdempotent(a.streetAddress.value);
    if a.postalCode.Some? {
      TrimIdempotent(a.postalCode.value);
    }
  }
}
