/** A vehicle of the stock locator and the accessors the listing uses: the
    details link, the offer price, the discount, and matching of equipment
    names. The source keeps equipments, localized names and offer prices in
    hash maps whose keys these accessors never read; here each is the
    sequence of its values in iteration order. */
module Vehicles {
  import opened Prelude
  import opened Text

  /** The textual (hyphenated) form of the vehicle's UUID. */
  type VssId = string

  datatype OfferPrice = OfferPrice(offerGrossPrice: Option<real>)

  datatype Offering = Offering(offerPrices: Option<seq<OfferPrice>>)

  /** An equipment and its names, one per locale. */
  datatype Equipment = Equipment(name: seq<string>)

  datatype Vehicle = Vehicle(
    documentId: string,
    vssId: VssId,
    orderingUuid: Option<string>,
    offering: Offering,
    equipments: seq<Equipment>,   // vehicleSpecification.modelAndOption.equipments
    vehicleGrossPrice: real,      // price.vehicleGrossPrice
    usageState: string)           // ordering.orderData.usageState

  // ---------------------------------------------------------------------
  // Link
  // ---------------------------------------------------------------------

  const LinkPrefix: string := "https://www.bmw.fr/fr-fr/sl/"
  const NewLocator: string := "stocklocator"
  const UsedLocator: string := "stocklocator_uc"
  const DetailsAnchor: string := "#/details/"

  /** The vehicle's page: the new-car locator for usage state `NEW`, the
      used-car locator for every other state, then the details anchor. */
  function GetLink(v: Vehicle): string {
    LinkPrefix + (if v.usageState == "NEW" then NewLocator else UsedLocator) + DetailsAnchor + v.vssId
  }

  /** Reads a details link back: which locator it points to (true for the
      new-car one) and the vehicle id after the anchor. */
  function ParseLink(link: string): Option<(bool, VssId)> {
    if !StartsWith(link, LinkPrefix) then None
    else
      var rest := link[|LinkPrefix|..];
      if StartsWith(rest, NewLocator + DetailsAnchor) then Some((true, rest[|NewLocator + DetailsAnchor|..]))
      else if StartsWith(rest, UsedLocator + DetailsAnchor) then Some((false, rest[|UsedLocator + DetailsAnchor|..]))
      else None
  }

  /** The link names the new-car locator exactly when the usage state is
      `NEW`, and it ends with the vehicle's id. */
  lemma LinkRoundTrip(v: Vehicle)
    ensures ParseLink(GetLink(v)) == Some((v.usageState == "NEW", v.vssId))
  {
    var link := GetLink(v);
    assert link == LinkPrefix + ((if v.usageState == "NEW" then NewLocator else UsedLocator) + DetailsAnchor + v.vssId);
    assert link[..|LinkPrefix|] == LinkPrefix;
    var rest := link[|LinkPrefix|..];
    if v.usageState == "NEW" {
      assert rest == (NewLocator + DetailsAnchor) + v.vssId;
      assert rest[..|NewLocator + DetailsAnchor|] == NewLocator + DetailsAnchor;
    } else {
      assert rest == (UsedLocator + DetailsAnchor) + v.vssId;
      assert rest[..|UsedLocator + DetailsAnchor|] == UsedLocator + DetailsAnchor;
      assert rest[12] == '_';
      assert !StartsWith(rest, NewLocator + DetailsAnchor);
    }
  }

  // ---------------------------------------------------------------------
  // Price and discount
  // ---------------------------------------------------------------------

  /** The gross price of the first offer, if there is an offer and it has
      one. */
  function GetPrice(v: Vehicle): (r: Option<real>)
    ensures r.Some? <==>
      (v.offering.offerPrices.Some? && |v.offering.offerPrices.value| > 0
       && v.offering.offerPrices.value[0].offerGrossPrice.Some?)
    ensures r.Some? ==> r.value == v.offering.offerPrices.value[0].offerGrossPrice.value
  {
    match v.offering.offerPrices
    case None => None
    case Some(prices) => if |prices| == 0 then None else prices[0].offerGrossPrice
  }

  /** An `f32` percentage: dividing by a zero gross price gives an infinity
      or NaN, which is all the model says about it. */
  datatype Percentage = Finite(value: real) | NonFinite

  /** `(gross - offer) / gross * 100`, present exactly when the offer price
      is. */
  function GetDiscountPercentage(v: Vehicle): (r: Option<Percentage>)
    ensures r.None? <==> GetPrice(v).None?
    ensures r.Some? && v.vehicleGrossPrice != 0.0 ==>
      r.value == Finite((v.vehicleGrossPrice - GetPrice(v).value) / v.vehicleGrossPrice * 100.0)
  {
    match GetPrice(v)
    case None => None
    case Some(offer) =>
      var gross := v.vehicleGrossPrice;
      if gross == 0.0 then Some(NonFinite) else Some(Finite((gross - offer) / gross * 100.0))
  }

  // ---------------------------------------------------------------------
  // Equipment names
  // ---------------------------------------------------------------------

  /** Some name among `names`, lower-cased, contains `query`. */
  predicate AnyNameContains(names: seq<string>, query: string) {
    |names| > 0 && (Contains(Lower(names[0]), query) || AnyNameContains(names[1..], query))
  }

  /** Some equipment among `equipments` has such a name. */
  predicate AnyEquipmentNameContains(equipments: seq<Equipment>, query: string) {
    |equipments| > 0
    && (AnyNameContains(equipments[0].name, query) || AnyEquipmentNameContains(equipments[1..], query))
  }

  /** The vehicle has an equipment one of whose names contains `name`,
      ignoring case; the empty name matches nothing. */
  predicate HasEquipmentNameLike(v: Vehicle, name: string) {
    if name == "" then false else AnyEquipmentNameContains(v.equipments, Lower(name))
  }

  /** Every name of `names` is like some equipment name; no names at all is
      accepted. */
  predicate HasEquipmentNames(v: Vehicle, names: seq<string>) {
    if |names| == 0 then true else AllNamesLike(v, names)
  }

  predicate AllNamesLike(v: Vehicle, names: seq<string>) {
    |names| == 0 || (HasEquipmentNameLike(v, names[0]) && AllNamesLike(v, names[1..]))
  }

  /** The `j`-th name of the `i`-th equipment, lower-cased, contains `query`. */
  ghost predicate NameAtContains(equipments: seq<Equipment>, i: int, j: int, query: string) {
    0 <= i < |equipments| && 0 <= j < |equipments[i].name|
    && exists k :: OccursAt(Lower(equipments[i].name[j]), query, k)
  }

  lemma {:induction false} AnyNameContainsIff(names: seq<string>, query: string)
    ensures AnyNameContains(names, query) <==>
      exists j, k :: 0 <= j < |names| && OccursAt(Lower(names[j]), query, k)
  {
    if |names| > 0 {
      AnyNameContainsIff(names[1..], query);
      ContainsIff(Lower(names[0]), query);
      if j, k :| 0 <= j < |names| && OccursAt(Lower(names[j]), query, k) {
        if j > 0 {
          assert names[1..][j - 1] == names[j];
        }
      }
      if AnyNameContains(names[1..], query) {
        var j, k :| 0 <= j < |names[1..]| && OccursAt(Lower(names[1..][j]), query, k);
        assert names[1..][j] == names[j + 1];
      }
    }
  }

  lemma {:induction false} AnyEquipmentNameContainsIff(equipments: seq<Equipment>, query: string)
    ensures AnyEquipmentNameContains(equipments, query) <==>
      exists i, j :: NameAtContains(equipments, i, j, query)
  {
    if |equipments| > 0 {
      AnyEquipmentNameContainsIff(equipments[1..], query);
      AnyNameContainsIff(equipments[0].name, query);
      if i, j :| NameAtContains(equipments, i, j, query) {
        if i > 0 {
          assert NameAtContains(equipments[1..], i - 1, j, query);
        } else {
          assert 0 <= j < |equipments[0].name|;
        }
      }
      if AnyEquipmentNameContains(equipments[1..], query) {
        var i, j :| NameAtContains(equipments[1..], i, j, query);
        assert NameAtContains(equipments, i + 1, j, query);
      }
      if AnyNameContains(equipments[0].name, query) {
        var j, k :| 0 <= j < |equipments[0].name| && OccursAt(Lower(equipments[0].name[j]), query, k);
        assert NameAtContains(equipments, 0, j, query);
      }
    }
  }

  /** `HasEquipmentNameLike(v, name)` holds exactly when `name` is not empty
      and some name of some equipment, lower-cased, contains `name`
      lower-cased. */
  lemma HasEquipmentNameLikeIff(v: Vehicle, name: string)
    ensures HasEquipmentNameLike(v, name) <==>
      name != "" && exists i, j :: NameAtContains(v.equipments, i, j, Lower(name))
  {
    AnyEquipmentNameContainsIff(v.equipments, Lower(name));
  }

  /** The empty name matches no vehicle, even one whose names all contain
      the empty string. */
  lemma EmptyNameMatchesNothing(v: Vehicle)
    ensures !HasEquipmentNameLike(v, "")
  {
  }

  /** Matching ignores case: two names with the same lower-case form match
      the same vehicles. */
  lemma HasEquipmentNameLikeIgnoresCase(v: Vehicle, a: string, b: string)
    requires Lower(a) == Lower(b)
    ensures HasEquipmentNameLike(v, a) == HasEquipmentNameLike(v, b)
  {
    assert |a| == |Lower(a)| == |Lower(b)| == |b|;
  }

  /** Querying with the lower-case form of a name is the same as querying
      with the name. */
  lemma HasEquipmentNameLikeLower(v: Vehicle, name: string)
    ensures HasEquipmentNameLike(v, Lower(name)) == HasEquipmentNameLike(v, name)
  {
    LowerIdempotent(name);
    HasEquipmentNameLikeIgnoresCase(v, Lower(name), name);
  }

  lemma {:induction false} AllNamesLikeIff(v: Vehicle, names: seq<string>)
    ensures AllNamesLike(v, names) <==> forall i :: 0 <= i < |names| ==> HasEquipmentNameLike(v, names[i])
  {
    if |names| > 0 {
      AllNamesLikeIff(v, names[1..]);
      assert forall i :: 1 <= i < |names| ==> names[1..][i - 1] == names[i];
    }
  }

  /** `HasEquipmentNames(v, names)` holds exactly when every name is like
      some equipment name of `v`; so it fails as soon as one name is empty
      or matches nothing. */
  lemma HasEquipmentNamesIff(v: Vehicle, names: seq<string>)
    ensures HasEquipmentNames(v, names) <==> forall i :: 0 <= i < |names| ==> HasEquipmentNameLike(v, names[i])
    ensures "" in names ==> !HasEquipmentNames(v, names)
  {
    AllNamesLikeIff(v, names);
    if "" in names {
      var i :| 0 <= i < |names| && names[i] == "";
      assert !HasEquipmentNameLike(v, names[i]);
    }
  }

  // ---------------------------------------------------------------------
  // The unit tests' vehicles
  // ---------------------------------------------------------------------

  function Sample(usageState: string, offers: Option<seq<OfferPrice>>, gross: real, equipments: seq<Equipment>): Vehicle {
    Vehicle("12345", SampleId, None, Offering(offers), equipments, gross, usageState)
  }

  const SampleId: VssId := "67e55044-10b1-426f-9247-bb680e5fe0c8"

  lemma PriceExamples()
    ensures GetPrice(Sample("NEW", Some([OfferPrice(Some(100.0))]), 0.0, [])) == Some(100.0)
    ensures GetPrice(Sample("NEW", None, 0.0, [])) == None
    ensures GetPrice(Sample("NEW", Some([OfferPrice(None)]), 0.0, [])) == None
    ensures GetPrice(Sample("NEW", Some([]), 0.0, [])) == None
    ensures GetDiscountPercentage(Sample("NEW", Some([OfferPrice(Some(75.0))]), 100.0, [])) == Some(Finite(25.0))
    ensures GetDiscountPercentage(Sample("NEW", None, 100.0, [])) == None
  {
  }

  lemma EquipmentExamples()
    ensures HasEquipmentNameLike(Sample("NEW", None, 0.0, [Equipment(["Test asdasdasd", "Another name"])]), "Test")
    ensures !HasEquipmentNameLike(Sample("NEW", None, 0.0, [Equipment(["Test asdasdasd", "Another name"])]), "")
    ensures !HasEquipmentNames(Sample("NEW", None, 0.0, []), ["Test"])
    ensures HasEquipmentNames(Sample("NEW", None, 0.0, []), [])
    ensures !HasEquipmentNameLike(Sample("NEW", None, 0.0, []), "Test")
  {
    var e := "Test asdasdasd";
    assert Lower(e)[..4] == "test";
    assert StartsWith(Lower(e), Lower("Test"));
  }

  /** The three equipments of the `has_equipment_names` tests. */
  function ThreeEquipments(): seq<Equipment> {
    [ Equipment(["Test asdasdasd", "Another name"]),
      Equipment(["My equipment", "Another name2"]),
      Equipment(["My second equipment", "Another name3"]) ]
  }

  /** A vehicle with those equipments has the names "Test" and "My
      equipment": the first begins one name, the second is another. */
  lemma EquipmentNamesFound()
    ensures HasEquipmentNames(Sample("NEW", None, 0.0, ThreeEquipments()), ["Test", "My equipment"])
  {
    var v := Sample("NEW", None, 0.0, ThreeEquipments());
    var first, mine := "Test asdasdasd", "My equipment";
    assert Lower(first)[..4] == "test";
    assert StartsWith(Lower(first), Lower("Test"));
    assert Lower(mine) == Lower("My equipment");
    assert StartsWith(Lower(mine), Lower("My equipment"));
    assert HasEquipmentNameLike(v, "My equipment");
  }

  /** No name of those equipments holds an `f`, in either case. */
  lemma NoNameHoldsF()
    ensures forall i, j :: 0 <= i < |ThreeEquipments()| && 0 <= j < |ThreeEquipments()[i].name| ==>
      'f' !in Lower(ThreeEquipments()[i].name[j])
  {
    forall i, j | 0 <= i < |ThreeEquipments()| && 0 <= j < |ThreeEquipments()[i].name|
      ensures 'f' !in Lower(ThreeEquipments()[i].name[j])
    {
      LowerAbsent(ThreeEquipments()[i].name[j], 'f');
    }
  }

  /** No name of those equipments contains "Not found", so asking for
      "Test" and "Not found" fails. */
  lemma EquipmentNameNotFound()
    ensures !HasEquipmentNameLike(Sample("NEW", None, 0.0, ThreeEquipments()), "Not found")
    ensures !HasEquipmentNames(Sample("NEW", None, 0.0, ThreeEquipments()), ["Test", "Not found"])
  {
    var v := Sample("NEW", None, 0.0, ThreeEquipments());
    var query := Lower("Not found");
    assert query[4] == 'f';
    NoNameHoldsF();
    forall i, j ensures !NameAtContains(ThreeEquipments(), i, j, query) {
      if 0 <= i < |ThreeEquipments()| && 0 <= j < |ThreeEquipments()[i].name| {
        var name := ThreeEquipments()[i].name[j];
        AbsentChar(Lower(name), query, 'f');
        ContainsIff(Lower(name), query);
      }
    }
    HasEquipmentNameLikeIff(v, "Not found");
    HasEquipmentNamesIff(v, ["Test", "Not found"]);
  }
}
