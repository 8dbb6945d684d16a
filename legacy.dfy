/** The text and JSON mode's shaping of a search result: keep the vehicles
    that carry every configured equipment name, then sort them by price
    with a stable sort.

    The found vehicles are given in the iteration order of the map they
    come from. The comparator is the one written in the source, which
    puts vehicles without a price first; `SortByPriceNoneLast` is the
    ordering its doc comment describes. */
module Legacy {
  import opened Prelude
  import opened Vehicles
  import opened Config

  // ---------------------------------------------------------------------
  // Equipment filter
  // ---------------------------------------------------------------------

  /** `vehicle_matches_equipment`: no configured filter keeps everything. */
  predicate VehicleMatchesEquipment(v: Vehicle, configuration: Configuration) {
    match configuration.filterEquipment
    case None => true
    case Some(names) => HasEquipmentNames(v, names)
  }

  /** A vehicle passes exactly when no filter is configured or every
      configured name matches one of its equipment names; a filter naming
      the empty string keeps nothing. */
  lemma VehicleMatchesEquipmentIff(v: Vehicle, configuration: Configuration)
    ensures VehicleMatchesEquipment(v, configuration) <==>
      configuration.filterEquipment.None? ||
      forall i :: 0 <= i < |configuration.filterEquipment.value| ==>
        HasEquipmentNameLike(v, configuration.filterEquipment.value[i])
    ensures configuration.filterEquipment.Some? && "" in configuration.filterEquipment.value ==>
      !VehicleMatchesEquipment(v, configuration)
  {
    if configuration.filterEquipment.Some? {
      HasEquipmentNamesIff(v, configuration.filterEquipment.value);
    }
  }

  /** The `filter` step: the vehicles that pass, in their order. Each
      passing vehicle occurs as often as in the input and no other vehicle
      occurs at all. */
  function FilterMatching(vehicles: seq<Vehicle>, configuration: Configuration): (r: seq<Vehicle>)
    ensures forall v :: multiset(r)[v] == if VehicleMatchesEquipment(v, configuration) then multiset(vehicles)[v] else 0
  {
    if vehicles == [] then []
    else
      assert vehicles == [vehicles[0]] + vehicles[1..];
      (if VehicleMatchesEquipment(vehicles[0], configuration) then [vehicles[0]] else [])
        + FilterMatching(vehicles[1..], configuration)
  }

  /** Filtering keeps the order of what it keeps: picking the vehicles
      that tie with `w` before or after filtering gives the same sequence. */
  lemma FilterMatchingCons(v: Vehicle, vehicles: seq<Vehicle>, configuration: Configuration)
    ensures FilterMatching([v] + vehicles, configuration)
      == (if VehicleMatchesEquipment(v, configuration) then [v] else []) + FilterMatching(vehicles, configuration)
  {
    assert ([v] + vehicles)[0] == v && ([v] + vehicles)[1..] == vehicles;
  }

  lemma {:induction false} FilterMatchingKeepsOrder(vehicles: seq<Vehicle>, configuration: Configuration,
                                                    cmp: (Vehicle, Vehicle) -> Ordering, w: Vehicle)
    ensures Tied(FilterMatching(vehicles, configuration), cmp, w) == FilterMatching(Tied(vehicles, cmp, w), configuration)
  {
    if vehicles != [] {
      var v, tail := vehicles[0], vehicles[1..];
      assert vehicles == [v] + tail;
      FilterMatchingKeepsOrder(tail, configuration, cmp, w);
      var rest, tiedTail := FilterMatching(tail, configuration), Tied(tail, cmp, w);
      FilterMatchingCons(v, tail, configuration);
      TiedCons(v, tail, cmp, w);
      var keep, tie := VehicleMatchesEquipment(v, configuration), cmp(v, w) == Equal;
      if keep {
        TiedCons(v, rest, cmp, w);
        assert Tied(FilterMatching(vehicles, configuration), cmp, w) == TiedOne(v, cmp, w) + Tied(rest, cmp, w);
      } else {
        assert FilterMatching(vehicles, configuration) == rest;
      }
      if tie {
        FilterMatchingCons(v, tiedTail, configuration);
      } else {
        assert Tied(vehicles, cmp, w) == tiedTail;
      }
    }
  }

  // ---------------------------------------------------------------------
  // Comparators
  // ---------------------------------------------------------------------

  /** `partial_cmp` on optional prices: `None` is below every `Some`, and
      two prices compare as numbers. */
  function PriceOrder(a: Option<real>, b: Option<real>): Ordering {
    match (a, b)
    case (None, None) => Equal
    case (None, Some(_)) => Less
    case (Some(_), None) => Greater
    case (Some(x), Some(y)) => if x < y then Less else if x > y then Greater else Equal
  }

  /** `sort_by_price` as written. */
  function SortByPrice(a: Vehicle, b: Vehicle): Ordering {
    PriceOrder(GetPrice(a), GetPrice(b))
  }

  /** The ordering the doc comment of `sort_by_price` describes: ascending
      price, vehicles without a price last. */
  function SortByPriceNoneLast(a: Vehicle, b: Vehicle): Ordering {
    match (GetPrice(a), GetPrice(b))
    case (None, None) => Equal
    case (None, Some(_)) => Greater
    case (Some(_), None) => Less
    case (Some(x), Some(y)) => if x < y then Less else if x > y then Greater else Equal
  }

  /** A comparator `sort_by` can rely on: swapping the arguments flips the
      answer and "not greater" is transitive. */
  ghost predicate TotalPreorder<T(!new)>(cmp: (T, T) -> Ordering) {
    && (forall a, b :: cmp(a, b) == Greater <==> cmp(b, a) == Less)
    && (forall a, b, c :: cmp(a, b) != Greater && cmp(b, c) != Greater ==> cmp(a, c) != Greater)
  }

  /** Both comparators are total preorders, and each ties two vehicles
      exactly when they have the same price or both have none. */
  lemma ComparatorsArePreorders()
    ensures TotalPreorder(SortByPrice) && TotalPreorder(SortByPriceNoneLast)
    ensures forall a, b :: SortByPrice(a, b) == Equal <==> GetPrice(a) == GetPrice(b)
    ensures forall a, b :: SortByPriceNoneLast(a, b) == Equal <==> GetPrice(a) == GetPrice(b)
  {
  }

  /** As written, a vehicle without a price sorts before one with a price. */
  lemma SortByPriceNoneFirst(a: Vehicle, b: Vehicle)
    requires GetPrice(a).None? && GetPrice(b).Some?
    ensures SortByPrice(a, b) == Less && SortByPrice(b, a) == Greater
  {
  }

  /** As intended, a vehicle without a price sorts after one with a price,
      and priced vehicles keep their order by price. */
  lemma SortByPriceNoneLastOrder(a: Vehicle, b: Vehicle)
    ensures GetPrice(a).None? && GetPrice(b).Some? ==> SortByPriceNoneLast(a, b) == Greater
    ensures GetPrice(a).Some? && GetPrice(b).Some? ==> SortByPriceNoneLast(a, b) == SortByPrice(a, b)
  {
  }

  // ---------------------------------------------------------------------
  // Stable sort
  // ---------------------------------------------------------------------

  /** Inserts `x` before the first element it is not greater than. */
  function InsertBy<T>(x: T, s: seq<T>, cmp: (T, T) -> Ordering): seq<T> {
    if s == [] then [x]
    else if cmp(x, s[0]) == Greater then [s[0]] + InsertBy(x, s[1..], cmp)
    else [x] + s
  }

  /** `sorted_by`: a stable sort under `cmp`. */
  function SortedBy<T>(s: seq<T>, cmp: (T, T) -> Ordering): seq<T> {
    if s == [] then [] else InsertBy(s[0], SortedBy(s[1..], cmp), cmp)
  }

  ghost predicate Ordered<T(!new)>(s: seq<T>, cmp: (T, T) -> Ordering) {
    forall i, j :: 0 <= i < j < |s| ==> cmp(s[i], s[j]) != Greater
  }

  /** The elements of `s` that tie with `w`, in their order in `s`. */
  function Tied<T>(s: seq<T>, cmp: (T, T) -> Ordering, w: T): seq<T> {
    if s == [] then []
    else (if cmp(s[0], w) == Equal then [s[0]] else []) + Tied(s[1..], cmp, w)
  }

  function TiedOne<T>(y: T, cmp: (T, T) -> Ordering, w: T): seq<T> {
    if cmp(y, w) == Equal then [y] else []
  }

  lemma TiedCons<T>(y: T, s: seq<T>, cmp: (T, T) -> Ordering, w: T)
    ensures Tied([y] + s, cmp, w) == TiedOne(y, cmp, w) + Tied(s, cmp, w)
  {
    assert ([y] + s)[0] == y && ([y] + s)[1..] == s;
  }

  lemma {:induction false} InsertByPermutes<T>(x: T, s: seq<T>, cmp: (T, T) -> Ordering)
    ensures multiset(InsertBy(x, s, cmp)) == multiset{x} + multiset(s)
  {
    if s != [] && cmp(x, s[0]) == Greater {
      InsertByPermutes(x, s[1..], cmp);
      assert s == [s[0]] + s[1..];
    }
  }

  lemma OrderedTail<T(!new)>(s: seq<T>, cmp: (T, T) -> Ordering)
    requires s != [] && Ordered(s, cmp)
    ensures Ordered(s[1..], cmp)
    ensures forall z :: z in s[1..] ==> cmp(s[0], z) != Greater
  {
    forall i, j | 0 <= i < j < |s[1..]| ensures cmp(s[1..][i], s[1..][j]) != Greater {
      assert s[1..][i] == s[i + 1] && s[1..][j] == s[j + 1];
    }
    forall z | z in s[1..] ensures cmp(s[0], z) != Greater {
      var m :| 0 <= m < |s[1..]| && s[1..][m] == z;
      assert s[m + 1] == z;
    }
  }

  lemma OrderedCons<T(!new)>(y: T, s: seq<T>, cmp: (T, T) -> Ordering)
    requires Ordered(s, cmp)
    requires forall z :: z in s ==> cmp(y, z) != Greater
    ensures Ordered([y] + s, cmp)
  {
    var r := [y] + s;
    forall i, j | 0 <= i < j < |r| ensures cmp(r[i], r[j]) != Greater {
      assert r[j] == s[j - 1];
      if i > 0 {
        assert r[i] == s[i - 1];
      }
    }
  }

  lemma {:induction false} InsertByOrdered<T(!new)>(x: T, s: seq<T>, cmp: (T, T) -> Ordering)
    requires TotalPreorder(cmp) && Ordered(s, cmp)
    ensures Ordered(InsertBy(x, s, cmp), cmp)
  {
    if s == [] {
      assert Ordered([x], cmp);
    } else {
      OrderedTail(s, cmp);
      if cmp(x, s[0]) == Greater {
        var rest := InsertBy(x, s[1..], cmp);
        InsertByOrdered(x, s[1..], cmp);
        InsertByPermutes(x, s[1..], cmp);
        forall z | z in rest ensures cmp(s[0], z) != Greater {
          assert z in multiset(rest);
          if z != x {
            assert z in multiset(s[1..]);
          }
        }
        OrderedCons(s[0], rest, cmp);
      } else {
        forall z | z in s ensures cmp(x, z) != Greater {
          if z != s[0] {
            assert s == [s[0]] + s[1..];
            assert z in s[1..];
          }
        }
        OrderedCons(x, s, cmp);
      }
    }
  }

  /** Inserting `x` leaves it after nothing that ties with it, so the
      elements tied with any `w` stay in the order of `[x] + s`. */
  lemma {:induction false} InsertByStable<T(!new)>(x: T, s: seq<T>, cmp: (T, T) -> Ordering, w: T)
    requires TotalPreorder(cmp)
    ensures Tied(InsertBy(x, s, cmp), cmp, w) == Tied([x] + s, cmp, w)
  {
    if s != [] && cmp(x, s[0]) == Greater {
      var ins := InsertBy(x, s[1..], cmp);
      InsertByStable(x, s[1..], cmp, w);
      TiedCons(s[0], ins, cmp, w);
      TiedCons(x, s[1..], cmp, w);
      TiedCons(s[0], s[1..], cmp, w);
      TiedCons(x, s, cmp, w);
      assert s == [s[0]] + s[1..];
      var tx, t0 := TiedOne(x, cmp, w), TiedOne(s[0], cmp, w);
      assert tx == [] || t0 == [];
      assert t0 + (tx + Tied(s[1..], cmp, w)) == tx + (t0 + Tied(s[1..], cmp, w));
    }
  }

  /** The sort keeps every element as often as it was given. */
  lemma {:induction false} SortedByPermutes<T>(s: seq<T>, cmp: (T, T) -> Ordering)
    ensures multiset(SortedBy(s, cmp)) == multiset(s)
  {
    if s != [] {
      SortedByPermutes(s[1..], cmp);
      InsertByPermutes(s[0], SortedBy(s[1..], cmp), cmp);
      assert s == [s[0]] + s[1..];
    }
  }

  /** Under a total preorder the output is in order. */
  lemma {:induction false} SortedByOrdered<T(!new)>(s: seq<T>, cmp: (T, T) -> Ordering)
    requires TotalPreorder(cmp)
    ensures Ordered(SortedBy(s, cmp), cmp)
  {
    if s != [] {
      SortedByOrdered(s[1..], cmp);
      InsertByOrdered(s[0], SortedBy(s[1..], cmp), cmp);
    }
  }

  /** The sort is stable: elements that tie keep their input order. */
  lemma {:induction false} SortedByStable<T(!new)>(s: seq<T>, cmp: (T, T) -> Ordering, w: T)
    requires TotalPreorder(cmp)
    ensures Tied(SortedBy(s, cmp), cmp, w) == Tied(s, cmp, w)
  {
    if s != [] {
      SortedByStable(s[1..], cmp, w);
      InsertByStable(s[0], SortedBy(s[1..], cmp), cmp, w);
      TiedCons(s[0], SortedBy(s[1..], cmp), cmp, w);
      TiedCons(s[0], s[1..], cmp, w);
      assert s == [s[0]] + s[1..];
    }
  }

  // ---------------------------------------------------------------------
  // Filter and sort
  // ---------------------------------------------------------------------

  /** `filter_and_sort_vehicles` as written. */
  function FilterAndSortVehicles(found: seq<Vehicle>, configuration: Configuration): seq<Vehicle> {
    SortedBy(FilterMatching(found, configuration), SortByPrice)
  }

  /** The result holds each passing vehicle as often as it was found and
      nothing else, in non-decreasing order under `sort_by_price`; the
      passing vehicles of one price appear in the order they were found;
      with no filter every found vehicle is kept. */
  lemma FilterAndSortVehiclesSpec(found: seq<Vehicle>, configuration: Configuration)
    ensures var r := FilterAndSortVehicles(found, configuration);
      && (forall v :: multiset(r)[v] == if VehicleMatchesEquipment(v, configuration) then multiset(found)[v] else 0)
      && Ordered(r, SortByPrice)
      && (forall w :: Tied(r, SortByPrice, w) == FilterMatching(Tied(found, SortByPrice, w), configuration))
      && (configuration.filterEquipment.None? ==> multiset(r) == multiset(found))
  {
    var kept := FilterMatching(found, configuration);
    ComparatorsArePreorders();
    SortedByPermutes(kept, SortByPrice);
    SortedByOrdered(kept, SortByPrice);
    forall w ensures Tied(SortedBy(kept, SortByPrice), SortByPrice, w) == FilterMatching(Tied(found, SortByPrice, w), configuration) {
      SortedByStable(kept, SortByPrice, w);
      FilterMatchingKeepsOrder(found, configuration, SortByPrice, w);
    }
  }

  /** As written, every vehicle without a price comes before every vehicle
      with one. */
  lemma UnpricedFirst(found: seq<Vehicle>, configuration: Configuration)
    ensures var r := FilterAndSortVehicles(found, configuration);
      forall i, j :: 0 <= i < j < |r| && GetPrice(r[j]).None? ==> GetPrice(r[i]).None?
  {
    FilterAndSortVehiclesSpec(found, configuration);
  }

  /** `filter_and_sort_vehicles` with the ordering its comparator's doc
      comment describes. */
  function FilterAndSortVehiclesNoneLast(found: seq<Vehicle>, configuration: Configuration): seq<Vehicle> {
    SortedBy(FilterMatching(found, configuration), SortByPriceNoneLast)
  }

  /** With the intended ordering the same vehicles are kept, in ascending
      price, stable among equal prices, and every vehicle without a price
      comes after every vehicle with one. */
  lemma FilterAndSortVehiclesNoneLastSpec(found: seq<Vehicle>, configuration: Configuration)
    ensures var r := FilterAndSortVehiclesNoneLast(found, configuration);
      && (forall v :: multiset(r)[v] == if VehicleMatchesEquipment(v, configuration) then multiset(found)[v] else 0)
      && Ordered(r, SortByPriceNoneLast)
      && (forall w :: Tied(r, SortByPriceNoneLast, w) == FilterMatching(Tied(found, SortByPriceNoneLast, w), configuration))
      && (forall i, j :: 0 <= i < j < |r| && GetPrice(r[i]).None? ==> GetPrice(r[j]).None?)
  {
    var kept := FilterMatching(found, configuration);
    ComparatorsArePreorders();
    SortedByPermutes(kept, SortByPriceNoneLast);
    SortedByOrdered(kept, SortByPriceNoneLast);
    forall w ensures Tied(SortedBy(kept, SortByPriceNoneLast), SortByPriceNoneLast, w) == FilterMatching(Tied(found, SortByPriceNoneLast, w), configuration) {
      SortedByStable(kept, SortByPriceNoneLast, w);
      FilterMatchingKeepsOrder(found, configuration, SortByPriceNoneLast, w);
    }
  }

  /** A vehicle priced 10 found before one without a price: as written the
      unpriced one comes first, with the intended ordering it comes last. */
  lemma UnpricedOrderExample()
    ensures var priced := Sample("NEW", Some([OfferPrice(Some(10.0))]), 12.0, []);
      var unpriced := Sample("NEW", None, 12.0, []);
      var configuration := Configuration(["iX2_U10E"], New, None, None);
      && FilterAndSortVehicles([priced, unpriced], configuration) == [unpriced, priced]
      && FilterAndSortVehiclesNoneLast([priced, unpriced], configuration) == [priced, unpriced]
  {
    var priced := Sample("NEW", Some([OfferPrice(Some(10.0))]), 12.0, []);
    var unpriced := Sample("NEW", None, 12.0, []);
    var configuration := Configuration(["iX2_U10E"], New, None, None);
    assert GetPrice(priced) == Some(10.0) && GetPrice(unpriced) == None;
    assert FilterMatching([priced, unpriced], configuration) == [priced, unpriced] by {
      assert [priced, unpriced][1..] == [unpriced];
    }
    assert SortedBy([unpriced], SortByPrice) == [unpriced];
    assert SortedBy([unpriced], SortByPriceNoneLast) == [unpriced];
    assert [priced, unpriced][1..] == [unpriced];
  }
}
