/** The shipping estimate: the distinct products of a cart are looked up in
    the catalog, the cart lines are folded into one package (total weight,
    cumulative volume, largest extent per axis), the package is sent to the
    delivery service with floor defaults, and the cheapest quote is chosen. */
module Shipping {
  import opened Wrappers
  import opened Catalog
  import opened Units
  import opened CartModel

  // ---- Product ids and the product lookup ----

  /** The product id of every cart line, in line order. */
  function ProductIdsOf(s: seq<CartItem>): (r: seq<string>)
    ensures |r| == |s|
    ensures forall i :: 0 <= i < |s| ==> r[i] == s[i].productId
  {
    seq(|s|, i requires 0 <= i < |s| => s[i].productId)
  }

  predicate NoDuplicates(s: seq<string>) {
    forall i, j :: 0 <= i < j < |s| ==> s[i] != s[j]
  }

  /** Stream.distinct: every id once, kept where it first occurs. */
  function Distinct(s: seq<string>): (r: seq<string>)
    ensures NoDuplicates(r)
    ensures forall x :: x in r <==> x in s
  {
    if s == [] then []
    else
      var d := Distinct(s[..|s| - 1]);
      assert forall x :: x in s <==> x in s[..|s| - 1] || x == s[|s| - 1] by {
        assert s == s[..|s| - 1] + [s[|s| - 1]];
      }
      if s[|s| - 1] in d then d else d + [s[|s| - 1]]
  }

  /** A list without repetitions comes out of distinct unchanged. */
  lemma {:induction false} DistinctOfNoDuplicates(s: seq<string>)
    requires NoDuplicates(s)
    ensures Distinct(s) == s
  {
    if s != [] {
      var p := s[..|s| - 1];
      assert NoDuplicates(p);
      DistinctOfNoDuplicates(p);
      assert s[|s| - 1] !in p;
      assert s == p + [s[|s| - 1]];
    }
  }

  /** productDetailsMap after the fan-out: each id whose call returned a
      product, with that product. A null body or a failed call leaves the id
      out; the failures are swallowed. */
  function Details(ids: seq<string>, catalog: string -> Fetch<Product>): (m: map<string, Product>)
    ensures forall x :: x in m <==> x in ids && catalog(x).Fetched?
    ensures forall x :: x in m ==> m[x] == catalog(x).value
  {
    if ids == [] then map[]
    else
      var x := ids[|ids| - 1];
      var m := Details(ids[..|ids| - 1], catalog);
      assert forall y :: y in ids <==> y in ids[..|ids| - 1] || y == x by {
        assert ids == ids[..|ids| - 1] + [x];
      }
      match catalog(x)
      case Fetched(p) => m[x := p]
      case _ => m
  }

  /** The ids that `containsKey` rejects, in list order. */
  function MissingIds(ids: seq<string>, m: map<string, Product>): (r: seq<string>)
    ensures forall x :: x in r <==> x in ids && x !in m
    ensures NoDuplicates(ids) ==> NoDuplicates(r)
  {
    if ids == [] then []
    else
      var x := ids[|ids| - 1];
      var r := MissingIds(ids[..|ids| - 1], m);
      assert forall y :: y in ids <==> y in ids[..|ids| - 1] || y == x by {
        assert ids == ids[..|ids| - 1] + [x];
      }
      assert NoDuplicates(ids) ==> NoDuplicates(ids[..|ids| - 1]) && x !in ids[..|ids| - 1];
      if x in m then r else r + [x]
  }

  /** The size comparison of the map against the distinct ids fails exactly
      when some id has no product. */
  lemma {:induction false} SizeCheck(ids: seq<string>, catalog: string -> Fetch<Product>)
    requires NoDuplicates(ids)
    ensures |Details(ids, catalog)| <= |ids|
    ensures |Details(ids, catalog)| == |ids| <==> forall x :: x in ids ==> catalog(x).Fetched?
  {
    if ids != [] {
      var p, x := ids[..|ids| - 1], ids[|ids| - 1];
      assert ids == p + [x];
      assert NoDuplicates(p) && x !in p;
      SizeCheck(p, catalog);
      assert x !in Details(p, catalog);
    }
  }

  /** The distinct product ids of the cart lines. */
  function CartIds(items: seq<CartItem>): (r: seq<string>)
    ensures NoDuplicates(r)
    ensures forall id :: id in r <==> exists x :: x in items && x.productId == id
  {
    var ids := ProductIdsOf(items);
    assert forall id :: id in ids <==> exists x :: x in items && x.productId == id by {
      forall id ensures id in ids <==> exists x :: x in items && x.productId == id {
        if id in ids {
          var i :| 0 <= i < |items| && ids[i] == id;
          assert items[i] in items;
        }
        if exists x :: x in items && x.productId == id {
          var x :| x in items && x.productId == id;
          var i :| 0 <= i < |items| && items[i] == x;
          assert ids[i] == id;
        }
      }
    }
    Distinct(ids)
  }

  /** The lookup for the distinct products of the given cart lines. */
  function CartDetails(items: seq<CartItem>, catalog: string -> Fetch<Product>): (m: map<string, Product>)
    ensures forall x :: x in items && catalog(x.productId).Fetched? ==> x.productId in m
  {
    Details(CartIds(items), catalog)
  }

  /** The size check of the lookup fails exactly when some line's product
      was not fetched; when it passes every line's product is in the map. */
  lemma LookupCheck(items: seq<CartItem>, catalog: string -> Fetch<Product>)
    ensures |CartDetails(items, catalog)| == |CartIds(items)| <==>
      forall x :: x in items ==> catalog(x.productId).Fetched?
    ensures |CartDetails(items, catalog)| == |CartIds(items)| ==> Covered(items, CartDetails(items, catalog))
  {
    SizeCheck(CartIds(items), catalog);
  }

  // ---- The aggregation over the cart lines ----

  /** The accumulators of the loop: total weight in kg, the largest length,
      width and height in cm seen so far, and the cumulative volume in cm³. */
  datatype Package = Package(weightKg: real, maxLength: real, maxWidth: real, maxHeight: real, volume: real)

  /** A product's bounding box in centimetres. */
  datatype Box = Box(length: real, width: real, height: real)

  /** BigDecimal.max. */
  function Max(a: real, b: real): (r: real)
    ensures r >= a && r >= b && (r == a || r == b)
  {
    if a >= b then a else b
  }

  /** The weight a line adds: its product's weight in kg times the quantity,
      when the weight, its value and its unit are all present; else nothing. */
  function LineWeight(x: CartItem, p: Product): real {
    if p.weight.Some? && p.weight.value.value.Some? && p.weight.value.unit.Some?
    then ConvertWeightToKg(p.weight) * x.quantity as real
    else 0.0
  }

  /** A product's box after conversion to cm, when it has dimensions; a
      missing value or unit converts to 0. */
  function BoxOf(p: Product): Option<Box> {
    match p.dimensions
    case None => None
    case Some(d) =>
      Some(Box(ConvertDimensionToCm(d.length, d.unit), ConvertDimensionToCm(d.width, d.unit),
               ConvertDimensionToCm(d.height, d.unit)))
  }

  /** The volume a line adds: height × width × length times the quantity. */
  function LineVolume(x: CartItem, p: Product): real {
    match BoxOf(p)
    case None => 0.0
    case Some(b) => b.height * b.width * b.length * x.quantity as real
  }

  /** One pass of the loop body over a line whose product is p. */
  function AddLine(acc: Package, x: CartItem, p: Product): Package {
    var w := acc.weightKg + LineWeight(x, p);
    match BoxOf(p)
    case None => acc.(weightKg := w)
    case Some(b) =>
      Package(w, Max(acc.maxLength, b.length), Max(acc.maxWidth, b.width), Max(acc.maxHeight, b.height),
              acc.volume + LineVolume(x, p))
  }

  const Empty: Package := Package(0.0, 0.0, 0.0, 0.0, 0.0)

  predicate Covered(s: seq<CartItem>, details: map<string, Product>) {
    forall x :: x in s ==> x.productId in details
  }

  /** The loop over the cart lines, from zero accumulators. */
  function Aggregate(s: seq<CartItem>, details: map<string, Product>): Package
    requires Covered(s, details)
  {
    if s == [] then Empty
    else
      var x := s[|s| - 1];
      assert x in s;
      AddLine(Aggregate(s[..|s| - 1], details), x, details[x.productId])
  }

  /** Folding one more line is one more pass of the loop body. */
  lemma AggregateSnoc(s: seq<CartItem>, i: nat, details: map<string, Product>)
    requires Covered(s, details) && i < |s|
    ensures Covered(s[..i], details) && Covered(s[..i + 1], details) && s[i].productId in details
    ensures Aggregate(s[..i + 1], details) == AddLine(Aggregate(s[..i], details), s[i], details[s[i].productId])
  {
    assert s[i] in s;
    assert s[..i + 1][..i] == s[..i];
    assert forall x :: x in s[..i] ==> x in s;
    assert forall x :: x in s[..i + 1] ==> x in s;
  }

  /** AddLine field by field, in the terms the loop body uses. */
  lemma AddLineFields(acc: Package, x: CartItem, p: Product)
    ensures var r := AddLine(acc, x, p);
      && (p.weight.Some? && p.weight.value.value.Some? && p.weight.value.unit.Some? ==>
            r.weightKg == acc.weightKg + ConvertWeightToKg(p.weight) * x.quantity as real)
      && (!(p.weight.Some? && p.weight.value.value.Some? && p.weight.value.unit.Some?) ==>
            r.weightKg == acc.weightKg)
      && (p.dimensions.None? ==>
            r.maxLength == acc.maxLength && r.maxWidth == acc.maxWidth && r.maxHeight == acc.maxHeight &&
            r.volume == acc.volume)
      && (p.dimensions.Some? ==>
            var d := p.dimensions.value;
            var l, w, h := ConvertDimensionToCm(d.length, d.unit), ConvertDimensionToCm(d.width, d.unit),
              ConvertDimensionToCm(d.height, d.unit);
            r.maxLength == Max(acc.maxLength, l) && r.maxWidth == Max(acc.maxWidth, w) &&
            r.maxHeight == Max(acc.maxHeight, h) && r.volume == acc.volume + h * w * l * x.quantity as real)
  {
    AddLineWeight(acc, x, p);
    if p.dimensions.Some? {
      var d := p.dimensions.value;
      AddLineBox(acc, x, p, ConvertDimensionToCm(d.length, d.unit), ConvertDimensionToCm(d.width, d.unit),
                 ConvertDimensionToCm(d.height, d.unit));
    }
  }

  /** The weight accumulator of one pass, and the box accumulators of a
      pass over a product without dimensions. */
  lemma AddLineWeight(acc: Package, x: CartItem, p: Product)
    ensures var r := AddLine(acc, x, p);
      && (p.weight.Some? && p.weight.value.value.Some? && p.weight.value.unit.Some? ==>
            r.weightKg == acc.weightKg + ConvertWeightToKg(p.weight) * x.quantity as real)
      && (!(p.weight.Some? && p.weight.value.value.Some? && p.weight.value.unit.Some?) ==>
            r.weightKg == acc.weightKg)
      && (p.dimensions.None? ==>
            r.maxLength == acc.maxLength && r.maxWidth == acc.maxWidth && r.maxHeight == acc.maxHeight &&
            r.volume == acc.volume)
  {
    assert AddLine(acc, x, p).weightKg == acc.weightKg + LineWeight(x, p);
  }

  /** The box accumulators of one pass over a product with dimensions l, w, h in cm. */
  lemma AddLineBox(acc: Package, x: CartItem, p: Product, l: real, w: real, h: real)
    requires p.dimensions.Some?
    requires var d := p.dimensions.value;
      l == ConvertDimensionToCm(d.length, d.unit) && w == ConvertDimensionToCm(d.width, d.unit) &&
      h == ConvertDimensionToCm(d.height, d.unit)
    ensures var r := AddLine(acc, x, p);
      r.maxLength == Max(acc.maxLength, l) && r.maxWidth == Max(acc.maxWidth, w) &&
      r.maxHeight == Max(acc.maxHeight, h) && r.volume == acc.volume + h * w * l * x.quantity as real
  {
    assert BoxOf(p) == Some(Box(l, w, h));
    VolumeOf(Box(l, w, h), l, w, h, x.quantity);
  }

  lemma VolumeOf(b: Box, l: real, w: real, h: real, q: int)
    requires b == Box(l, w, h)
    ensures b.height * b.width * b.length * q as real == h * w * l * q as real
  {
  }

  /** The loop of estimateShipping's step 3, accumulating in place. */
  method AggregateLines(items: seq<CartItem>, details: map<string, Product>) returns (pkg: Package)
    requires Covered(items, details)
    ensures pkg == Aggregate(items, details)
  {
    var totalWeightKg, maxLength, maxWidth, maxHeight, volume := 0.0, 0.0, 0.0, 0.0, 0.0;
    for i := 0 to |items|
      invariant Covered(items[..i], details)
      invariant totalWeightKg == Aggregate(items[..i], details).weightKg
      invariant maxLength == Aggregate(items[..i], details).maxLength
      invariant maxWidth == Aggregate(items[..i], details).maxWidth
      invariant maxHeight == Aggregate(items[..i], details).maxHeight
      invariant volume == Aggregate(items[..i], details).volume
    {
      var item := items[i];
      var p := details[item.productId];
      AggregateSnoc(items, i, details);
      AddLineFields(Aggregate(items[..i], details), item, p);
      if p.weight.Some? && p.weight.value.value.Some? && p.weight.value.unit.Some? {
        totalWeightKg := totalWeightKg + ConvertWeightToKg(p.weight) * item.quantity as real;
      }
      if p.dimensions.Some? {
        var d := p.dimensions.value;
        var heightCm := ConvertDimensionToCm(d.height, d.unit);
        var widthCm := ConvertDimensionToCm(d.width, d.unit);
        var lengthCm := ConvertDimensionToCm(d.length, d.unit);
        maxLength := Max(maxLength, lengthCm);
        maxWidth := Max(maxWidth, widthCm);
        maxHeight := Max(maxHeight, heightCm);
        volume := volume + heightCm * widthCm * lengthCm * item.quantity as real;
        AddLineBox(Aggregate(items[..i], details), item, p, lengthCm, widthCm, heightCm);
      }
    }
    assert items[..|items|] == items;
    pkg := Package(totalWeightKg, maxLength, maxWidth, maxHeight, volume);
  }

  /** Two packages as one: weights and volumes add, extents take the maximum. */
  function Join(a: Package, b: Package): Package {
    Package(a.weightKg + b.weightKg, Max(a.maxLength, b.maxLength), Max(a.maxWidth, b.maxWidth),
            Max(a.maxHeight, b.maxHeight), a.volume + b.volume)
  }

  /** The extents start at zero and only grow. */
  lemma {:induction false} AggregateNonNegative(s: seq<CartItem>, details: map<string, Product>)
    requires Covered(s, details)
    ensures var a := Aggregate(s, details); a.maxLength >= 0.0 && a.maxWidth >= 0.0 && a.maxHeight >= 0.0
  {
    if s != [] {
      AggregateNonNegative(s[..|s| - 1], details);
    }
  }

  /** Folding a + b is folding a and b apart and joining the results. */
  lemma {:induction false} AggregateConcat(a: seq<CartItem>, b: seq<CartItem>, details: map<string, Product>)
    requires Covered(a, details) && Covered(b, details)
    ensures Covered(a + b, details)
    ensures Aggregate(a + b, details) == Join(Aggregate(a, details), Aggregate(b, details))
  {
    if b == [] {
      assert a + b == a;
      AggregateNonNegative(a, details);
      JoinEmpty(Aggregate(a, details));
    } else {
      var b0, y := b[..|b| - 1], b[|b| - 1];
      assert (a + b)[..|a + b| - 1] == a + b0;
      assert y in b;
      AggregateConcat(a, b0, details);
      JoinAddLine(Aggregate(a, details), Aggregate(b0, details), y, details[y.productId]);
    }
  }

  /** The empty package is a unit of Join on the right. */
  lemma JoinEmpty(a: Package)
    requires a.maxLength >= 0.0 && a.maxWidth >= 0.0 && a.maxHeight >= 0.0
    ensures Join(a, Empty) == a
  {
  }

  /** Adding a line after a join is adding it to the second package. */
  lemma JoinAddLine(a: Package, b: Package, x: CartItem, p: Product)
    ensures AddLine(Join(a, b), x, p) == Join(a, AddLine(b, x, p))
  {
  }

  /** The package does not depend on the order of the lines. */
  lemma AggregateSwap(a: seq<CartItem>, b: seq<CartItem>, details: map<string, Product>)
    requires Covered(a, details) && Covered(b, details)
    ensures Covered(a + b, details) && Covered(b + a, details)
    ensures Aggregate(a + b, details) == Aggregate(b + a, details)
  {
    AggregateConcat(a, b, details);
    AggregateConcat(b, a, details);
  }

  /** The sum Σ weight × quantity over the lines, first line first. */
  function TotalWeight(s: seq<CartItem>, details: map<string, Product>): real
    requires Covered(s, details)
  {
    if s == [] then 0.0 else LineWeight(s[0], details[s[0].productId]) + TotalWeight(s[1..], details)
  }

  /** The sum Σ L × W × H × quantity over the lines with a box, first line first. */
  function TotalVolume(s: seq<CartItem>, details: map<string, Product>): real
    requires Covered(s, details)
  {
    if s == [] then 0.0 else LineVolume(s[0], details[s[0].productId]) + TotalVolume(s[1..], details)
  }

  /** The loop's weight and volume are the two sums over the lines. */
  lemma {:induction false} AggregateSums(s: seq<CartItem>, details: map<string, Product>)
    requires Covered(s, details)
    ensures Aggregate(s, details).weightKg == TotalWeight(s, details)
    ensures Aggregate(s, details).volume == TotalVolume(s, details)
  {
    if s != [] {
      assert s == [s[0]] + s[1..];
      AggregateConcat([s[0]], s[1..], details);
      assert [s[0]][..0] == [];
      AggregateSums(s[1..], details);
    }
  }

  /** The converted box of the product of line i. */
  function BoxAt(s: seq<CartItem>, details: map<string, Product>, i: nat): Option<Box>
    requires Covered(s, details) && i < |s|
  {
    assert s[i] in s;
    BoxOf(details[s[i].productId])
  }

  /** Each extent bounds that extent of every line with a box, and is either
      0 or the extent of one of them. */
  lemma AggregateMaxima(s: seq<CartItem>, details: map<string, Product>)
    requires Covered(s, details)
    ensures var a := Aggregate(s, details);
      forall i :: 0 <= i < |s| && BoxAt(s, details, i).Some? ==>
        var b := BoxAt(s, details, i).value;
        b.length <= a.maxLength && b.width <= a.maxWidth && b.height <= a.maxHeight
    ensures var a := Aggregate(s, details);
      a.maxLength == 0.0 || exists i :: 0 <= i < |s| && BoxAt(s, details, i).Some? && BoxAt(s, details, i).value.length == a.maxLength
    ensures var a := Aggregate(s, details);
      a.maxWidth == 0.0 || exists i :: 0 <= i < |s| && BoxAt(s, details, i).Some? && BoxAt(s, details, i).value.width == a.maxWidth
    ensures var a := Aggregate(s, details);
      a.maxHeight == 0.0 || exists i :: 0 <= i < |s| && BoxAt(s, details, i).Some? && BoxAt(s, details, i).value.height == a.maxHeight
  {
    AggregateBounds(s, details);
    AggregateAttained(s, details);
  }

  lemma {:induction false} AggregateBounds(s: seq<CartItem>, details: map<string, Product>)
    requires Covered(s, details)
    ensures var a := Aggregate(s, details);
      forall i :: 0 <= i < |s| && BoxAt(s, details, i).Some? ==>
        var b := BoxAt(s, details, i).value;
        b.length <= a.maxLength && b.width <= a.maxWidth && b.height <= a.maxHeight
  {
    if s != [] {
      var p, n := s[..|s| - 1], |s| - 1;
      assert forall x :: x in p ==> x in s;
      AggregateBounds(p, details);
      assert forall i :: 0 <= i < |p| ==> BoxAt(p, details, i) == BoxAt(s, details, i);
      assert BoxAt(s, details, n) == BoxOf(details[s[n].productId]);
    }
  }

  lemma {:induction false} AggregateAttained(s: seq<CartItem>, details: map<string, Product>)
    requires Covered(s, details)
    ensures var a := Aggregate(s, details);
      a.maxLength == 0.0 || exists i :: 0 <= i < |s| && BoxAt(s, details, i).Some? && BoxAt(s, details, i).value.length == a.maxLength
    ensures var a := Aggregate(s, details);
      a.maxWidth == 0.0 || exists i :: 0 <= i < |s| && BoxAt(s, details, i).Some? && BoxAt(s, details, i).value.width == a.maxWidth
    ensures var a := Aggregate(s, details);
      a.maxHeight == 0.0 || exists i :: 0 <= i < |s| && BoxAt(s, details, i).Some? && BoxAt(s, details, i).value.height == a.maxHeight
  {
    if s != [] {
      var p, n := s[..|s| - 1], |s| - 1;
      assert forall x :: x in p ==> x in s;
      AggregateAttained(p, details);
      assert forall i :: 0 <= i < |p| ==> BoxAt(p, details, i) == BoxAt(s, details, i);
      assert BoxAt(s, details, n) == BoxOf(details[s[n].productId]);
    }
  }

  // ---- The request to the delivery service ----

  /** CourierServiceabilityRequest as built in step 5. */
  datatype CourierRequest = CourierRequest(
    pickupPostcode: int,
    deliveryPostcode: int,
    weight: real,
    cod: int,
    length: real,
    width: real,
    height: real,
    declaredValue: real,
    itemsCount: int)

  /** The only organisation with a configured pickup pincode, and that pincode. */
  const PickupOrg: string := "org_ae1e6ea1-0de2-4b6a-bc86-9d8d043fd75b"
  const PickupPincode: int := 600029

  /** getOrganizationSourcePincode: the fixed pincode for the one configured
      organisation; every other organisation fails. */
  function SourcePincode(orgId: string): (r: Result<int, Failure>)
    ensures r.Ok? <==> orgId == PickupOrg
    ensures r.Ok? ==> r.value == PickupPincode
    ensures r.Err? ==> r.error == PincodeNotConfigured
  {
    if orgId == PickupOrg then Ok(PickupPincode) else Err(PincodeNotConfigured)
  }

  /** An extent the delivery service is given: the maximum when positive, 10 cm otherwise. */
  function OrDefault(x: real): (r: real)
    ensures r > 0.0
    ensures x > 0.0 ==> r == x
    ensures x <= 0.0 ==> r == 10.0
  {
    if x > 0.0 then x else 10.0
  }

  /** The request: prepaid, declared value 100, one parcel, the weight floored
      at 0.5 kg and every extent defaulted. */
  function RequestFor(pickup: int, destination: int, a: Package): (r: CourierRequest)
    ensures r.pickupPostcode == pickup && r.deliveryPostcode == destination
    ensures r.weight >= 0.5 && r.weight >= a.weightKg && (r.weight == a.weightKg || r.weight == 0.5)
    ensures r.length > 0.0 && r.width > 0.0 && r.height > 0.0
    ensures a.maxLength > 0.0 ==> r.length == a.maxLength
    ensures a.maxWidth > 0.0 ==> r.width == a.maxWidth
    ensures a.maxHeight > 0.0 ==> r.height == a.maxHeight
    ensures r.cod == 0 && r.declaredValue == 100.0 && r.itemsCount == 1
  {
    CourierRequest(pickup, destination, Max(a.weightKg, 0.5), 0,
                   OrDefault(a.maxLength), OrDefault(a.maxWidth), OrDefault(a.maxHeight), 100.0, 1)
  }

  // ---- Choosing the quote ----

  /** A quote from the delivery service. `courier` stands for every field
      other than the cost and the flag. */
  datatype DeliveryOption = DeliveryOption(courier: string, cost: real, bestOption: bool)

  /** The response of estimateShipping. */
  datatype ShippingEstimate = ShippingEstimate(
    cartId: Id,
    destinationPincode: int,
    estimatedTotalShippingCost: real,
    deliveryOptions: seq<DeliveryOption>)

  /** The quote list; a null one is empty. */
  function QuoteList(f: Fetch<seq<DeliveryOption>>): seq<DeliveryOption> {
    if f.Fetched? then f.value else []
  }

  /** Stream.min by cost: the first quote of least cost (the reduction keeps
      the earlier of two equal quotes). */
  function CheapestIndex(s: seq<DeliveryOption>): (i: nat)
    requires s != []
    ensures i < |s|
    ensures forall j :: 0 <= j < |s| ==> s[i].cost <= s[j].cost
    ensures forall j :: 0 <= j < i ==> s[j].cost > s[i].cost
  {
    if |s| == 1 then 0
    else
      var k := CheapestIndex(s[..|s| - 1]);
      if s[k].cost <= s[|s| - 1].cost then k else |s| - 1
  }

  /** Every quote equal to the best one (field by field) flagged as best. */
  function MarkBest(s: seq<DeliveryOption>, best: DeliveryOption): seq<DeliveryOption> {
    seq(|s|, i requires 0 <= i < |s| => if s[i] == best then s[i].(bestOption := true) else s[i])
  }

  /** Step 6 and 7: no quote fails; otherwise the least cost is the headline
      and the quotes come back with the cheapest flagged. */
  function Choose(cartId: Id, destination: int, s: seq<DeliveryOption>): (r: Result<ShippingEstimate, Failure>)
    ensures r.Err? <==> s == []
    ensures r.Err? ==> r.error == NoDeliveryOptions
    ensures r.Ok? ==>
      var e := r.value;
      && e.cartId == cartId && e.destinationPincode == destination
      && |e.deliveryOptions| == |s|
      && (forall j :: 0 <= j < |s| ==> e.estimatedTotalShippingCost <= s[j].cost)
      && (exists j :: 0 <= j < |s| && s[j].cost == e.estimatedTotalShippingCost && e.deliveryOptions[j].bestOption)
      && (forall j :: 0 <= j < |s| ==>
            e.deliveryOptions[j].cost == s[j].cost && e.deliveryOptions[j].courier == s[j].courier)
      && (forall j :: 0 <= j < |s| && e.deliveryOptions[j].bestOption != s[j].bestOption ==>
            s[j].cost == e.estimatedTotalShippingCost)
    ensures r.Ok? ==>
      exists k :: 0 <= k < |s|
        && (forall j :: 0 <= j < |s| ==> s[k].cost <= s[j].cost)
        && (forall j :: 0 <= j < k ==> s[j].cost > s[k].cost)
        && r.value.estimatedTotalShippingCost == s[k].cost
        && forall j :: 0 <= j < |s| ==> r.value.deliveryOptions[j].bestOption == (s[j].bestOption || s[j] == s[k])
  {
    if s == [] then Err(NoDeliveryOptions)
    else
      var k := CheapestIndex(s);
      var marked := MarkBest(s, s[k]);
      assert marked[k].bestOption;
      Ok(ShippingEstimate(cartId, destination, s[k].cost, marked))
  }

  // ---- The whole estimate ----

  /** Steps 1 to 3 once the cart is known: an empty cart fails, then missing
      products fail listing them, then a package with neither weight nor
      volume fails. */
  function ShipmentOf(items: seq<CartItem>, catalog: string -> Fetch<Product>): (r: Result<Package, Failure>)
    ensures r == Err(EmptyCart) <==> items == []
    ensures (r.Err? && r.error.ProductNotFound?) <==>
      items != [] && exists x :: x in items && !catalog(x.productId).Fetched?
    ensures r.Err? && r.error.ProductNotFound? ==>
      && r.error.productIds != [] && NoDuplicates(r.error.productIds)
      && forall id :: id in r.error.productIds <==>
           (exists x :: x in items && x.productId == id) && !catalog(id).Fetched?
    ensures r.Err? ==> r.error == EmptyCart || r.error.ProductNotFound? || r.error == NoPhysicalData
    ensures r.Err? && r.error == NoPhysicalData ==>
      items != [] && Covered(items, CartDetails(items, catalog)) &&
      Aggregate(items, CartDetails(items, catalog)).weightKg <= 0.0 &&
      Aggregate(items, CartDetails(items, catalog)).volume <= 0.0
    ensures r.Ok? ==>
      && items != [] && Covered(items, CartDetails(items, catalog))
      && r.value == Aggregate(items, CartDetails(items, catalog))
      && (r.value.weightKg > 0.0 || r.value.volume > 0.0)
  {
    if items == [] then Err(EmptyCart)
    else
      var ids := CartIds(items);
      var details := Details(ids, catalog);
      LookupCheck(items, catalog);
      if |details| != |ids| then Err(ProductNotFound(MissingIds(ids, details)))
      else
        var a := Aggregate(items, details);
        if a.weightKg <= 0.0 && a.volume <= 0.0 then Err(NoPhysicalData) else Ok(a)
  }

  /** estimateShipping after getCartDetails: the stage failures in source
      order, then the pickup pincode, then the call to the delivery service
      (whose exception propagates), then the choice of quote. */
  function Estimate(cart: Result<CartView, Failure>, orgId: string, destination: int,
                    catalog: string -> Fetch<Product>, quotes: CourierRequest -> Fetch<seq<DeliveryOption>>)
    : Result<ShippingEstimate, Failure>
  {
    match cart
    case Err(e) => Err(e)
    case Ok(view) =>
      match ShipmentOf(view.items, catalog)
      case Err(e) => Err(e)
      case Ok(a) =>
        match SourcePincode(orgId)
        case Err(e) => Err(e)
        case Ok(pickup) =>
          var reply := quotes(RequestFor(pickup, destination, a));
          if reply.Faulted? then Err(DeliveryUnavailable)
          else Choose(view.cart.cartId, destination, QuoteList(reply))
  }

  /** estimateShipping from the result of getCartDetails on: a failed lookup
      propagates, then the in-place stages, the pickup pincode, the call to
      the delivery service and the choice of quote. */
  method EstimateCart(cart: Result<CartView, Failure>, orgId: string, destinationPincode: int,
                      catalog: string -> Fetch<Product>, quotes: CourierRequest -> Fetch<seq<DeliveryOption>>)
    returns (r: Result<ShippingEstimate, Failure>)
    ensures r == Estimate(cart, orgId, destinationPincode, catalog, quotes)
  {
    if cart.Err? {
      return Err(cart.error);
    }
    var view := cart.value;
    if view.items == [] {
      return Err(EmptyCart);
    }
    var productIds := CartIds(view.items);
    var productDetailsMap := Details(productIds, catalog);
    LookupCheck(view.items, catalog);
    if |productDetailsMap| != |productIds| {
      return Err(ProductNotFound(MissingIds(productIds, productDetailsMap)));
    }
    var shipment := AggregateLines(view.items, productDetailsMap);
    if shipment.weightKg <= 0.0 && shipment.volume <= 0.0 {
      return Err(NoPhysicalData);
    }
    var sourcePincode := SourcePincode(orgId);
    if sourcePincode.Err? {
      return Err(sourcePincode.error);
    }
    var reply := quotes(RequestFor(sourcePincode.value, destinationPincode, shipment));
    if reply.Faulted? {
      return Err(DeliveryUnavailable);
    }
    r := Choose(view.cart.cartId, destinationPincode, QuoteList(reply));
  }

  /** A successful estimate is for the configured organisation and a
      non-empty cart whose products were all found; it asks the service
      about the aggregated package and reports the least cost quoted. */
  lemma EstimateOk(cart: Result<CartView, Failure>, orgId: string, destination: int,
                   catalog: string -> Fetch<Product>, quotes: CourierRequest -> Fetch<seq<DeliveryOption>>)
    requires Estimate(cart, orgId, destination, catalog, quotes).Ok?
    ensures cart.Ok? && cart.value.items != [] && orgId == PickupOrg
    ensures forall x :: x in cart.value.items ==> catalog(x.productId).Fetched?
    ensures Covered(cart.value.items, CartDetails(cart.value.items, catalog))
    ensures var a := Aggregate(cart.value.items, CartDetails(cart.value.items, catalog));
      var s := QuoteList(quotes(RequestFor(PickupPincode, destination, a)));
      var e := Estimate(cart, orgId, destination, catalog, quotes).value;
      && e.cartId == cart.value.cart.cartId && e.destinationPincode == destination
      && (a.weightKg > 0.0 || a.volume > 0.0)
      && s != [] && |e.deliveryOptions| == |s|
      && (forall j :: 0 <= j < |s| ==> e.estimatedTotalShippingCost <= s[j].cost)
      && (exists j :: 0 <= j < |s| && s[j].cost == e.estimatedTotalShippingCost)
  {
    var view := cart.value;
    var r := ShipmentOf(view.items, catalog);
    assert r.Ok? && SourcePincode(orgId).Ok?;
    var reply := quotes(RequestFor(PickupPincode, destination, r.value));
    assert Estimate(cart, orgId, destination, catalog, quotes) == Choose(view.cart.cartId, destination, QuoteList(reply));
  }

  /** Which failure an estimate ends in, stage by stage. */
  lemma EstimateFails(cart: Result<CartView, Failure>, orgId: string, destination: int,
                      catalog: string -> Fetch<Product>, quotes: CourierRequest -> Fetch<seq<DeliveryOption>>)
    ensures var r := Estimate(cart, orgId, destination, catalog, quotes);
      && (cart.Err? ==> r == Err(cart.error))
      && (cart.Ok? && cart.value.items == [] ==> r == Err(EmptyCart))
      && ((cart.Ok? && cart.value.items != [] && exists x :: x in cart.value.items && !catalog(x.productId).Fetched?)
          ==> r.Err? && r.error.ProductNotFound?)
      && ((cart.Ok? && cart.value.items != [] && orgId != PickupOrg)
          ==> r.Err? && (r.error.ProductNotFound? || r.error == NoPhysicalData || r.error == PincodeNotConfigured))
      && ((cart.Ok? && orgId == PickupOrg && ShipmentOf(cart.value.items, catalog).Ok?) ==>
            var reply := quotes(RequestFor(PickupPincode, destination, ShipmentOf(cart.value.items, catalog).value));
            && (reply.Faulted? ==> r == Err(DeliveryUnavailable))
            && (!reply.Faulted? && QuoteList(reply) == [] ==> r == Err(NoDeliveryOptions)))
      && (r.Err? && cart.Ok? ==>
            r.error == EmptyCart || r.error.ProductNotFound? || r.error == NoPhysicalData
            || r.error == PincodeNotConfigured || r.error == DeliveryUnavailable || r.error == NoDeliveryOptions)
  {
  }
}
