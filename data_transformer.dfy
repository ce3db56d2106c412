/** The business rules applied to every product, in their fixed order. */
module DataTransformer {
  import opened Wrappers
  import opened Exceptions
  import opened Text
  import opened Decimal
  import opened Products

  const Electronics: string := "Electronics"
  const PremiumElectronics: string := "Premium Electronics"
  /** The 10% discount given to the "Electronics" category. */
  const DiscountRate: real := 0.10
  /** A discounted "Electronics" product above this price becomes "Premium Electronics". */
  const PremiumThreshold: real := 500.0

  const PriceRanges: set<string> := {"Low", "Medium", "High", "Premium"}

  /** The price-range label, by inclusive upper bounds 10, 100 and 500. */
  function DeterminePriceRange(price: real): (range: string)
    ensures range in PriceRanges
  {
    if price <= 10.0 then "Low"
    else if price <= 100.0 then "Medium"
    else if price <= 500.0 then "High"
    else "Premium"
  }

  /** The position of a label in the order Low < Medium < High < Premium. */
  function RangeRank(range: string): nat {
    if range == "Low" then 0 else if range == "Medium" then 1 else if range == "High" then 2 else 3
  }

  /** Each label covers exactly its interval of prices. */
  lemma PriceRangeBuckets(price: real)
    ensures DeterminePriceRange(price) == "Low" <==> price <= 10.0
    ensures DeterminePriceRange(price) == "Medium" <==> 10.0 < price <= 100.0
    ensures DeterminePriceRange(price) == "High" <==> 100.0 < price <= 500.0
    ensures DeterminePriceRange(price) == "Premium" <==> 500.0 < price
  {
  }

  /** A higher price never gets a lower label. */
  lemma PriceRangeMonotone(p: real, q: real)
    requires p <= q
    ensures RangeRank(DeterminePriceRange(p)) <= RangeRank(DeterminePriceRange(q))
  {
  }

  /** The boundary prices of the bucket table, in cents. */
  lemma PriceRangeBoundaries()
    ensures DeterminePriceRange(10.00) == "Low" && DeterminePriceRange(10.01) == "Medium"
    ensures DeterminePriceRange(100.00) == "Medium" && DeterminePriceRange(100.01) == "High"
    ensures DeterminePriceRange(500.00) == "High" && DeterminePriceRange(500.01) == "Premium"
  {
  }

  /** The price after the optional discount, before rounding. */
  function DiscountedPrice(category: Nullable<string>, price: real): real {
    if category == NonNull(Electronics) then price * (1.0 - DiscountRate) else price
  }

  /**
   * `transformProduct` on the value of a product. Upper-casing a null name throws
   * `NullPointerException` before anything else happens.
   */
  function TransformRecord(r: Record): Result<Record, Exception> {
    if r.name.Null? then Failure(NullPointer)
    else
      var price := RoundToTwoDecimals(DiscountedPrice(r.category, r.price));
      var category :=
        if price > PremiumThreshold && r.category == NonNull(Electronics) then NonNull(PremiumElectronics)
        else r.category;
      Success(Record(r.productId, NonNull(ToUpper(r.name.value)), price, category,
                     NonNull(DeterminePriceRange(price))))
  }

  /** A product with a name is transformed; the id is kept and the name upper-cased. */
  lemma TransformKeepsIdUppercasesName(r: Record)
    ensures TransformRecord(r).Success? <==> r.name.NonNull?
    ensures TransformRecord(r).Failure? ==> TransformRecord(r).error == NullPointer
    ensures r.name.NonNull? ==>
      TransformRecord(r).value.productId == r.productId &&
      TransformRecord(r).value.name == NonNull(ToUpper(r.name.value))
  {
  }

  /** The discount applies exactly to the category "Electronics"; the price is then rounded. */
  lemma TransformPrice(r: Record)
    requires r.name.NonNull?
    ensures r.category == NonNull(Electronics) ==>
      TransformRecord(r).value.price == RoundToTwoDecimals(r.price * 0.9)
    ensures r.category != NonNull(Electronics) ==>
      TransformRecord(r).value.price == RoundToTwoDecimals(r.price)
  {
  }

  /** The category becomes "Premium Electronics" exactly for "Electronics" above 500 after rounding. */
  lemma TransformCategory(r: Record)
    requires r.name.NonNull?
    ensures var t := TransformRecord(r).value;
      (r.category == NonNull(Electronics) && t.price > 500.0) ==> t.category == NonNull(PremiumElectronics)
    ensures var t := TransformRecord(r).value;
      !(r.category == NonNull(Electronics) && t.price > 500.0) ==> t.category == r.category
  {
  }

  /** The price range is set from the final price and is one of the four labels. */
  lemma TransformPriceRange(r: Record)
    requires r.name.NonNull?
    ensures var t := TransformRecord(r).value;
      t.priceRange == NonNull(DeterminePriceRange(t.price)) && t.priceRange.value in PriceRanges
  {
  }

  /** A product recategorized to "Premium Electronics" is always in the "Premium" range. */
  lemma RecategorizedIsPremium(r: Record)
    requires r.name.NonNull? && r.category == NonNull(Electronics)
    requires TransformRecord(r).value.category == NonNull(PremiumElectronics)
    ensures TransformRecord(r).value.priceRange == NonNull("Premium")
  {
  }

  /** A non-negative price stays non-negative, and the output price is within half a cent of the discounted one. */
  lemma TransformPriceBounds(r: Record)
    requires r.name.NonNull?
    ensures var t := TransformRecord(r).value;
      -0.005 <= t.price - DiscountedPrice(r.category, r.price) <= 0.005 &&
      (r.price >= 0.0 ==> t.price >= 0.0)
  {
  }

  /**
   * A second pass changes nothing when the first one did not leave the category
   * "Electronics": the name is already upper case, the price already whole cents, and
   * "Premium Electronics" is never discounted again.
   */
  lemma {:induction false} TransformIdempotent(r: Record)
    requires r.name.NonNull?
    requires TransformRecord(r).value.category != NonNull(Electronics)
    ensures TransformRecord(TransformRecord(r).value) == TransformRecord(r)
  {
    var t := TransformRecord(r).value;
    ToUpperIdempotent(r.name.value);
    RoundHalfUpExact(RoundHalfUpCents(DiscountedPrice(r.category, r.price)));
    assert RoundToTwoDecimals(t.price) == t.price;
  }

  /** A product in "Electronics" priced 600.00 is discounted to 540.00 and becomes "Premium Electronics". */
  lemma TransformExamplePremium()
    ensures TransformRecord(Record(NonNull("P2"), NonNull("tv"), 600.0, NonNull(Electronics), NonNull(""))) ==
      Success(Record(NonNull("P2"), NonNull("TV"), 540.0, NonNull(PremiumElectronics), NonNull("Premium")))
  {
    assert RoundHalfUpCents(540.0) == 54000;
    assert ToUpper("tv") == "TV" by {
      assert ToUpper("tv")[0] == 'T' && ToUpper("tv")[1] == 'V';
    }
  }

  /** "widget" at 19.999 in "Electronics": 17.9991 after the discount, 18.00 after rounding, range "Medium". */
  lemma TransformExampleWidget()
    ensures TransformRecord(Record(NonNull("P1"), NonNull("widget"), 19.999, NonNull(Electronics), NonNull(""))) ==
      Success(Record(NonNull("P1"), NonNull("WIDGET"), 18.0, NonNull(Electronics), NonNull("Medium")))
  {
    assert DiscountedPrice(NonNull(Electronics), 19.999) == 17.9991;
    assert RoundHalfUpCents(17.9991) == 1800;
    assert ToUpper("widget") == "WIDGET" by {
      var u := ToUpper("widget");
      assert u[0] == 'W' && u[1] == 'I' && u[2] == 'D' && u[3] == 'G' && u[4] == 'E' && u[5] == 'T';
    }
  }

  /** `transformProduct`: a fresh product with the rules applied one setter at a time; the input is not touched. */
  method TransformProduct(original: Product) returns (r: Result<Product, Exception>)
    ensures r.Success? ==> fresh(r.value) && TransformRecord(original.View()) == Success(r.value.View())
    ensures r.Failure? ==> TransformRecord(original.View()) == Failure(r.error)
  {
    var transformed := new Product(original.productId, original.name, original.price, original.category);
    if transformed.name.Null? {
      return Failure(NullPointer);
    }
    var uppercaseName := ToUpper(transformed.name.value);
    transformed.SetName(NonNull(uppercaseName));

    var price := transformed.price;
    var originalCategory := original.category;
    if transformed.category == NonNull(Electronics) {
      price := price * (1.0 - DiscountRate);
    }
    price := RoundToTwoDecimals(price);
    transformed.SetPrice(price);

    if price > PremiumThreshold && originalCategory == NonNull(Electronics) {
      transformed.SetCategory(NonNull(PremiumElectronics));
    }

    var priceRange := DeterminePriceRange(price);
    transformed.SetPriceRange(NonNull(priceRange));
    return Success(transformed);
  }

  /** The products that are not null, in order. */
  function NonNullProducts(products: seq<Product?>): (r: seq<Product>)
    ensures |r| <= |products|
    ensures forall p :: p in r ==> p in products
  {
    if products == [] then []
    else if products[0] == null then NonNullProducts(products[1..])
    else [products[0]] + NonNullProducts(products[1..])
  }

  /** `transform` on values: every record in order, stopping at the first one that throws. */
  function TransformAll(records: seq<Record>): (r: Result<seq<Record>, Exception>)
    ensures r.Success? <==> forall k :: 0 <= k < |records| ==> records[k].name.NonNull?
    ensures r.Success? ==>
      (|r.value| == |records| &&
       forall k :: 0 <= k < |records| ==> Success(r.value[k]) == TransformRecord(records[k]))
    ensures r.Failure? ==> r.error == NullPointer
  {
    if records == [] then Success([])
    else
      match TransformRecord(records[0])
      case Failure(e) => Failure(e)
      case Success(t) =>
        match TransformAll(records[1..])
        case Failure(e) => Failure(e)
        case Success(ts) => Success([t] + ts)
  }

  /**
   * `transform`: a null list is rejected; null elements are skipped; every other product
   * gives one fresh transformed product, in input order.
   */
  method Transform(products: Nullable<seq<Product?>>) returns (r: Result<seq<Product>, Exception>)
    ensures products.Null? ==> r == Failure(IllegalArgument("Products list cannot be null"))
    ensures products.NonNull? ==>
      var inputs := Views(NonNullProducts(products.value));
      match TransformAll(inputs)
      case Failure(e) => r == Failure(e)
      case Success(outs) =>
        (r.Success? && Views(r.value) == outs && forall p :: p in r.value ==> fresh(p))
  {
    if products.Null? {
      return Failure(IllegalArgument("Products list cannot be null"));
    }
    var list := products.value;
    var transformedProducts: seq<Product> := [];
    ghost var done: seq<Product> := [];
    for i := 0 to |list|
      invariant done == NonNullProducts(list[..i])
      invariant TransformsTo(Views(done), Views(transformedProducts))
      invariant forall p :: p in transformedProducts ==> fresh(p)
    {
      var error;
      error, transformedProducts, done := TransformStep(list, i, transformedProducts, done);
      if error.Some? {
        return Failure(error.value);
      }
    }
    assert list[..|list|] == list;
    TransformAllSucceeds(Views(done), Views(transformedProducts));
    r := Success(transformedProducts);
  }

  /** Every input record transforms into the output record at the same position. */
  ghost predicate TransformsTo(inputs: seq<Record>, outputs: seq<Record>) {
    |inputs| == |outputs| &&
    forall k :: 0 <= k < |inputs| ==> TransformRecord(inputs[k]) == Success(outputs[k])
  }

  lemma TransformsToSnoc(inputs: seq<Record>, outputs: seq<Record>, x: Record, y: Record)
    requires TransformsTo(inputs, outputs) && TransformRecord(x) == Success(y)
    ensures TransformsTo(inputs + [x], outputs + [y])
  {
  }

  /**
   * One turn of the loop of `transform`: the element at index `i` is skipped when null,
   * transformed and appended otherwise, or ends the whole call with the exception it throws.
   */
  method TransformStep(list: seq<Product?>, i: nat, outs: seq<Product>, ghost done: seq<Product>)
    returns (error: Option<Exception>, outs': seq<Product>, ghost done': seq<Product>)
    requires i < |list|
    requires done == NonNullProducts(list[..i])
    requires TransformsTo(Views(done), Views(outs))
    ensures error.Some? ==> TransformAll(Views(NonNullProducts(list))) == Failure(error.value)
    ensures error.None? ==> done' == NonNullProducts(list[..i + 1]) && TransformsTo(Views(done'), Views(outs'))
    ensures forall p :: p in outs' ==> p in outs || fresh(p)
  {
    assert list[..i + 1][..i] == list[..i];
    NonNullProductsSnoc(list[..i], list[i]);
    assert list[..i + 1] == list[..i] + [list[i]];
    var product := list[i];
    if product == null {
      return None, outs, done;
    }
    var t := TransformProduct(product);
    if t.Failure? {
      NonNullProductsAppend(list[..i + 1], list[i + 1..]);
      assert list[..i + 1] + list[i + 1..] == list;
      TransformAllFails(Views(NonNullProducts(list)), Views(done + [product]));
      return Some(t.error), outs, done;
    }
    ViewsSnoc(done, product);
    ViewsSnoc(outs, t.value);
    TransformsToSnoc(Views(done), Views(outs), product.View(), t.value.View());
    return None, outs + [t.value], done + [product];
  }

  /** A list that holds no null is its own non-null part. */
  lemma {:induction false} NonNullProductsOfProducts(products: seq<Product>)
    ensures NonNullProducts(products) == products
  {
    if products != [] {
      NonNullProductsOfProducts(products[1..]);
      assert [products[0]] + products[1..] == products;
    }
  }

  lemma {:induction false} NonNullProductsAppend(a: seq<Product?>, b: seq<Product?>)
    ensures NonNullProducts(a + b) == NonNullProducts(a) + NonNullProducts(b)
  {
    if a != [] {
      assert (a + b)[1..] == a[1..] + b;
      NonNullProductsAppend(a[1..], b);
    } else {
      assert a + b == b;
    }
  }

  lemma {:induction false} NonNullProductsSnoc(products: seq<Product?>, p: Product?)
    ensures NonNullProducts(products + [p]) == NonNullProducts(products) + (if p == null then [] else [p])
  {
    if products != [] {
      assert (products + [p])[1..] == products[1..] + [p];
      NonNullProductsSnoc(products[1..], p);
    } else {
      assert [p][1..] == [];
    }
  }

  lemma TransformAllFails(all: seq<Record>, prefix: seq<Record>)
    requires |prefix| <= |all| && prefix == all[..|prefix|]
    requires |prefix| > 0 && prefix[|prefix| - 1].name.Null?
    ensures TransformAll(all) == Failure(NullPointer)
  {
    assert all[|prefix| - 1].name.Null?;
  }

  lemma TransformAllSucceeds(inputs: seq<Record>, outputs: seq<Record>)
    requires TransformsTo(inputs, outputs)
    ensures TransformAll(inputs) == Success(outputs)
  {
    var r := TransformAll(inputs);
    assert r.Success?;
    assert r.value == outputs;
  }
}
