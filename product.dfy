/** One catalog entry: the `Product` record of the split ETL implementation. */
module Products {
  import opened Wrappers

  /** The value of a product's five fields; a Java `null` string is `Null`. */
  datatype Record = Record(
    productId: Nullable<string>,
    name: Nullable<string>,
    price: real,
    category: Nullable<string>,
    priceRange: Nullable<string>)

  /** The argument of `equals(Object)`: null, a product, or an object of some other class. */
  datatype Object = NullObject | ProductObject(product: Product) | OtherObject {
    function Refs(): set<object> {
      if ProductObject? then {product} else {}
    }
  }

  /** Java's `Objects.equals` on two possibly-null strings. */
  predicate SameString(a: Nullable<string>, b: Nullable<string>) {
    if a.NonNull? then b.NonNull? && a.value == b.value else b.Null?
  }

  /**
   * The boolean expression `equals` returns once `obj` is known to be another product,
   * parsed as Java parses it: `a && b ? c : d` is `(a && b) ? c : d`, and `?:` nests to
   * the right. `self` is this product, `other` the argument.
   */
  predicate EqualsExpression(self: Record, other: Record) {
    if other.price == self.price && self.productId.NonNull? then
      self.productId == other.productId
    else if other.productId.Null? && self.name.NonNull? then
      self.name == other.name
    else if other.name.Null? && self.category.NonNull? then
      self.category == other.category
    else if other.category.Null? && self.priceRange.NonNull? then
      self.priceRange == other.priceRange
    else
      other.priceRange.Null?
  }

  /** The comparison the `equals` method is documented and evidently meant to make: all five fields. */
  predicate FieldsEqual(self: Record, other: Record) {
    && other.price == self.price
    && SameString(self.productId, other.productId)
    && SameString(self.name, other.name)
    && SameString(self.category, other.category)
    && SameString(self.priceRange, other.priceRange)
  }

  class Product {
    var productId: Nullable<string>
    var name: Nullable<string>
    var price: real
    var category: Nullable<string>
    var priceRange: Nullable<string>

    /** The five fields as a value. The getters of the Java class are these field reads. */
    function View(): Record
      reads this
    {
      Record(productId, name, price, category, priceRange)
    }

    /** `new Product()`: every string field is null and the price is 0. */
    constructor Empty()
      ensures View() == Record(Null, Null, 0.0, Null, Null)
    {
      productId, name, price, category, priceRange := Null, Null, 0.0, Null, Null;
    }

    /** The four-argument constructor: the price range is not yet known and is the empty string. */
    constructor (productId: Nullable<string>, name: Nullable<string>, price: real, category: Nullable<string>)
      ensures View() == Record(productId, name, price, category, NonNull(""))
    {
      this.productId := productId;
      this.name := name;
      this.price := price;
      this.category := category;
      this.priceRange := NonNull("");
    }

    /** The five-argument constructor copies every field. */
    constructor WithPriceRange(productId: Nullable<string>, name: Nullable<string>, price: real,
                               category: Nullable<string>, priceRange: Nullable<string>)
      ensures View() == Record(productId, name, price, category, priceRange)
    {
      this.productId := productId;
      this.name := name;
      this.price := price;
      this.category := category;
      this.priceRange := priceRange;
    }

    method SetProductId(productId: Nullable<string>)
      modifies this
      ensures View() == old(View()).(productId := productId)
    {
      this.productId := productId;
    }

    method SetName(name: Nullable<string>)
      modifies this
      ensures View() == old(View()).(name := name)
    {
      this.name := name;
    }

    method SetPrice(price: real)
      modifies this
      ensures View() == old(View()).(price := price)
    {
      this.price := price;
    }

    method SetCategory(category: Nullable<string>)
      modifies this
      ensures View() == old(View()).(category := category)
    {
      this.category := category;
    }

    method SetPriceRange(priceRange: Nullable<string>)
      modifies this
      ensures View() == old(View()).(priceRange := priceRange)
    {
      this.priceRange := priceRange;
    }

    /** `equals(Object)` as written. */
    function Equals(obj: Object): (r: bool)
      reads this, obj.Refs()
      ensures obj == ProductObject(this) ==> r
      ensures !obj.ProductObject? ==> !r
      ensures obj.ProductObject? && obj.product != this ==> (r <==> EqualsExpression(View(), obj.product.View()))
    {
      match obj
      case NullObject => false
      case OtherObject => false
      case ProductObject(p) => p == this || EqualsExpression(View(), p.View())
    }

    /** `equals(Object)` with the conditional operators parenthesized as the authors intended. */
    function EqualsIntended(obj: Object): (r: bool)
      reads this, obj.Refs()
      ensures obj == ProductObject(this) ==> r
      ensures !obj.ProductObject? ==> !r
      ensures obj.ProductObject? ==> (r <==> obj.product == this || View() == obj.product.View())
    {
      match obj
      case NullObject => false
      case OtherObject => false
      case ProductObject(p) =>
        p == this || FieldsEqual(View(), p.View())
    }
  }

  /** The intended comparison is exactly equality of the five fields, hence symmetric. */
  lemma FieldsEqualIsEquality(self: Record, other: Record)
    ensures FieldsEqual(self, other) <==> self == other
    ensures FieldsEqual(self, other) <==> FieldsEqual(other, self)
  {
  }

  /** When the prices are equal and this id is not null, `equals` compares the ids and nothing else. */
  lemma EqualsSamePriceComparesIdOnly(self: Record, other: Record)
    requires other.price == self.price && self.productId.NonNull?
    ensures EqualsExpression(self, other) <==> self.productId == other.productId
  {
  }

  /** When the prices differ and every string of the other product is set, `equals` is false. */
  lemma EqualsDifferentPriceAllSet(self: Record, other: Record)
    requires other.price != self.price
    requires other.productId.NonNull? && other.name.NonNull? && other.category.NonNull? && other.priceRange.NonNull?
    ensures !EqualsExpression(self, other)
  {
  }

  /**
   * The precedence slip in `equals` as written: a product with id "P1" and price 1.00 is
   * "equal" to one with a null id, the same name and price 2.00, but not the other way round.
   */
  lemma EqualsAsWrittenIsNotSymmetric()
    ensures var a := Record(NonNull("P1"), NonNull("WIDGET"), 1.0, NonNull("Toys"), NonNull("Low"));
            var b := Record(Null, NonNull("WIDGET"), 2.0, NonNull("Toys"), NonNull("Low"));
            EqualsExpression(a, b) && !EqualsExpression(b, a) && !FieldsEqual(a, b)
  {
  }

  /** The values of a list of products. */
  function Views(products: seq<Product>): (r: seq<Record>)
    reads set p | p in products
    ensures |r| == |products|
    ensures forall k :: 0 <= k < |products| ==> r[k] == products[k].View()
  {
    seq(|products|, k reads set p | p in products requires 0 <= k < |products| => products[k].View())
  }

  lemma ViewsSnoc(products: seq<Product>, p: Product)
    ensures Views(products + [p]) == Views(products) + [p.View()]
  {
  }
}
