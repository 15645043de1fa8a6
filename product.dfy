/**
 * The Product document and the validation attributes on its form: Name,
 * CategoryId and SupplierId [Required], Quantity in [0, int.MaxValue] and
 * Price at least 0.01. Category and Supplier are display-only
 * ([BsonIgnore]) and have no place in the stored value.
 */
module ProductModel {
  import opened Wrappers
  import opened Text
  import opened Common

  /** int.MaxValue, the upper end of Quantity's [Range]. */
  const IntMax: int := 0x7FFF_FFFF

  /** A stored product. The name is never null: an action that would store
      a null name throws before it writes. */
  datatype Product = Product(
    name: string,
    quantity: int,
    price: real,
    categoryId: Option<string>,
    supplierId: Option<string>,
    isActive: bool,
    audit: Audit)

  /** What the Create and Edit forms bind. Create does not bind id and
      isActive; Edit does not bind quantity. */
  datatype ProductForm = ProductForm(
    id: Option<string>,
    name: string,
    quantity: int,
    price: real,
    categoryId: Option<string>,
    supplierId: Option<string>,
    isActive: bool)

  /** [Range(0, int.MaxValue)] */
  predicate QuantityInRange(q: int) {
    0 <= q <= IntMax
  }

  /** [Range(0.01, double.MaxValue)]; every decimal is below double.MaxValue. */
  predicate PriceInRange(p: real) {
    p >= 0.01
  }

  /** The attribute errors of a bound product form, evaluated on the values
      as they were posted. */
  function ProductAttributeErrors(f: ProductForm): (r: set<Error>)
    ensures r == {} <==> IsValidProductForm(f)
    ensures r <= {Invalid(Name), Invalid(Quantity), Invalid(Price), Invalid(CategoryId), Invalid(SupplierId)}
  {
    Check(Required(Some(f.name)), Invalid(Name))
    + Check(QuantityInRange(f.quantity), Invalid(Quantity))
    + Check(PriceInRange(f.price), Invalid(Price))
    + Check(Required(f.categoryId), Invalid(CategoryId))
    + Check(Required(f.supplierId), Invalid(SupplierId))
  }

  predicate IsValidProductForm(f: ProductForm) {
    && Required(Some(f.name)) && QuantityInRange(f.quantity) && PriceInRange(f.price)
    && Required(f.categoryId) && Required(f.supplierId)
  }

  /** Each attribute reports its own field: the form is rejected for a
      negative quantity, for a price below 0.01 and for a blank name or
      reference, and for nothing else. */
  lemma ProductErrorsByField(f: ProductForm)
    ensures Invalid(Quantity) in ProductAttributeErrors(f) <==> f.quantity < 0 || f.quantity > IntMax
    ensures Invalid(Price) in ProductAttributeErrors(f) <==> f.price < 0.01
    ensures Invalid(Name) in ProductAttributeErrors(f) <==> AllWhiteSpace(f.name)
    ensures Invalid(CategoryId) in ProductAttributeErrors(f) <==> IsNullOrWhiteSpace(f.categoryId)
    ensures Invalid(SupplierId) in ProductAttributeErrors(f) <==> IsNullOrWhiteSpace(f.supplierId)
  {
  }

  /** The bounds are inclusive: 0 and 0.01 pass, -1 and 0 fail. */
  lemma RangeBoundaries()
    ensures QuantityInRange(0) && QuantityInRange(IntMax) && !QuantityInRange(-1)
    ensures PriceInRange(0.01) && !PriceInRange(0.0) && !PriceInRange(0.009)
  {
  }

  function ProductName(p: Product): string {
    p.name
  }

  predicate ProductIsActive(p: Product) {
    p.isActive
  }
}
