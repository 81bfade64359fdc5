/** Products and the pricing category each one is given when it is built
    (`ProductPriceType` and `ProductType.init`). */
module Products {

  /** The three pricing categories, in their declaration order. */
  datatype Category = NormalPrice | ClearancePrice | PriceInCart

  /** Every category, in declaration order (`ProductPriceType.allCases`). */
  const AllCategories: seq<Category> := [NormalPrice, ClearancePrice, PriceInCart]

  /** The human-readable label of a category (its raw value). */
  function DisplayName(c: Category): string {
    match c
    case NormalPrice => "Normal Price"
    case ClearancePrice => "Clearance Price"
    case PriceInCart => "Price In Cart"
  }

  /** Different categories print under different labels. */
  lemma DisplayNameInjective()
    ensures forall c, d :: DisplayName(c) == DisplayName(d) ==> c == d
  {
  }

  /** A product record. Prices are only ever compared, so they are reals. */
  datatype Product = Product(
    normalPrice: real,
    clearancePrice: real,
    quantityInStock: int,
    priceIsHidden: bool,
    category: Category)

  /** The conditions under which a product belongs to `c`, stated one
      category at a time. */
  predicate Qualifies(c: Category, normal: real, clearance: real, hidden: bool) {
    match c
    case PriceInCart => hidden
    case ClearancePrice => !hidden && clearance < normal
    case NormalPrice => !hidden && normal <= clearance
  }

  /** The classifier: a hidden price wins, then a discount, else normal. */
  function Classify(normal: real, clearance: real, hidden: bool): (c: Category)
    ensures Qualifies(c, normal, clearance, hidden)
  {
    if hidden then PriceInCart
    else if normal > clearance then ClearancePrice
    else NormalPrice
  }

  /** Exactly one category qualifies, and it is the one the classifier picks. */
  lemma ClassifyUnique(normal: real, clearance: real, hidden: bool, c: Category)
    ensures Qualifies(c, normal, clearance, hidden) <==> c == Classify(normal, clearance, hidden)
  {
  }

  /** A hidden price puts the product in PriceInCart, whatever its prices. */
  lemma HiddenIsPriceInCart(normal: real, clearance: real)
    ensures Classify(normal, clearance, true) == PriceInCart
  {
  }

  /** Equal prices are not a discount. */
  lemma TieIsNormalPrice(price: real)
    ensures Classify(price, price, false) == NormalPrice
  {
  }

  /** The category a product carries is the one its other fields determine. */
  predicate WellFormed(p: Product) {
    p.category == Classify(p.normalPrice, p.clearancePrice, p.priceIsHidden)
  }

  /** Builds a product and computes its category once, at construction. */
  function MakeProduct(normal: real, clearance: real, quantity: int, hidden: bool): (p: Product)
    ensures WellFormed(p)
    ensures p.normalPrice == normal && p.clearancePrice == clearance
    ensures p.quantityInStock == quantity && p.priceIsHidden == hidden
    ensures Qualifies(p.category, normal, clearance, hidden)
  {
    Product(normal, clearance, quantity, hidden, Classify(normal, clearance, hidden))
  }
}
