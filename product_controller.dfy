/**
 * The product endpoints as functions of the stored products: the admin guard
 * and document construction of `createProduct`, the query document
 * `getAllProducts` assembles from its optional filters and what the store
 * selects with it, the listing, and the not-found handling and merge of
 * `getProductById` and `updateProduct`.
 */
module ProductController {
  import opened Wrappers
  import opened Text
  import opened Types
  import opened ProductSchema
  import Paging

  datatype ProductError =
    | ProductNotFound
      /** The handler's own role check; it answers 401, not 403. */
    | NotPermitted
      /** The schema or update validators refused the document; the error handler answers. */
    | ProductRejected
  {
    function Status(): Option<int> {
      match this
      case ProductNotFound => Some(404)
      case NotPermitted => Some(401)
      case ProductRejected => None
    }

    function Message(): string {
      match this
      case ProductNotFound => "Product not found"
      case NotPermitted => "You don't have permission to create a product"
      case ProductRejected => "Product validation failed"
    }
  }

  /**
   * `createProduct`: a caller whose role is not admin is refused before
   * anything is built; otherwise the document is built with its defaults and
   * must pass the schema.
   */
  function CreateProductOutcome(requester: Principal, input: ProductInput, id: ProductId, now: Timestamp)
    : (r: Result<Product, ProductError>)
    ensures requester.role != Admin <==> r == Failure(NotPermitted)
    ensures r.Success? <==> requester.role == Admin && NewProduct(input, id, now).Some?
                            && ValidProduct(NewProduct(input, id, now).value)
    ensures r.Success? ==> r.value == NewProduct(input, id, now).value && r.value.id == id
    ensures r.Success? ==> r.value.stock >= 0 && ValidRatings(r.value.ratings)
    ensures r.Success? && input.ratings.None? ==> r.value.ratings == Ratings(0.0, 0)
    ensures r.Success? && input.reviews.None? ==> r.value.reviews == []
    ensures r.Success? && input.ratings.Some? ==> r.value.ratings == input.ratings.value
  {
    if requester.role != Admin then Failure(NotPermitted)
    else
      var p := NewProduct(input, id, now);
      if p.None? || !ValidProduct(p.value) then Failure(ProductRejected) else Success(p.value)
  }

  /** `getProductById`: a missing id is 404. */
  function ProductLookup(products: map<ProductId, Product>, id: ProductId): (r: Result<Product, ProductError>)
    ensures r.Failure? <==> id !in products
    ensures r.Failure? ==> r.error == ProductNotFound && r.error.Status() == Some(404)
    ensures r.Success? ==> r.value == products[id]
  {
    if id in products then Success(products[id]) else Failure(ProductNotFound)
  }

  /**
   * `updateProduct`: the update validators run on the supplied fields first;
   * then a missing id is 404; otherwise the stored product is merged with the
   * supplied fields and `updatedAt` set.
   */
  function UpdateProductOutcome(products: map<ProductId, Product>, id: ProductId, patch: ProductPatch, now: Timestamp)
    : (r: Result<Product, ProductError>)
    ensures !PatchValid(patch) <==> r == Failure(ProductRejected)
    ensures PatchValid(patch) && id !in products <==> r == Failure(ProductNotFound)
    ensures r.Success? <==> PatchValid(patch) && id in products
    ensures r.Success? ==> r.value == ApplyPatch(products[id], patch, now)
  {
    if !PatchValid(patch) then Failure(ProductRejected)
    else if id !in products then Failure(ProductNotFound)
    else Success(ApplyPatch(products[id], patch, now))
  }

  /**
   * The listing request after parsing. `if (req.query.x)` treats an absent and
   * an empty string alike, and a price bound is used whenever one was given.
   */
  datatype ProductQuery = ProductQuery(
    category: Option<string>,
    brand: Option<string>,
    search: Option<string>,
    minPrice: Option<real>,
    maxPrice: Option<real>,
    page: Option<int>,
    limit: Option<int>)

  /** A query string that is present and non-empty, that is, truthy. */
  predicate Given(s: Option<string>) {
    s.Some? && s.value != ""
  }

  datatype PriceRange = PriceRange(gte: Option<real>, lte: Option<real>)

  /** The query document: `category`, `brand`, `$or` over name and description, `price`. */
  datatype StoreQuery = StoreQuery(
    category: Option<string>,
    brand: Option<string>,
    anyOfNameOrDescription: Option<string>,
    price: Option<PriceRange>)

  /** The query `getAllProducts` assembles, one optional clause per given filter. */
  function BuildQuery(q: ProductQuery): (m: StoreQuery)
    ensures m.category.Some? <==> Given(q.category)
    ensures m.brand.Some? <==> Given(q.brand)
    ensures m.anyOfNameOrDescription.Some? <==> Given(q.search)
    ensures m.price.Some? <==> q.minPrice.Some? || q.maxPrice.Some?
    ensures m.price.Some? ==> m.price.value == PriceRange(q.minPrice, q.maxPrice)
  {
    StoreQuery(
      if Given(q.category) then q.category else None,
      if Given(q.brand) then q.brand else None,
      if Given(q.search) then q.search else None,
      if q.minPrice.Some? || q.maxPrice.Some? then Some(PriceRange(q.minPrice, q.maxPrice)) else None)
  }

  /**
   * Whether the store selects a product with a query document: every present
   * clause must hold. A pattern is taken as a literal, matched anywhere in the
   * field and ignoring ASCII case.
   */
  predicate Selects(m: StoreQuery, p: Product) {
    && (m.category.Some? ==> ContainsIgnoringCase(p.category, m.category.value))
    && (m.brand.Some? ==> ContainsIgnoringCase(p.brand, m.brand.value))
    && (m.anyOfNameOrDescription.Some? ==>
          ContainsIgnoringCase(p.name, m.anyOfNameOrDescription.value)
          || ContainsIgnoringCase(p.description, m.anyOfNameOrDescription.value))
    && (m.price.Some? ==>
          (m.price.value.gte.Some? ==> p.price >= m.price.value.gte.value)
          && (m.price.value.lte.Some? ==> p.price <= m.price.value.lte.value))
  }

  /**
   * The filters combine by conjunction: a product is listed iff its category
   * and brand contain the given patterns, its name or description contains the
   * search text, and its price lies within the given bounds, both inclusive.
   * Each condition applies only when its filter was given.
   */
  lemma FilterSemantics(q: ProductQuery, p: Product)
    ensures Selects(BuildQuery(q), p) <==>
              && (Given(q.category) ==> ContainsIgnoringCase(p.category, q.category.value))
              && (Given(q.brand) ==> ContainsIgnoringCase(p.brand, q.brand.value))
              && (Given(q.search) ==>
                    ContainsIgnoringCase(p.name, q.search.value) || ContainsIgnoringCase(p.description, q.search.value))
              && (q.minPrice.Some? ==> q.minPrice.value <= p.price)
              && (q.maxPrice.Some? ==> p.price <= q.maxPrice.value)
  {
  }

  /** A bound equal to the price keeps the product: both ends are inclusive. */
  lemma PriceBoundsInclusive(q: ProductQuery, p: Product)
    requires !Given(q.category) && !Given(q.brand) && !Given(q.search)
    requires q.minPrice == Some(p.price) && q.maxPrice == Some(p.price)
    ensures Selects(BuildQuery(q), p)
  {
  }

  /** With no filter given, every product is selected. */
  lemma NoFiltersSelectAll(q: ProductQuery, p: Product)
    requires !Given(q.category) && !Given(q.brand) && !Given(q.search) && q.minPrice.None? && q.maxPrice.None?
    ensures Selects(BuildQuery(q), p)
  {
  }

  /** The matching ignores ASCII case on both sides. */
  lemma CategoryCaseInsensitive(q: ProductQuery, p: Product)
    requires Given(q.category) && !Given(q.brand) && !Given(q.search) && q.minPrice.None? && q.maxPrice.None?
    ensures Selects(BuildQuery(q), p) <==> Selects(BuildQuery(q.(category := Some(Lower(q.category.value)))), p)
  {
    LowerIdempotent(q.category.value);
    assert Lower(q.category.value) != "";
  }

  function ProductCreatedAt(p: Product): int { p.createdAt }

  /**
   * `getAllProducts`: the page holds at most |limit| selected products, newest
   * first, after skipping `skip`; `total` counts every selected product and
   * `pages` is its ceiling quotient by `limit`.
   */
  function ListProducts(products: seq<Product>, q: ProductQuery): (r: Option<Paging.Page<Product>>)
    ensures r.None? <==> Paging.Params(q.page, q.limit).skip < 0
    ensures r.Some? ==>
              var p := Paging.Params(q.page, q.limit);
              var selected := Paging.Filter(products, (x: Product) => Selects(BuildQuery(q), x));
              && r.value.page == p.page && r.value.limit == p.limit
              && r.value.total == |selected|
              && r.value.pages == Paging.PageCount(|selected|, p.limit)
              && |r.value.items| <= Paging.Abs(p.limit)
              && (forall k :: 0 <= k < |r.value.items| ==>
                    r.value.items[k] in products && Selects(BuildQuery(q), r.value.items[k]))
              && Paging.NewestFirst(r.value.items, ProductCreatedAt)
              && r.value.items == Paging.Window(Paging.SortNewestFirst(selected, ProductCreatedAt), p.skip, p.limit).value
  {
    Paging.ListPage(products, (x: Product) => Selects(BuildQuery(q), x), ProductCreatedAt, q.page, q.limit)
  }
}
