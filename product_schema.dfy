/**
 * The product document schema: required and trimmed text fields, the length
 * caps, the non-negative price and stock, the per-image validator, the rating
 * bounds and the review sub-schema, and the defaults (stock 0, ratings 0/0,
 * no reviews).
 */
module ProductSchema {
  import opened Wrappers
  import opened Text
  import opened Types

  /** A review needs a rating in [1, 5] and a non-empty comment of at most 500 characters. */
  predicate ValidReview(r: Review) {
    1.0 <= r.rating <= 5.0 && r.comment != "" && |r.comment| <= 500
  }

  predicate ValidRatings(r: Ratings) {
    0.0 <= r.average <= 5.0 && r.count >= 0
  }

  /**
   * What the product validators accept. The image validator is declared on
   * the array's element type, so it receives each image string and only
   * rejects an empty string; an empty image list passes.
   */
  predicate ValidProduct(p: Product) {
    && p.name != "" && |p.name| <= 100
    && p.description != "" && |p.description| <= 2000
    && p.price >= 0.0
    && p.category != ""
    && p.brand != ""
    && p.stock >= 0
    && (forall k :: 0 <= k < |p.images| ==> p.images[k] != "")
    && ValidRatings(p.ratings)
    && (forall k :: 0 <= k < |p.reviews| ==> ValidReview(p.reviews[k]))
  }

  /** The fields a client may supply when a product is created. */
  datatype ProductInput = ProductInput(
    name: Option<string>,
    description: Option<string>,
    price: Option<real>,
    category: Option<string>,
    brand: Option<string>,
    stock: Option<int>,
    images: seq<string>,
    ratings: Option<Ratings>,
    reviews: Option<seq<Review>>,
    createdAt: Option<Timestamp>,
    updatedAt: Option<Timestamp>)

  /** The supplied value, else the given one. */
  function Pick<T>(o: Option<T>, default: T): T {
    if o.Some? then o.value else default
  }

  function OrEmpty(s: Option<string>): string {
    if s.None? then "" else s.value
  }

  /**
   * The document `ProductModel.create(input)` builds before validation: the
   * trim setters applied to name, category and brand; every path the body
   * supplies is taken as sent, ratings, reviews and both dates included; the
   * defaults (stock 0, ratings 0/0, no reviews, dates now) fill only the
   * paths it leaves out. A missing price has no document value, so the
   * required check rejects it here.
   */
  function NewProduct(input: ProductInput, id: ProductId, now: Timestamp): (r: Option<Product>)
    ensures r.None? <==> input.price.None?
    ensures r.Some? ==>
              var p := r.value;
              && p.id == id && p.price == input.price.value
              && p.name == Trim(OrEmpty(input.name)) && p.description == OrEmpty(input.description)
              && p.category == Trim(OrEmpty(input.category)) && p.brand == Trim(OrEmpty(input.brand))
              && p.stock == (if input.stock.None? then 0 else input.stock.value)
              && p.images == input.images
              && p.ratings == (if input.ratings.None? then Ratings(0.0, 0) else input.ratings.value)
              && p.reviews == (if input.reviews.None? then [] else input.reviews.value)
              && p.createdAt == (if input.createdAt.None? then now else input.createdAt.value)
              && p.updatedAt == (if input.updatedAt.None? then now else input.updatedAt.value)
  {
    if input.price.None? then None
    else
      Some(Product(
        id, Trim(OrEmpty(input.name)), OrEmpty(input.description), input.price.value,
        Trim(OrEmpty(input.category)), Trim(OrEmpty(input.brand)),
        if input.stock.None? then 0 else input.stock.value,
        input.images, Pick(input.ratings, Ratings(0.0, 0)), Pick(input.reviews, []),
        Pick(input.createdAt, now), Pick(input.updatedAt, now)))
  }

  /** A field update; None leaves the stored value alone. */
  datatype ProductPatch = ProductPatch(
    name: Option<string>,
    description: Option<string>,
    price: Option<real>,
    category: Option<string>,
    brand: Option<string>,
    stock: Option<int>,
    images: Option<seq<string>>,
    ratings: Option<Ratings>,
    reviews: Option<seq<Review>>,
    createdAt: Option<Timestamp>)

  /**
   * The update validators (`runValidators: true`) run on the supplied paths
   * only, after the trim setters: those of the fields a client edits, and
   * those of the ratings and the reviews when a body sends them.
   */
  predicate PatchValid(patch: ProductPatch) {
    EditedFieldsValid(patch) && StatsValid(patch)
  }

  /** The validators of ratings and reviews, on the values a patch supplies. */
  predicate StatsValid(patch: ProductPatch) {
    && (patch.ratings.Some? ==> ValidRatings(patch.ratings.value))
    && (patch.reviews.Some? ==> forall k :: 0 <= k < |patch.reviews.value| ==> ValidReview(patch.reviews.value[k]))
  }

  /** The validators of name, description, price, category, brand, stock and images. */
  predicate EditedFieldsValid(patch: ProductPatch) {
    && (patch.name.Some? ==> Trim(patch.name.value) != "" && |Trim(patch.name.value)| <= 100)
    && (patch.description.Some? ==> patch.description.value != "" && |patch.description.value| <= 2000)
    && (patch.price.Some? ==> patch.price.value >= 0.0)
    && (patch.category.Some? ==> Trim(patch.category.value) != "")
    && (patch.brand.Some? ==> Trim(patch.brand.value) != "")
    && (patch.stock.Some? ==> patch.stock.value >= 0)
    && (patch.images.Some? ==> forall k :: 0 <= k < |patch.images.value| ==> patch.images.value[k] != "")
  }

  /** `{ ...body, updatedAt: now }` applied to a stored product: supplied fields overwrite, the rest stay. */
  function ApplyPatch(p: Product, patch: ProductPatch, now: Timestamp): (q: Product)
    ensures q.name == (if patch.name.Some? then Trim(patch.name.value) else p.name)
    ensures q.description == Pick(patch.description, p.description)
    ensures q.price == Pick(patch.price, p.price)
    ensures q.category == (if patch.category.Some? then Trim(patch.category.value) else p.category)
    ensures q.brand == (if patch.brand.Some? then Trim(patch.brand.value) else p.brand)
    ensures q.stock == Pick(patch.stock, p.stock) && q.images == Pick(patch.images, p.images)
    ensures q.ratings == Pick(patch.ratings, p.ratings) && q.reviews == Pick(patch.reviews, p.reviews)
    ensures q.createdAt == Pick(patch.createdAt, p.createdAt)
    ensures q.id == p.id && q.updatedAt == now
  {
    p.(name := if patch.name.Some? then Trim(patch.name.value) else p.name,
       description := Pick(patch.description, p.description),
       price := Pick(patch.price, p.price),
       category := if patch.category.Some? then Trim(patch.category.value) else p.category,
       brand := if patch.brand.Some? then Trim(patch.brand.value) else p.brand,
       stock := Pick(patch.stock, p.stock),
       images := Pick(patch.images, p.images),
       ratings := Pick(patch.ratings, p.ratings),
       reviews := Pick(patch.reviews, p.reviews),
       createdAt := Pick(patch.createdAt, p.createdAt),
       updatedAt := now)
  }

  /** A valid product stays valid under a patch the update validators accept. */
  lemma PatchPreservesValidity(p: Product, patch: ProductPatch, now: Timestamp)
    requires ValidProduct(p) && PatchValid(patch)
    ensures ValidProduct(ApplyPatch(p, patch, now))
  {
  }

  /** Sending the same update twice leaves the product as sending it once. */
  lemma PatchIdempotent(p: Product, patch: ProductPatch, t1: Timestamp, t2: Timestamp)
    ensures ApplyPatch(ApplyPatch(p, patch, t1), patch, t2) == ApplyPatch(p, patch, t2)
  {
    var once := ApplyPatch(p, patch, t2);
    var twice := ApplyPatch(ApplyPatch(p, patch, t1), patch, t2);
    if patch.name.Some? { TrimIdempotent(patch.name.value); }
    if patch.category.Some? { TrimIdempotent(patch.category.value); }
    if patch.brand.Some? { TrimIdempotent(patch.brand.value); }
    assert twice.name == once.name && twice.category == once.category && twice.brand == once.brand;
    assert twice.description == once.description && twice.price == once.price;
    assert twice.stock == once.stock && twice.images == once.images;
    assert twice.ratings == once.ratings && twice.reviews == once.reviews && twice.createdAt == once.createdAt;
  }

  /** An update that names no field changes nothing but `updatedAt`. */
  lemma EmptyPatchTouchesOnlyUpdatedAt(p: Product, now: Timestamp)
    ensures ApplyPatch(p, ProductPatch(None, None, None, None, None, None, None, None, None, None), now) == p.(updatedAt := now)
  {
  }
}
