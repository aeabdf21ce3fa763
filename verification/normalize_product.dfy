/**
 * `normalizeProduct` (lib/commerce/utils.ts): one display record built from either
 * a search hit or a full product. The input is modelled as one record of optional
 * keys; the search-hit branch is chosen by the presence of the `productId` key.
 * Prices stay uninterpreted numbers (`real`).
 */
module NormalizeProduct {
  import opened Wrappers

  datatype Image = Image(link: Option<string>, alt: Option<string>)

  datatype ImageGroup = ImageGroup(images: Option<seq<Image>>)

  /** The keys of a search hit or a product that the normaliser reads. */
  datatype ProductLike = ProductLike(
    productId: Option<string>,
    productName: Option<string>,
    id: Option<string>,
    name: Option<string>,
    image: Option<Image>,
    imageGroups: Option<seq<ImageGroup>>,
    price: Option<real>,
    priceMax: Option<real>,
    currency: Option<string>,
    orderable: Option<bool>,
    brand: Option<string>,
    shortDescription: Option<string>,
    longDescription: Option<string>)

  /** The normalised record. `id` is `None` when the product carried no id. */
  datatype NormalizedProduct = NormalizedProduct(
    id: Option<string>,
    name: string,
    image: Option<string>,
    imageAlt: Option<string>,
    price: Option<real>,
    priceMax: Option<real>,
    currency: string,
    orderable: bool,
    imageGroups: Option<seq<ImageGroup>>,
    brand: Option<string>,
    shortDescription: Option<string>,
    longDescription: Option<string>)

  const DefaultCurrency: string := "USD"
  const NamePrefix: string := "Product "

  /** JavaScript truthiness of an optional string. */
  predicate Truthy(s: Option<string>)
  {
    s.Some? && s.value != ""
  }

  /** JavaScript's `a || b` on optional strings. */
  function OrElse(a: Option<string>, b: Option<string>): (r: Option<string>)
    ensures Truthy(a) ==> r == a
    ensures !Truthy(a) ==> r == b
  {
    if Truthy(a) then a else b
  }

  /** A value interpolated into a template literal: `undefined` when absent. */
  function Interpolated(s: Option<string>): (r: string)
    ensures s.Some? ==> r == s.value
    ensures s.None? ==> r == "undefined"
  {
    match s
    case Some(v) => v
    case None => "undefined"
  }

  /** `imageGroups?.[0]?.images?.[0]?.link`. */
  function FirstGroupLink(groups: Option<seq<ImageGroup>>): (r: Option<string>)
    ensures r.Some? ==> (
      && groups.Some? && |groups.value| > 0
      && groups.value[0].images.Some? && |groups.value[0].images.value| > 0
      && groups.value[0].images.value[0].link == r)
    ensures (&& groups.Some? && |groups.value| > 0
             && groups.value[0].images.Some? && |groups.value[0].images.value| > 0) ==>
      r == groups.value[0].images.value[0].link
    ensures (|| groups.None? || |groups.value| == 0
             || groups.value[0].images.None? || |groups.value[0].images.value| == 0) ==>
      r.None?
  {
    if groups.None? || |groups.value| == 0 then None
    else
      var first := groups.value[0];
      if first.images.None? || |first.images.value| == 0 then None
      else first.images.value[0].link
  }

  /** `name || \`Product ${id}\``: a display name that is never empty. */
  function DisplayName(name: Option<string>, id: Option<string>): (r: string)
    ensures r != ""
    ensures Truthy(name) ==> r == name.value
    ensures !Truthy(name) ==> r == NamePrefix + Interpolated(id)
  {
    if Truthy(name) then name.value else NamePrefix + Interpolated(id)
  }

  /** The search-hit branch is taken exactly when the input has a `productId` key. */
  predicate IsSearchHit(p: ProductLike)
  {
    p.productId.Some?
  }

  function Normalize(p: ProductLike): (r: NormalizedProduct)
    ensures IsSearchHit(p) ==> r.id == p.productId
    ensures !IsSearchHit(p) ==> r.id == p.id
    ensures r.name != "" && r.currency != ""
    ensures r.currency == (if Truthy(p.currency) then p.currency.value else DefaultCurrency)
    ensures r.price == p.price && r.priceMax == p.priceMax && r.imageGroups == p.imageGroups
    ensures !r.orderable <==> IsSearchHit(p) && p.orderable == Some(false)
    ensures IsSearchHit(p) ==> r.brand.None? && r.shortDescription.None? && r.longDescription.None?
    ensures !IsSearchHit(p) ==>
      r.brand == p.brand && r.shortDescription == p.shortDescription && r.longDescription == p.longDescription
  {
    if IsSearchHit(p) then
      var ownImage := if p.image.Some? then p.image.value else Image(None, None);
      NormalizedProduct(
        p.productId,
        DisplayName(p.productName, p.productId),
        OrElse(ownImage.link, FirstGroupLink(p.imageGroups)),
        OrElse(ownImage.alt, p.productName),
        p.price,
        p.priceMax,
        if Truthy(p.currency) then p.currency.value else DefaultCurrency,
        p.orderable.GetOr(true),
        p.imageGroups,
        None, None, None)
    else
      NormalizedProduct(
        p.id,
        DisplayName(p.name, p.id),
        FirstGroupLink(p.imageGroups),
        p.name,
        p.price,
        p.priceMax,
        if Truthy(p.currency) then p.currency.value else DefaultCurrency,
        true,
        p.imageGroups,
        p.brand,
        p.shortDescription,
        p.longDescription)
  }

  /**
   * The name is the product's own name when it has one, and otherwise
   * "Product " followed by the id, or by "undefined" when there is no id.
   */
  lemma NameFallback(p: ProductLike)
    ensures var own := if IsSearchHit(p) then p.productName else p.name;
      var id := if IsSearchHit(p) then p.productId else p.id;
      && (Truthy(own) ==> Normalize(p).name == own.value)
      && (!Truthy(own) && id.Some? ==> Normalize(p).name == "Product " + id.value)
      && (!Truthy(own) && id.None? ==> Normalize(p).name == "Product undefined")
  {
  }

  /**
   * The image of a hit is its own image link when that is non-empty, otherwise the
   * first link of the first image group; a product only has the group link.
   * The alt text is the hit's own alt text or its name, and a product's name.
   */
  lemma ImageSources(p: ProductLike)
    ensures IsSearchHit(p) && p.image.Some? && Truthy(p.image.value.link) ==>
      Normalize(p).image == p.image.value.link
    ensures IsSearchHit(p) && (p.image.None? || !Truthy(p.image.value.link)) ==>
      Normalize(p).image == FirstGroupLink(p.imageGroups)
    ensures !IsSearchHit(p) ==> Normalize(p).image == FirstGroupLink(p.imageGroups)
    ensures IsSearchHit(p) ==> (
      Normalize(p).imageAlt == if p.image.Some? && Truthy(p.image.value.alt) then p.image.value.alt else p.productName)
    ensures !IsSearchHit(p) ==> Normalize(p).imageAlt == p.name
  {
  }

  /** The hit that describes the same item as `product`, with no image or flag of its own. */
  function AsSearchHit(product: ProductLike, productId: string): (h: ProductLike)
    ensures IsSearchHit(h)
  {
    ProductLike(Some(productId), product.name, None, None, None, product.imageGroups,
      product.price, product.priceMax, product.currency, None, None, None, None)
  }

  /**
   * The two branches agree: a product and the search hit for the same item,
   * which has no image or orderable flag of its own, normalise to the same
   * record up to the three description fields only a product carries.
   */
  lemma BranchesAgree(product: ProductLike, productId: string)
    requires !IsSearchHit(product) && product.id == Some(productId)
    ensures var a, b := Normalize(product), Normalize(AsSearchHit(product, productId));
      a.(brand := None, shortDescription := None, longDescription := None) == b
  {
  }
}
