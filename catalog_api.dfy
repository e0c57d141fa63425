/** The read side of the catalog API (backend/main.py): the category and brand lists, the
    product search with each product's statistics, and the product detail. Every request
    reads the three tables as they are when it arrives; the database is PostgreSQL. */
module CatalogApi {
  import opened Wrappers
  import opened Text
  import opened Models
  import opened Collections

  // ---------------------------------------------------------------- facet lists

  function CategoryColumn(ps: seq<Product>): (c: seq<Option<string>>)
    ensures |c| == |ps| && forall i :: 0 <= i < |ps| ==> c[i] == ps[i].category
  {
    seq(|ps|, i requires 0 <= i < |ps| => ps[i].category)
  }

  function BrandColumn(ps: seq<Product>): (c: seq<Option<string>>)
    ensures |c| == |ps| && forall i :: 0 <= i < |ps| ==> c[i] == ps[i].brand
  {
    seq(|ps|, i requires 0 <= i < |ps| => ps[i].brand)
  }

  /** GET /categories: every category some product has, once, without empty ones, sorted. */
  function Categories(ps: seq<Product>): (r: seq<string>)
    ensures Sorted(r) && NoDup(r)
    ensures forall v :: v in r <==> v != "" && exists p :: p in ps && p.category == Some(v)
  {
    var c := CategoryColumn(ps);
    assert forall v :: Some(v) in c <==> exists p :: p in ps && p.category == Some(v) by {
      forall v ensures Some(v) in c <==> exists p :: p in ps && p.category == Some(v) {
        if Some(v) in c {
          var i :| 0 <= i < |c| && c[i] == Some(v);
          assert ps[i] in ps;
        }
        if exists p :: p in ps && p.category == Some(v) {
          var p :| p in ps && p.category == Some(v);
          var i :| 0 <= i < |ps| && ps[i] == p;
          assert c[i] == Some(v);
        }
      }
    }
    SortedFacet(c)
  }

  /** GET /brands: every brand some product has, once, without empty ones, sorted. */
  function Brands(ps: seq<Product>): (r: seq<string>)
    ensures Sorted(r) && NoDup(r)
    ensures forall v :: v in r <==> v != "" && exists p :: p in ps && p.brand == Some(v)
  {
    var c := BrandColumn(ps);
    assert forall v :: Some(v) in c <==> exists p :: p in ps && p.brand == Some(v) by {
      forall v ensures Some(v) in c <==> exists p :: p in ps && p.brand == Some(v) {
        if Some(v) in c {
          var i :| 0 <= i < |c| && c[i] == Some(v);
          assert ps[i] in ps;
        }
        if exists p :: p in ps && p.brand == Some(v) {
          var p :| p in ps && p.brand == Some(v);
          var i :| 0 <= i < |ps| && ps[i] == p;
          assert c[i] == Some(v);
        }
      }
    }
    SortedFacet(c)
  }

  /** The category list does not depend on the order the products are stored in. */
  lemma CategoriesOrderFree(ps: seq<Product>, qs: seq<Product>)
    requires forall p :: p in ps <==> p in qs
    ensures Categories(ps) == Categories(qs)
  {
    SortedUnique(Categories(ps), Categories(qs));
  }

  // ---------------------------------------------------------------- joins

  /** The reviews of one product, in the order of the model's sequence. The query has no
      ORDER BY, so PostgreSQL leaves the order unspecified; this is one possible outcome. */
  function ReviewsOf(rs: seq<Review>, productId: string): (r: seq<Review>)
    ensures forall x :: x in r <==> x in rs && x.productId == productId
    ensures |r| <= |rs|
  {
    if rs == [] then []
    else
      var rest := ReviewsOf(rs[1..], productId);
      assert forall x :: x in rs <==> x == rs[0] || x in rs[1..];
      if rs[0].productId == productId then [rs[0]] + rest else rest
  }

  predicate Reviewed(rs: seq<Review>, videoId: string) {
    exists r :: r in rs && r.videoId == videoId
  }

  /** The videos some of the given reviews belong to (the join of videos with reviews), in
      the order of the model's video sequence; the DISTINCT join has no ORDER BY, so its first
      video is one possible outcome. */
  function VideosOf(vs: seq<Video>, rs: seq<Review>): (r: seq<Video>)
    ensures forall v :: v in r <==> v in vs && Reviewed(rs, v.id)
    ensures |r| <= |vs|
  {
    if vs == [] then []
    else
      var rest := VideosOf(vs[1..], rs);
      assert forall v :: v in vs <==> v == vs[0] || v in vs[1..];
      if Reviewed(rs, vs[0].id) then [vs[0]] + rest else rest
  }

  // ---------------------------------------------------------------- search

  /** SQL `column LIKE '%q%'`: the column is set and holds q. */
  predicate Mentions(text: Option<string>, q: string) {
    text.Some? && Contains(text.value, q)
  }

  /** The text search: the product joins at least one review and its video, and q occurs in
      the product's name or brand or in the channel name of one of those videos. */
  predicate Matches(t: Tables, p: Product, q: string) {
    var vs := VideosOf(t.videos, ReviewsOf(t.reviews, p.id));
    vs != []
    && (Mentions(p.name, q) || Mentions(p.brand, q) || exists v :: v in vs && Mentions(v.channelName, q))
  }

  /** The three filters, each applied only when its parameter is set and non-empty. */
  predicate Selected(t: Tables, p: Product, q: Option<string>, category: Option<string>, brand: Option<string>) {
    && (Truthy(q) ==> Matches(t, p, q.value))
    && (Truthy(category) ==> p.category == category)
    && (Truthy(brand) ==> p.brand == brand)
  }

  function Select(t: Tables, ps: seq<Product>, q: Option<string>, category: Option<string>,
                  brand: Option<string>): (r: seq<Product>)
    ensures forall p :: p in r <==> p in ps && Selected(t, p, q, category, brand)
    ensures |r| <= |ps|
  {
    if ps == [] then []
    else
      var rest := Select(t, ps[1..], q, category, brand);
      assert forall p :: p in ps <==> p == ps[0] || p in ps[1..];
      if Selected(t, ps[0], q, category, brand) then [ps[0]] + rest else rest
  }

  /** The products the query selects, in the order of the model's sequence. The query has
      no ORDER BY, so PostgreSQL leaves the order unspecified: the page a window takes and
      the video that gives thumbnail_url and video_content_url are one possible outcome. */
  function Selection(t: Tables, q: Option<string>, category: Option<string>, brand: Option<string>): seq<Product> {
    Select(t, t.products, q, category, brand)
  }

  /** OFFSET skip LIMIT limit; PostgreSQL refuses negative values. */
  function Window(s: seq<Product>, skip: int, limit: int): (r: Result<seq<Product>, string>)
    ensures r.Err? <==> skip < 0 || limit < 0
    ensures r.Ok? ==>
      var from := Min(skip, |s|);
      |r.value| == Min(limit, |s| - from) && r.value == s[from..from + |r.value|]
  {
    if skip < 0 then Err("OFFSET must not be negative")
    else if limit < 0 then Err("LIMIT must not be negative")
    else
      var from := Min(skip, |s|);
      Ok(s[from..][..Min(limit, |s| - from)])
  }

  function Min(a: int, b: int): int { if a <= b then a else b }

  // ---------------------------------------------------------------- statistics

  /** Python's round(n / d, 0) on the exact ratio: the nearest integer, ties to the even one. */
  function RoundHalfEven(n: nat, d: nat): (r: nat)
    requires d > 0
    ensures (2 * r - 1) * d <= 2 * n <= (2 * r + 1) * d
    ensures 2 * n == (2 * r - 1) * d || 2 * n == (2 * r + 1) * d ==> r % 2 == 0
  {
    var q := n / d;
    var m := n % d;
    assert n == q * d + m;
    assert (2 * q - 1) * d == 2 * (q * d) - d;
    assert (2 * q + 1) * d == 2 * (q * d) + d;
    assert (2 * q + 3) * d == 2 * (q * d) + 3 * d;
    if 2 * m < d then q
    else if 2 * m > d then q + 1
    else if q % 2 == 0 then q
    else q + 1
  }

  /** A positive factor cancels from both sides of an inequality. */
  lemma CancelFactor(a: int, b: int, d: int)
    requires d > 0 && a * d <= b * d
    ensures a <= b
  {
  }

  function PositiveCount(rs: seq<Review>): (n: nat)
    ensures n <= |rs|
  {
    if rs == [] then 0
    else (if rs[0].sentiment == Some("positive") then 1 else 0) + PositiveCount(rs[1..])
  }

  /** positive_rate, in tenths of a percent: the share of positive reviews times 1000,
      rounded to the nearest integer, and 0 without reviews. */
  function PositiveRate(rs: seq<Review>): (tenths: nat)
    ensures tenths <= 1000
    ensures rs == [] ==> tenths == 0
  {
    if rs == [] then 0
    else
      var r: int := RoundHalfEven(1000 * PositiveCount(rs), |rs|);
      CancelFactor(2 * r - 1, 2000, |rs|);
      r
  }

  lemma RoundWhole(d: nat)
    requires d > 0
    ensures RoundHalfEven(1000 * d, d) == 1000
  {
    var r: int := RoundHalfEven(1000 * d, d);
    CancelFactor(2 * r - 1, 2000, d);
    CancelFactor(2000, 2 * r + 1, d);
  }

  lemma RoundZero(d: nat)
    requires d > 0
    ensures RoundHalfEven(0, d) == 0
  {
    var r: int := RoundHalfEven(0, d);
    CancelFactor(2 * r - 1, 0, d);
  }

  /** All reviews positive gives exactly 100%, none gives 0%. */
  lemma PositiveRateExtremes(rs: seq<Review>)
    ensures rs != [] && PositiveCount(rs) == |rs| ==> PositiveRate(rs) == 1000
    ensures PositiveCount(rs) == 0 ==> PositiveRate(rs) == 0
  {
    if rs != [] {
      RoundWhole(|rs|);
      RoundZero(|rs|);
    }
  }

  // ---------------------------------------------------------------- responses

  /** A review as the API returns it, with the title, thumbnail and channel of its video
      when those were filled in. */
  datatype ReviewOut = ReviewOut(review: Review, videoTitle: Option<string>,
                                 videoThumbnail: Option<string>, channelName: Option<string>)

  /** A product with its reviews, its videos and their statistics. */
  datatype ProductDetail = ProductDetail(
    product: Product,
    reviewCount: nat,
    positiveRate: nat,               // tenths of a percent
    reviews: seq<ReviewOut>,
    videos: seq<Video>,              // VideoSchema's fields; its video_url property is not serialised
    thumbnailUrl: Option<string>,
    videoContentUrl: Option<string>)

  const WatchUrlPrefix: string := "https://www.youtube.com/watch?v="

  /** The reviews without video details (the product list leaves them unset). */
  function Bare(rs: seq<Review>): (r: seq<ReviewOut>)
    ensures |r| == |rs|
    ensures forall i :: 0 <= i < |rs| ==> r[i] == ReviewOut(rs[i], None, None, None)
  {
    seq(|rs|, i requires 0 <= i < |rs| => ReviewOut(rs[i], None, None, None))
  }

  /** The video a review points at (the videos' ids are their primary key). */
  function VideoNamed(vs: seq<Video>, id: string): (r: Option<Video>)
    ensures r.Some? ==> r.value in vs && r.value.id == id
    ensures r.None? ==> forall v :: v in vs ==> v.id != id
  {
    if vs == [] then None
    else if vs[0].id == id then Some(vs[0])
    else VideoNamed(vs[1..], id)
  }

  /** The videos' ids are distinct, as the primary key of the videos table makes them. */
  predicate DistinctIds(vs: seq<Video>) {
    forall i, j :: 0 <= i < j < |vs| ==> vs[i].id != vs[j].id
  }

  /** Under the primary key, the lookup finds the one stored video with the id. */
  lemma {:induction false} VideoNamedIsTheVideo(vs: seq<Video>, v: Video)
    requires DistinctIds(vs) && v in vs
    ensures VideoNamed(vs, v.id) == Some(v)
  {
    if vs[0] != v {
      assert v in vs[1..];
      assert DistinctIds(vs[1..]) by {
        forall i, j | 0 <= i < j < |vs[1..]| ensures vs[1..][i].id != vs[1..][j].id {
          assert vs[1..][i] == vs[i + 1] && vs[1..][j] == vs[j + 1];
        }
      }
      VideoNamedIsTheVideo(vs[1..], v);
      var k :| 0 <= k < |vs| && vs[k] == v;
      assert k != 0;
    }
  }

  lemma VideoNamedFinds(vs: seq<Video>, id: string)
    ensures DistinctIds(vs) ==> forall v :: v in vs && v.id == id ==> VideoNamed(vs, id) == Some(v)
  {
    if DistinctIds(vs) {
      forall v | v in vs && v.id == id
        ensures VideoNamed(vs, id) == Some(v)
      {
        VideoNamedIsTheVideo(vs, v);
      }
    }
  }

  /** A review with the title, thumbnail and channel of its video, when it has one: a review
      whose video is stored gets that video's details, any other review gets none. */
  function Annotate(r: Review, vs: seq<Video>): (o: ReviewOut)
    ensures o.review == r
    ensures (forall v :: v in vs ==> v.id != r.videoId) ==> o == ReviewOut(r, None, None, None)
    ensures DistinctIds(vs) ==>
      forall v :: v in vs && v.id == r.videoId ==> o == ReviewOut(r, v.title, v.thumbnailUrl, v.channelName)
  {
    VideoNamedFinds(vs, r.videoId);

    match VideoNamed(vs, r.videoId)
    case None => ReviewOut(r, None, None, None)
    case Some(v) => ReviewOut(r, v.title, v.thumbnailUrl, v.channelName)
  }

  /** The statistics and media of a product, around the given review list. */
  function Detail(t: Tables, p: Product, reviews: seq<ReviewOut>): ProductDetail {
    var rs := ReviewsOf(t.reviews, p.id);
    var vs := VideosOf(t.videos, rs);
    ProductDetail(p, |rs|, PositiveRate(rs), reviews, vs,
                  if vs == [] then None else vs[0].thumbnailUrl,
                  if vs == [] then None else Some(WatchUrlPrefix + vs[0].id))
  }

  /** The response schemas declare a product's name and a video's title as required
      strings, so a product is answerable only when it has a name and every video its
      reviews join has a title; otherwise validation raises and the request fails. */
  predicate Answerable(t: Tables, p: Product) {
    p.name.Some? && forall v :: v in VideosOf(t.videos, ReviewsOf(t.reviews, p.id)) ==> v.title.Some?
  }

  predicate AllAnswerable(t: Tables, ps: seq<Product>) {
    forall p :: p in ps ==> Answerable(t, p)
  }

  /** The message of a response that fails validation (HTTP 500). */
  const ValidationFailed: string := "response validation failed"

  const InternalError: nat := 500

  /** One entry of the product list. */
  function Summary(t: Tables, p: Product): ProductDetail {
    Detail(t, p, Bare(ReviewsOf(t.reviews, p.id)))
  }

  /** GET /products: the selected products in the requested window, each with its details;
      a product in the window that is not answerable fails the whole request. */
  function ProductList(t: Tables, q: Option<string>, category: Option<string>, brand: Option<string>,
                       skip: int, limit: int): Result<seq<ProductDetail>, string> {
    match Window(Selection(t, q, category, brand), skip, limit)
    case Err(e) => Err(e)
    case Ok(ps) =>
      if AllAnswerable(t, ps) then Ok(Summaries(t, ps)) else Err(ValidationFailed)
  }

  function Summaries(t: Tables, ps: seq<Product>): (r: seq<ProductDetail>)
    ensures |r| == |ps| && forall i :: 0 <= i < |ps| ==> r[i] == Summary(t, ps[i])
  {
    seq(|ps|, i requires 0 <= i < |ps| => Summary(t, ps[i]))
  }

  /** The product a primary-key lookup finds. */
  function ProductNamed(ps: seq<Product>, id: string): (r: Option<Product>)
    ensures r.Some? ==> r.value in ps && r.value.id == id
    ensures r.None? ==> forall p :: p in ps ==> p.id != id
  {
    if ps == [] then None
    else if ps[0].id == id then Some(ps[0])
    else ProductNamed(ps[1..], id)
  }

  const NotFound: nat := 404

  function Annotated(rs: seq<Review>, vs: seq<Video>): (r: seq<ReviewOut>)
    ensures |r| == |rs|
    ensures forall i :: 0 <= i < |rs| ==> r[i] == Annotate(rs[i], vs)
  {
    seq(|rs|, i requires 0 <= i < |rs| => Annotate(rs[i], vs))
  }

  /** GET /products/{id}: 404 for an unknown id, 500 for a product that is not answerable,
      otherwise the product's details with each review's video filled in. */
  function ProductPage(t: Tables, id: string): Result<ProductDetail, nat> {
    match ProductNamed(t.products, id)
    case None => Err(NotFound)
    case Some(p) =>
      if Answerable(t, p) then Ok(Detail(t, p, Annotated(ReviewsOf(t.reviews, p.id), t.videos)))
      else Err(InternalError)
  }

  // ---------------------------------------------------------------- the handlers

  /** One pass of get_products' loop: the product and its joined videos are validated, then
      its entry is built from its reviews and the first of those videos. */
  method ListEntry(t: Tables, product: Product) returns (e: Option<ProductDetail>)
    ensures e.Some? <==> Answerable(t, product)
    ensures e.Some? ==> e.value == Summary(t, product)
  {
    if product.name.None? {
      return None;
    }
    var reviews := ReviewsOf(t.reviews, product.id);
    var videos := VideosOf(t.videos, reviews);
    if exists v :: v in videos && v.title.None? {
      return None;
    }
    var best := if videos == [] then None else Some(videos[0]);
    e := Some(ProductDetail(
      product, |reviews|, PositiveRate(reviews), Bare(reviews), videos,
      if best.Some? then best.value.thumbnailUrl else None,
      if best.Some? then Some(WatchUrlPrefix + best.value.id) else None));
  }

  /** The loop of get_products over the products found: one entry per product, until one
      fails validation. */
  method ListEntries(t: Tables, products: seq<Product>) returns (r: Option<seq<ProductDetail>>)
    ensures r.Some? <==> AllAnswerable(t, products)
    ensures r.Some? ==> r.value == Summaries(t, products)
  {
    ghost var entries := Summaries(t, products);
    var results: seq<ProductDetail> := [];
    for i := 0 to |products|
      invariant results == entries[..i]
      invariant AllAnswerable(t, products[..i])
    {
      var entry := ListEntry(t, products[i]);
      if entry.None? {
        assert products[i] in products;
        return None;
      }
      assert products[..i + 1] == products[..i] + [products[i]];
      assert entries[..i + 1] == entries[..i] + [entries[i]];
      results := results + [entry.value];
    }
    assert products[..|products|] == products;
    return Some(results);
  }

  /** get_products: the query, then the loop building one entry per product found; a product
      that fails validation ends the request. */
  method GetProducts(db: Store, q: Option<string>, category: Option<string>, brand: Option<string>,
                     skip: int, limit: int) returns (r: Result<seq<ProductDetail>, string>)
    ensures r == ProductList(db.Snapshot(), q, category, brand, skip, limit)
  {
    var t := db.Snapshot();
    var found := Window(Selection(t, q, category, brand), skip, limit);
    if found.Err? {
      return Err(found.error);
    }
    var results := ListEntries(t, found.value);
    if results.None? {
      return Err(ValidationFailed);
    }
    r := Ok(results.value);
  }

  /** get_product_detail: the lookup, then a loop over the product's reviews filling in
      each one's video. */
  method GetProductDetail(db: Store, id: string) returns (r: Result<ProductDetail, nat>)
    ensures r == ProductPage(db.Snapshot(), id)
  {
    var t := db.Snapshot();
    var product := ProductNamed(db.products, id);
    if product.None? {
      return Err(NotFound);
    }
    var p := product.value;
    var own := ReviewsOf(db.reviews, p.id);
    var reviewsData: seq<ReviewOut> := [];
    for i := 0 to |own|
      invariant |reviewsData| == i
      invariant forall k :: 0 <= k < i ==> reviewsData[k] == Annotate(own[k], t.videos)
    {
      var out := ReviewOut(own[i], None, None, None);
      var video := VideoNamed(db.videos, own[i].videoId);
      if video.Some? {
        out := out.(videoTitle := video.value.title, videoThumbnail := video.value.thumbnailUrl,
                    channelName := video.value.channelName);
      }
      reviewsData := reviewsData + [out];
    }
    assert reviewsData == Annotated(own, t.videos);
    if p.name.None? {
      return Err(InternalError);
    }
    var videos := VideosOf(db.videos, own);
    if exists v :: v in videos && v.title.None? {
      return Err(InternalError);
    }
    r := Ok(Detail(t, p, reviewsData));
  }

  // ---------------------------------------------------------------- properties

  /** With a search text, every product listed has a review whose video is stored, and the
      text occurs in its name, its brand or that video's channel name. */
  lemma SearchNeedsReviewedVideo(t: Tables, q: Option<string>, category: Option<string>,
                                 brand: Option<string>, p: Product)
    requires Truthy(q) && p in Selection(t, q, category, brand)
    ensures exists r, v :: r in t.reviews && v in t.videos && r.productId == p.id && v.id == r.videoId
    ensures Mentions(p.name, q.value) || Mentions(p.brand, q.value)
            || exists r, v :: r in t.reviews && v in t.videos && r.productId == p.id && v.id == r.videoId
                              && Mentions(v.channelName, q.value)
  {
    var rs := ReviewsOf(t.reviews, p.id);
    var vs := VideosOf(t.videos, rs);
    assert vs[0] in vs;
    var r :| r in rs && r.videoId == vs[0].id;
    assert r in t.reviews && vs[0] in t.videos;
    if !(Mentions(p.name, q.value) || Mentions(p.brand, q.value)) {
      var v :| v in vs && Mentions(v.channelName, q.value);
      var r' :| r' in rs && r'.videoId == v.id;
      assert r' in t.reviews && v in t.videos;
    }
  }

  /** A product is listed exactly when it is stored and passes the filters; the category and
      brand filters are exact matches. */
  lemma SelectionExact(t: Tables, q: Option<string>, category: Option<string>, brand: Option<string>,
                       p: Product)
    ensures p in Selection(t, q, category, brand) <==> p in t.products && Selected(t, p, q, category, brand)
    ensures p in Selection(t, q, category, brand) && Truthy(category) ==> p.category == category
    ensures p in Selection(t, q, category, brand) && Truthy(brand) ==> p.brand == brand
    ensures !Truthy(q) && !Truthy(category) && !Truthy(brand) ==> Selection(t, q, category, brand) == t.products
  {
    if !Truthy(q) && !Truthy(category) && !Truthy(brand) {
      SelectAll(t, t.products, q, category, brand);
    }
  }

  lemma {:induction false} SelectAll(t: Tables, ps: seq<Product>, q: Option<string>,
                                     category: Option<string>, brand: Option<string>)
    requires !Truthy(q) && !Truthy(category) && !Truthy(brand)
    ensures Select(t, ps, q, category, brand) == ps
  {
    if ps != [] {
      SelectAll(t, ps[1..], q, category, brand);
      assert ps == [ps[0]] + ps[1..];
    }
  }

  /** Each listed entry counts the product's reviews, rates them, and takes its thumbnail
      and link from the first video those reviews belong to (none without one). */
  lemma SummaryStats(t: Tables, p: Product)
    ensures var d := Summary(t, p);
      && d.product == p
      && d.reviewCount == |ReviewsOf(t.reviews, p.id)|
      && d.positiveRate <= 1000
      && (d.reviewCount == 0 ==> d.positiveRate == 0)
      && (d.thumbnailUrl.Some? || d.videoContentUrl.Some? ==>
            exists v :: v in t.videos && Reviewed(ReviewsOf(t.reviews, p.id), v.id)
                        && d.thumbnailUrl == v.thumbnailUrl && d.videoContentUrl == Some(WatchUrlPrefix + v.id))
      && (VideosOf(t.videos, ReviewsOf(t.reviews, p.id)) == [] ==> d.thumbnailUrl.None? && d.videoContentUrl.None?)
      && forall i :: 0 <= i < |d.reviews| ==> d.reviews[i].videoTitle.None? && d.reviews[i].channelName.None?
  {
    var vs := VideosOf(t.videos, ReviewsOf(t.reviews, p.id));
    if vs != [] {
      assert vs[0] in vs;
    }
  }

  /** The detail page of a stored product fails with 500 exactly when the product is not
      answerable; otherwise it agrees with its list entry on everything but the reviews' video
      details: under the videos' primary key, a review whose video is stored gets that video's
      title, thumbnail and channel, and any other review gets none. */
  lemma DetailAgreesWithList(t: Tables, id: string)
    ensures ProductNamed(t.products, id).None? ==> ProductPage(t, id) == Err(NotFound)
    ensures ProductNamed(t.products, id).Some? && !Answerable(t, ProductNamed(t.products, id).value) ==>
      ProductPage(t, id) == Err(InternalError)
    ensures ProductNamed(t.products, id).Some? && Answerable(t, ProductNamed(t.products, id).value) ==>
      var p := ProductNamed(t.products, id).value;
      var d := ProductPage(t, id);
      var s := Summary(t, p);
      && d.Ok?
      && d.value.(reviews := s.reviews) == s
      && |d.value.reviews| == |s.reviews|
      && forall i :: 0 <= i < |s.reviews| ==>
           && d.value.reviews[i].review == s.reviews[i].review
           && (d.value.reviews[i].videoTitle.Some? ==> exists v :: v in t.videos && v.id == s.reviews[i].review.videoId)
           && ((forall v :: v in t.videos ==> v.id != s.reviews[i].review.videoId) ==>
                 d.value.reviews[i] == s.reviews[i])
           && (DistinctIds(t.videos) ==>
                 forall v :: v in t.videos && v.id == s.reviews[i].review.videoId ==>
                   d.value.reviews[i] == ReviewOut(s.reviews[i].review, v.title, v.thumbnailUrl, v.channelName))
  {
    if ProductNamed(t.products, id).Some? && Answerable(t, ProductNamed(t.products, id).value) {
      var p := ProductNamed(t.products, id).value;
      var rs := ReviewsOf(t.reviews, p.id);
      var d := ProductPage(t, id);
      forall i | 0 <= i < |rs|
        ensures d.value.reviews[i].videoTitle.Some? ==> exists v :: v in t.videos && v.id == rs[i].videoId
      {
        var v := VideoNamed(t.videos, rs[i].videoId);
        if v.Some? {
          assert v.value in t.videos;
        }
      }
    }
  }

  /** A negative skip or limit fails the product list; otherwise it fails exactly when a
      product of the window is not answerable, and else holds the selected products from the
      skip position on, as many as the limit allows, in their stored order. */
  lemma ListIsWindow(t: Tables, q: Option<string>, category: Option<string>, brand: Option<string>,
                     skip: int, limit: int)
    ensures skip < 0 || limit < 0 ==> ProductList(t, q, category, brand, skip, limit).Err?
    ensures skip >= 0 && limit >= 0 ==>
      var s := Selection(t, q, category, brand);
      var from := Min(skip, |s|);
      (ProductList(t, q, category, brand, skip, limit).Ok? <==>
         forall i :: from <= i < from + Min(limit, |s| - from) ==> Answerable(t, s[i]))
    ensures ProductList(t, q, category, brand, skip, limit).Ok? ==>
      var s := Selection(t, q, category, brand);
      var l := ProductList(t, q, category, brand, skip, limit).value;
      && |l| <= limit
      && |l| == Min(limit, |s| - Min(skip, |s|))
      && forall i :: 0 <= i < |l| ==> l[i].product == s[Min(skip, |s|) + i] && Answerable(t, l[i].product)
  {
  }
}
